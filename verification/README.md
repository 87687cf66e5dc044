# Kong liquidity, claims and client pricing — a Dafny model

Kong is a token exchange on the Internet Computer. This project models two
parts of it and proves properties of the model.

The backend canister (Rust):

- **Adding liquidity** (`add_liquidity_transfer_from`). Both tokens of an
  existing pool are pulled with ICRC-2 `transfer_from`. `calculate_amounts`
  decides how much of each offer the pool takes and how many LP tokens to
  mint. A deposit that fails part-way hands back what was pulled, either as
  a refund or as a stored claim.
- **Creating a pool** (`add_pool`). This is a token/ckUSDT pool whose first
  deposit arrives either by `transfer_from` or as a block index the user
  already sent. It covers argument validation, the duplicate-block check,
  the refund decision and the LP tokens credited.
- **The two LP-token stores**: the LP token ledger and the LP token map.
  Each is a map from an id to a holding of one user in one LP token. The
  operations are lookup, total supply, insert with a fresh id, overwrite,
  delete-by-token and ledger `transfer`.
- **Claim processing** (`process_claims`). The unclaimed claims are
  selected and ordered by timestamp. Each claim moves through
  Unclaimed → Claiming → Claimed, or back to Unclaimed when its transfer
  fails.

The Svelte client (TypeScript):

- **`SwapService`**: decimal/base-unit conversion, the maximum sendable
  amount, and the swap monitor. The monitor is written as a per-poll
  transition with a thirty-attempt budget.
- **`TokenService`** price oracle: `fetchPrice`, `getUsdtPriceForToken`,
  `getUsdtPriceViaICP`, `calculateTokenPrice` and its paths, and
  `fetchPrices`. Prices are exact `real`s.
- **`parseTokens`**: turns the backend token list into client records.

Ledger calls, backend queries, timers and lookups in unseen stores are
inputs: the model receives what each call answered.

Modules:

| module | file |
|---|---|
| `Wrappers` | `Option`, `Result` |
| `NatHelpers` | the backend's `nat_*` helpers: floor square root, decimal rescaling, checked subtraction and division |
| `NatMaps` | least and greatest keys, ascending key order |
| `LpStore` | the record and the operations both LP stores share |
| `LpTokenLedger`, `LpTokenMap` | the two LP stores |
| `Pools` | tokens, pools, tx ids and returning one leg |
| `AddLiquidity`, `AddPool` | the two deposit flows |
| `Claims` | claim selection, sending and the batch loop |
| `SwapAmounts`, `SwapMonitor` | `SwapService` |
| `PriceOracle` | `TokenService` prices |
| `TokenParsers` | `parseTokens` |

Source paths below are relative to the repository root.

## Model

| member | source | states |
|---|---|---|
| LpStore.GetByTokenIdByUserId | src/kong_backend/src/stable_lp_token_ledger/lp_token_ledger.rs:19-28 | Returns the entry under the least key whose user and token both match. Returns `None` exactly when no entry matches. The map's `get_by_token_id_by_user_id` at lp_token_map.rs:17-26 has the same body. |
| LpStore.GetByFirstMatch | src/kong_backend/src/stable_lp_token_ledger/lp_token_ledger.rs:19-28 | Any key that is the first match is the one whose entry the lookup returns, so the answer is fully determined by key order. |
| LpStore.FoundIsStored | src/kong_backend/src/stable_lp_token_ledger/lp_token_ledger.rs:19-28 | In a well-keyed store, the holding found is stored under its own `lp_token_id`, and that id is the first match. |
| LpStore.GetTotalSupply | src/kong_backend/src/stable_lp_token_ledger/lp_token_ledger.rs:44-51 | The supply of `t` is at least the amount of every entry holding `t`. It is 0 when no entry holds `t`. The map's copy is at lp_token_map.rs:28-35. |
| LpStore.SupplySplit | src/kong_backend/src/stable_lp_token_ledger/lp_token_ledger.rs:44-51 | Removing any one entry removes exactly its own contribution. So the fold counts every matching entry once, whatever the key order. |
| LpStore.Put | src/kong_backend/src/stable_lp_token_ledger/lp_token_ledger.rs:72-74 | `update` stores the record at its own id. It leaves every other key and record as it was, and keeps the store well keyed. |
| LpStore.PutSupply | src/kong_backend/src/stable_lp_token_ledger/lp_token_ledger.rs:72-74 | After an overwrite, supply plus the replaced entry's contribution equals the old supply plus the new entry's contribution. |
| LpStore.GetAfterPut | src/kong_backend/src/stable_lp_token_ledger/lp_token_ledger.rs:72-74 | Overwriting an entry without changing whom it matches changes the lookup only if that entry was the one found. A record appended past the largest key is found only when nothing matched before. |
| LpStore.Remove | src/kong_backend/src/stable_lp_token_ledger/lp_token_ledger.rs:76-89 | A key survives if and only if its entry holds a different token. Survivors are unchanged. The map's copy is at lp_token_map.rs:76-87. |
| LpStore.RemoveSupply | src/kong_backend/src/stable_lp_token_ledger/lp_token_ledger.rs:76-89 | After `remove(t)` the supply of `t` is 0 and every other token's supply is unchanged. |
| LpTokenLedger.GetByTokenId | src/kong_backend/src/stable_lp_token_ledger/lp_token_ledger.rs:13-16 | An unregistered caller gets `None`. A result is a stored holding of the caller in that token. `None` for a registered caller means the caller holds none. |
| LpTokenLedger.NextId | src/kong_backend/src/stable_lp_token_ledger/lp_token_ledger.rs:57-62 | The new id is 1 for an empty ledger, otherwise the largest key plus one. It is above every key and absent from the ledger. |
| LpTokenLedger.Insert | src/kong_backend/src/stable_lp_token_ledger/lp_token_ledger.rs:53-70 | Adds exactly one fresh key, holding the record with `lp_token_id` set to it. Existing entries are unchanged and the ledger stays well keyed. |
| LpTokenLedger.Transfer | src/kong_backend/src/stable_lp_token_ledger/lp_token_ledger.rs:101-133 | Fails with "Not enough LP token" exactly when the caller has no holding or holds less than `amount`. On success it returns the caller's holding debited by `amount` and stamped with `ts`. |
| LpTokenLedger.Credit | src/kong_backend/src/stable_lp_token_ledger/lp_token_ledger.rs:120-130 | The receiving half of `transfer` keeps the ledger well keyed. |
| LpTokenLedger.CreditSupply | src/kong_backend/src/stable_lp_token_ledger/lp_token_ledger.rs:120-130 | Crediting raises the supply of the credited token by exactly `amount` and leaves every other supply unchanged. |
| LpTokenLedger.CreditFinds | src/kong_backend/src/stable_lp_token_ledger/lp_token_ledger.rs:120-130 | Afterwards the receiver's holding is its old amount (0 if none) plus `amount`. Every other user's lookup is unchanged. |
| LpTokenLedger.TransferConserves | src/kong_backend/src/stable_lp_token_ledger/lp_token_ledger.rs:101-133 | A successful transfer keeps the ledger well keyed and conserves the total supply of every LP token. |
| LpTokenLedger.TransferMovesBalance | src/kong_backend/src/stable_lp_token_ledger/lp_token_ledger.rs:104-132 | Between two different users, the sender's holding drops by `amount`. The receiver's holding (0 if none) rises by `amount`. |
| LpTokenLedger.DebitKeepsOthers | src/kong_backend/src/stable_lp_token_ledger/lp_token_ledger.rs:104-118 | Rewriting the sender's holding does not change what any other user's lookup finds. |
| LpTokenMap.GetByTokenId | src/kong_backend/src/stable_lp_token/lp_token_map.rs:11-26 | An unregistered caller gets `None`. Otherwise the result is a stored holding of the caller in that token, or `None` when the caller has none. |
| LpTokenMap.Insert | src/kong_backend/src/stable_lp_token/lp_token_map.rs:37-49 | Always `Ok` with the incremented counter, which becomes the record's id. While the counter is at or past every key, the id is fresh and the map stays valid. |
| LpTokenMap.Update | src/kong_backend/src/stable_lp_token/lp_token_map.rs:51-54 | Overwrites exactly the entry at the record's own id. Other keys and records and the counter are unchanged. |
| LpTokenMap.Remove | src/kong_backend/src/stable_lp_token/lp_token_map.rs:76-87 | Always `Ok`. It drops exactly the holdings of the token and keeps the rest unchanged and valid. |
| LpTokenMap.InsertSupply | src/kong_backend/src/stable_lp_token/lp_token_map.rs:37-49 | On a valid map, an insert adds exactly the new holding's amount to its token's supply. |
| LpTokenMap.StaleCounterOverwrites | src/kong_backend/src/stable_lp_token/lp_token_map.rs:40-45 | With a counter behind the keys, `insert` overwrites an existing holding and supply is lost. Freshness rests on the counter invariant. |
| Pools.ReturnLeg | src/kong_backend/src/add_liquidity/add_liquidity_transfer_from.rs:420-458 | Only a given leg is handed back. A refund sends the amount less the fee, saturating at 0. A failed refund owes the full amount as a claim. |
| AddLiquidity.CalculateAmounts | src/kong_backend/src/add_liquidity/add_liquidity_transfer_from.rs:86-172 | A missing pool is reported. An accepted pair never exceeds the offer, and one side is taken whole. An empty pool (both reserves, balance plus LP fee, zero) keeps both amounts and mints the floor square root of their product in LP decimals. An offer exactly at the reserve ratio is taken whole. "Incorrect ratio" is returned if and only if the pool is non-empty, the offer is off the exact ratio, and each offer falls below the counterpart of the other. The message quotes each offer rescaled to the other token's decimals. |
| AddLiquidity.AcceptedCases | src/kong_backend/src/add_liquidity/add_liquidity_transfer_from.rs:114-165 | A non-empty pool accepts in exactly three ways: the exact ratio minted on side 0; token 1 trimmed to the counterpart of token 0; or token 0 trimmed to the counterpart of token 1, minted on side 1. |
| AddLiquidity.AcceptedPairFollowsRatio | src/kong_backend/src/add_liquidity/add_liquidity_transfer_from.rs:130-164 | With equal decimals, the accepted pair lies on the pool ratio up to floor rounding of the trimmed side. |
| AddLiquidity.IncorrectRatioNeedsDecimalMismatch | src/kong_backend/src/add_liquidity/add_liquidity_transfer_from.rs:158-171 | With equal decimals, "Incorrect ratio" is never reported: if token 1 falls short, token 0 covers its counterpart. |
| AddLiquidity.ProRataUnscaled | src/kong_backend/src/add_liquidity/add_liquidity_transfer_from.rs:118-126 | When the LP token has at least the token's decimals, the minted amount is `floor(supply * amount / reserve)` and the reserve is nonzero. |
| AddLiquidity.MintIsProRataShare | src/kong_backend/src/add_liquidity/add_liquidity_transfer_from.rs:114-164 | The LP minted is the rounded-down pro-rata share of the supply, measured on a side taken whole. So the other holders' share of that side does not fall. |
| AddLiquidity.TrimmedSideCanDilute | src/kong_backend/src/add_liquidity/add_liquidity_transfer_from.rs:133-148 | The trimmed side is rounded down, so it can favour the depositor. Reserves (2, 3), supply 100 and offer (1, 5) are taken as (1, 1) and mint 50. Afterwards each LP token stands for less of token 1. |
| AddLiquidity.CheckArguments | src/kong_backend/src/add_liquidity/add_liquidity_transfer_from.rs:62-80 | A zero amount gives "Invalid zero amounts". A tx id gives the tx-id error. Past those checks a failing `calculate_amounts` is reported as is. Success happens if and only if both checks pass, `calculate_amounts` succeeds and the caller is registered. It returns exactly the pool and amounts `calculate_amounts` computed. |
| AddLiquidity.UpdateLpTokenSupply | src/kong_backend/src/add_liquidity/add_liquidity_transfer_from.rs:374-398 | `update_lp_token` raises its LP token's supply by exactly the minted amount and no other supply. |
| AddLiquidity.UpdateLpTokenHolding | src/kong_backend/src/add_liquidity/add_liquidity_transfer_from.rs:374-398 | The map stays valid. The user's holding becomes the old one (or 0) plus the minted amount. |
| AddLiquidity.UpdateLiquidityPool | src/kong_backend/src/add_liquidity/add_liquidity_transfer_from.rs:332-370 | Recalculates against the current pool and fails exactly when that recalculation fails. It adds the recalculated amounts to the pool's balances and credits the recalculated LP amount. |
| AddLiquidity.ProcessAddLiquidity | src/kong_backend/src/add_liquidity/add_liquidity_transfer_from.rs:174-281 | A failed token-0 pull hands back nothing and changes nothing. A failed token-1 pull hands back token 0 only. A failed recalculation hands back both. Success hands back nothing, stays within the amounts pulled and adds them to the current balances. |
| AddLiquidity.PulledLegsAreReturnedOnFailure | src/kong_backend/src/add_liquidity/add_liquidity_transfer_from.rs:195-260 | A leg is handed back if and only if it was pulled and the deposit failed. |
| AddLiquidity.ProcessAddLiquidityMints | src/kong_backend/src/add_liquidity/add_liquidity_transfer_from.rs:332-398 | A valid LP map stays valid. The pool's LP supply grows by exactly the minted amount, and by nothing on failure. |
| AddLiquidity.AddLiquidityTransferFrom | src/kong_backend/src/add_liquidity/add_liquidity_transfer_from.rs:28-44 | A rejected request changes nothing. An accepted one never deposits more than offered. |
| AddPool.BlockOf | src/kong_backend/src/add_pool/add_pool.rs:149-162 | Fails exactly on a non-block-index tx id. Otherwise it passes the block index through, with `None` staying `None`. |
| AddPool.ResolveToken0 | src/kong_backend/src/add_pool/add_pool.rs:179-189 | An existing token is used as is. Otherwise only a newly added IC token is accepted. |
| AddPool.CalculateAmounts | src/kong_backend/src/add_pool/add_pool.rs:226-243 | Both amounts are kept. The LP minted is the floor square root of the product of the amounts rescaled to 8 decimals. |
| AddPool.FirstDepositRulesAgree | src/kong_backend/src/add_pool/add_pool.rs:226-243 | Creating a pool mints what adding liquidity to an empty pool with 8 LP decimals would mint. |
| AddPool.CheckArguments | src/kong_backend/src/add_pool/add_pool.rs:108-224 | Zero amounts are rejected first. "Kong fee above LP fee" occurs exactly when the effective Kong fee exceeds the effective LP fee, and only a controller may choose the Kong fee. `on_kong` holds only for a controller who asks. Tx ids must be block indexes. `token_1` must be one of the four ckUSDT names. LP token and pool must not exist. The amounts come from `calculate_amounts`. |
| AddPool.VerifyTransferToken | src/kong_backend/src/add_pool/add_pool.rs:424-497 | Accepts if and only if the ledger verified the block and it is not recorded for the token. A verified but recorded block is "Duplicate block id". Only acceptance records the block. |
| AddPool.VerifyOnce | src/kong_backend/src/add_pool/add_pool.rs:447-463 | A block that backed one deposit is refused the second time, whatever the ledger answers. |
| AddPool.TransferFromToken | src/kong_backend/src/add_pool/add_pool.rs:500-557 | Succeeds if and only if the ledger's `transfer_from` did. The new block is recorded. |
| AddPool.ReceiveLeg1 | src/kong_backend/src/add_pool/add_pool.rs:291-320 | Token 1 is not pulled once token 0 has failed. |
| AddPool.UpdateLiquidityPool | src/kong_backend/src/add_pool/add_pool.rs:557-624 | Fails if and only if the pool id is not found. Otherwise it adds the deposit to the pool's balances and credits the minted LP tokens in the ledger. |
| AddPool.MarkUnreturnable | src/kong_backend/src/add_pool/add_pool.rs:394-403 | A leg proven by a block index stops counting as received when the other leg failed. |
| AddPool.ProcessAddPool | src/kong_backend/src/add_pool/add_pool.rs:246-421 | Success needs both legs, the LP token insert, the pool insert and the pool found. It then reports the checked amounts, writes the balances, credits the ledger and hands back nothing. When the pool read back is the one just inserted (`ReadsBackNewPool`), the pool written has the new pool id, and the LP token credited is the one just inserted. Failure leaves the ledger unchanged and hands back, less the fee, each leg still counted as received. |
| AddPool.FailedReturnsWhatArrived | src/kong_backend/src/add_pool/add_pool.rs:394-420 | On failure, a pulled leg is returned if and only if it arrived. A verified leg is returned if and only if both legs arrived. |
| AddPool.SuccessMintsSupply | src/kong_backend/src/add_pool/add_pool.rs:594-624 | A created pool raises the ledger supply of the pool's LP token by exactly the minted amount and no other supply. When the pool read back is the one just inserted, that is the LP token just created. The ledger stays well keyed. |
| AddPool.AddPool | src/kong_backend/src/add_pool/add_pool.rs:50-84 | Fails exactly when the arguments are rejected. A success deposits exactly the amounts offered. |
| Claims.UnclaimedIn | src/kong_backend/src/claims/claims.rs:40-45 | The `Unclaimed` claims stored under the keys, all of them, in key order. |
| Claims.SortByTs | src/kong_backend/src/claims/claims.rs:47 | Sorting by `ts` is a permutation of the selection. |
| Claims.SortByTsIsLex | src/kong_backend/src/claims/claims.rs:47 | The sort is stable: claims ascend by `ts`, and among equal `ts` keep ascending id order. |
| Claims.SelectionOrdered | src/kong_backend/src/claims/claims.rs:40-47 | The selection is strictly ordered by (`ts`, claim id). |
| Claims.SelectionIsUnclaimed | src/kong_backend/src/claims/claims.rs:40-45 | A claim is selected if and only if it is stored and `Unclaimed`. |
| Claims.SelectionStored | src/kong_backend/src/claims/claims.rs:40-45 | Each selected claim is the one stored under its id, and no id is selected twice. |
| Claims.SelectionCovers | src/kong_backend/src/claims/claims.rs:40-45 | A stored claim's id is selected if and only if its status is `Unclaimed`. |
| Claims.InFlight | src/kong_backend/src/claims/claims.rs:141-142 | The claim is marked `Claiming`. Nothing else changes. |
| Claims.InFlightNotSelected | src/kong_backend/src/claims/claims.rs:141-142 | A claim in flight is not picked up by a selection taken meanwhile. |
| Claims.SendClaim | src/kong_backend/src/claims/claims.rs:130-184 | Succeeds if and only if the transfer did. On success it pays `amount - fee`, saturating at 0, marks the claim `Claimed` by this request and transfer, and takes a transfer id. On failure it appends the request to the attempts and reverts to `Unclaimed`. Other claims are untouched. |
| Claims.SendClaimChecked | src/kong_backend/src/claims/claims.rs:130-184 | Corrected `send_claim`: a claim no longer `Unclaimed` is refused and nothing changes. Otherwise it behaves as `SendClaim`. |
| Claims.CheckedSendPaysOnce | src/kong_backend/src/claims/claims.rs:141-168 | A checked send keeps every claim paid at most once, and only when marked `Claimed`. |
| Claims.CheckedSendsPayOnce | src/kong_backend/src/claims/claims.rs:130-184 | Any sequence of checked sends, from any interleaving of batches, keeps every claim paid at most once. |
| Claims.StaleSelectionPaysTwice | src/kong_backend/src/claims/claims.rs:40-47 | Two sends of one claim from stale selections pay it twice as written, and once with the check. |
| Claims.ProcessClaim | src/kong_backend/src/claims/claims.rs:77-128 | Always `Ok`. It runs the as-written `send_claim`. The status is "Success" if and only if the transfer succeeded, otherwise "Failed". The reply carries the claim id, amount, fee and address. |
| Claims.ProcessClaimRepaysSettled | src/kong_backend/src/claims/claims.rs:92-168 | A claim already `Claimed` or `Claiming` whose transfer succeeds is paid once more and reported "Success". The checked send leaves the world unchanged. |
| Claims.ProcessClaimChecked | src/kong_backend/src/claims/claims.rs:77-128 | Corrected `process_claim`: a claim no longer `Unclaimed` gives "Failed" and no change. On a claim still `Unclaimed` it equals `ProcessClaim`. |
| Claims.VisitClaim | src/kong_backend/src/claims/claims.rs:49-63 | A claim without address or known token is skipped unchanged. An eligible claim takes a request id and is processed, answering `Ok` with "Success" if and only if its transfer succeeded. The selected copy is paid per `PaymentFor` whatever the stored status now is. A stored eligible claim ends with `StatusAfter`. |
| Claims.NextErrors | src/kong_backend/src/claims/claims.rs:60-71 | A success resets the counter. A failure increments it and stops the loop if and only if the count exceeds 3. |
| Claims.VisitsSettle | src/kong_backend/src/claims/claims.rs:49-74 | The loop keeps the keys and well-keyedness. It leaves unvisited claims alone, gives each visited claim its `StatusAfter`, and leaves ineligible ones untouched. |
| Claims.VisitsPay | src/kong_backend/src/claims/claims.rs:49-74 | The loop makes exactly the expected payments, in selection order. |
| Claims.VisitsReply | src/kong_backend/src/claims/claims.rs:92-127 | Every reply of the loop is "Success" or "Failed". |
| Claims.VisitAll | src/kong_backend/src/claims/claims.rs:49-74 | The loop computes the fold `Visits`. Its error flag comes from each `process_claim` result, and because that result is always `Ok` the loop never reaches the error break. |
| Claims.BatchOutcome | src/kong_backend/src/claims/claims.rs:26-75 | Over the selection, the batch pays the expected payments. It leaves non-`Unclaimed` and ineligible claims unchanged and settles every `Unclaimed` one. |
| Claims.ProcessClaims | src/kong_backend/src/claims/claims.rs:26-75 | Maintenance mode or no unclaimed claims changes nothing. Otherwise it makes the expected payments, in order. Claims that are not `Unclaimed`, or are ineligible, are unchanged. Each `Unclaimed` claim ends `Claimed` if paid, else `Unclaimed`. The loop never stops early. |
| SwapAmounts.ToBigInt | src/kong_svelte/src/lib/services/swap/SwapService.ts:59-64 | Empty or non-numeric text gives 0. Text only `Number` accepts is an error. A decimal converts if and only if its base-unit value is whole, and then divides back to the decimal. |
| SwapAmounts.FromBigInt | src/kong_svelte/src/lib/services/swap/SwapService.ts:66-75 | Up to 36 decimals the result times 10^decimals is the amount exactly. A non-negative amount never gives a negative result. |
| SwapAmounts.FromThenTo | src/kong_svelte/src/lib/services/swap/SwapService.ts:59-75 | Base units survive the round trip through decimal text. |
| SwapAmounts.ToThenFrom | src/kong_svelte/src/lib/services/swap/SwapService.ts:59-75 | A convertible decimal survives the round trip through base units. |
| SwapAmounts.GasFee | src/kong_svelte/src/lib/services/swap/SwapService.ts:545-552 | The fee in whole units, once for ICRC-1 and twice otherwise, and 0 without a fee. It is exact up to 36 decimals and truncated like `FromBigInt` beyond that. |
| SwapAmounts.CalculateMaxAmount | src/kong_svelte/src/lib/services/swap/SwapService.ts:533-559 | Never negative. It is the balance less the gas fee when that fits, else 0. |
| SwapAmounts.MaxAmountMonotone | src/kong_svelte/src/lib/services/swap/SwapService.ts:545-558 | A larger balance never gives a smaller maximum, and the maximum never exceeds a non-negative balance. |
| SwapMonitor.StopPolling | src/kong_svelte/src/lib/services/swap/SwapService.ts:455-460 | Clears the held interval and empties the slot. With nothing held it is a no-op. |
| SwapMonitor.StopIsIdempotent | src/kong_svelte/src/lib/services/swap/SwapService.ts:455-460 | Stopping twice is stopping once. |
| SwapMonitor.StartPolling | src/kong_svelte/src/lib/services/swap/SwapService.ts:337-348 | Stops the old interval first, then holds and runs a new one. |
| SwapMonitor.StartLeavesOneLoop | src/kong_svelte/src/lib/services/swap/SwapService.ts:337-348 | After a start exactly one polling loop runs. |
| SwapMonitor.FirstFailedIsFirst | src/kong_svelte/src/lib/services/swap/SwapService.ts:355-360 | The status found is the first one mentioning "Failed": every earlier status does not mention it. So with several failed statuses, the error shown is the first one's. |
| SwapMonitor.FirstFailed | src/kong_svelte/src/lib/services/swap/SwapService.ts:355-367 | Finds the first status containing "Failed", and `None` if and only if none does. |
| SwapMonitor.Tick | src/kong_svelte/src/lib/services/swap/SwapService.ts:348-453 | An exception means Error, stop, and not counted. Otherwise the attempt is counted. Past the budget the result is Timeout. "Success" and "Failed" stop. Other statuses show while processing. A failed status entry stops with Error. Polling never restarts. |
| SwapMonitor.QuietPollsContinue | src/kong_svelte/src/lib/services/swap/SwapService.ts:429-440 | Quiet polls within the budget keep polling, one attempt each. |
| SwapMonitor.TimeoutOnThirtyFirstPoll | src/kong_svelte/src/lib/services/swap/SwapService.ts:429-440 | Thirty quiet polls still poll. The thirty-first times out. |
| SwapMonitor.SuccessIsFinal | src/kong_svelte/src/lib/services/swap/SwapService.ts:377-384 | A Success reply within the budget stops with Success, and later fetches change nothing. |
| SwapMonitor.LateSuccessShowsTimeout | src/kong_svelte/src/lib/services/swap/SwapService.ts:429-438 | A Success arriving on the thirty-first poll is shown as Timeout. |
| SwapMonitor.FailedStatusIsOverwritten | src/kong_svelte/src/lib/services/swap/SwapService.ts:355-375 | A failed status entry stops polling, but a pending swap reply in the same poll overwrites the Error and clears the message. |
| SwapMonitor.ExceptionEndsMonitoring | src/kong_svelte/src/lib/services/swap/SwapService.ts:441-451 | After an exception nothing more happens: Error, stopped, with no retry. |
| PriceOracle.FindPair | src/kong_svelte/src/lib/services/tokens/TokenService.ts:548-552 | The first pool pairing the two symbols in either orientation, and `None` if and only if there is none. |
| PriceOracle.FindPairSymmetric | src/kong_svelte/src/lib/services/tokens/TokenService.ts:548-552 | The pair search does not depend on argument order. |
| PriceOracle.FindAgainst | src/kong_svelte/src/lib/services/tokens/TokenService.ts:439-442 | The first pool with the token on one side and the symbol on the other, and `None` if and only if there is none. |
| PriceOracle.Relevant | src/kong_svelte/src/lib/services/tokens/TokenService.ts:495-499 | Exactly the pools holding the token on either side. |
| PriceOracle.GetUsdtPriceViaIcp | src/kong_svelte/src/lib/services/tokens/TokenService.ts:569-602 | 0 unless both a token/ICP pool and an ICP/ckUSDT pool exist. Otherwise it is the product of the two prices, each oriented. |
| PriceOracle.GetUsdtPriceForToken | src/kong_svelte/src/lib/services/tokens/TokenService.ts:544-567 | A direct ckUSDT pool gives its oriented price. Otherwise a positive ICP-path price is used, else 0. |
| PriceOracle.CkusdtResolvesThroughIcp | src/kong_svelte/src/lib/services/tokens/TokenService.ts:548-598 | ckUSDT itself has no direct pool. It is priced 0 without an ICP/ckUSDT pool, and 1 with one of nonzero price. |
| PriceOracle.SideQuote | src/kong_svelte/src/lib/services/tokens/TokenService.ts:506-533 | The weight is the token's own balance. As written, side 0 multiplies by the quote symbol's USD price. Side 1 inverts the price, then multiplies unless the other side is ckUSDT. |
| PriceOracle.Contributions | src/kong_svelte/src/lib/services/tokens/TokenService.ts:535-538 | Exactly the side quotes with positive price and positive weight, in order. |
| PriceOracle.FetchPriceWith | src/kong_svelte/src/lib/services/tokens/TokenService.ts:493-542 | 0 with no relevant pool. Never negative. Positive if and only if some pool contributes. |
| PriceOracle.FetchPriceBetween | src/kong_svelte/src/lib/services/tokens/TokenService.ts:535-541 | The result is a weighted average: it lies within the range of the contributing prices. |
| PriceOracle.LoneCkusdtPoolPricedZero | src/kong_svelte/src/lib/services/tokens/TokenService.ts:519-521 | A token whose only pool is against ckUSDT, as side 0, prices 0 as written and at the pool price when corrected. |
| PriceOracle.CkusdtPoolSetsPrice | src/kong_svelte/src/lib/services/tokens/TokenService.ts:510-523 | Corrected: a lone side-0 ckUSDT pool with positive price and balance gives exactly its price. |
| PriceOracle.DirectUsdtPath | src/kong_svelte/src/lib/services/tokens/TokenService.ts:435-456 | The first relevant pool against ckUSDT, oriented, weighted by total liquidity. Without one it is (0, 0). |
| PriceOracle.IcpPath | src/kong_svelte/src/lib/services/tokens/TokenService.ts:458-483 | The first pool against ICP: its oriented price times ICP's USD price, weighted by liquidity. Without one it is (0, 0). |
| PriceOracle.ValidPaths | src/kong_svelte/src/lib/services/tokens/TokenService.ts:420 | Exactly the paths with positive price. |
| PriceOracle.CalculateTokenPrice | src/kong_svelte/src/lib/services/tokens/TokenService.ts:389-433 | 1 for the ckUSDT ledger. 0 with no relevant pool or no valid path. Never negative. |
| PriceOracle.TokenPriceBetween | src/kong_svelte/src/lib/services/tokens/TokenService.ts:426-432 | With positive total weight, the share-weighted sum lies within the range of the valid path prices. |
| PriceOracle.FetchPrices | src/kong_svelte/src/lib/services/tokens/TokenService.ts:323-387 | With no pools, every token with a canister id is priced 0 and ckUSDT is not forced. With pools, the keys are the token ids plus the ckUSDT ledger id, unless that id is unset or empty, and then the ckUSDT ledger is 1. |
| PriceOracle.FetchPricesByLast | src/kong_svelte/src/lib/services/tokens/TokenService.ts:338-384 | With pools, every token id's price is `calculateTokenPrice` of the last token listed under that id. The ckUSDT override agrees with this. |
| PriceOracle.Priced | src/kong_svelte/src/lib/services/tokens/TokenService.ts:355-379 | Every token with a canister id gets a price, and no other key is present. |
| PriceOracle.PricedByLast | src/kong_svelte/src/lib/services/tokens/TokenService.ts:355-364 | For every id, the price held is `calculateTokenPrice` of the last token listed under it. A later token overwrites an earlier one. |
| TokenParsers.ToFront | src/kong_svelte/src/lib/services/tokens/tokenParsers.ts:14-39 | Copies every backend field. `pool_symbol` defaults to "Pool not found". pools `[]`, logo "/tokens/not_verified.webp", and volume, price, tvl and balance 0. |
| TokenParsers.IcRecordsMembers | src/kong_svelte/src/lib/services/tokens/tokenParsers.ts:10-13 | Keeps every IC record of the list and nothing that is not one. |
| TokenParsers.ConvertMatchesRecords | src/kong_svelte/src/lib/services/tokens/tokenParsers.ts:10-39 | The one-pass conversion equals mapping `ToFront` over the filtered IC records, entry by entry. |
| TokenParsers.ParseTokens | src/kong_svelte/src/lib/services/tokens/tokenParsers.ts:1-48 | An `Err` with a message passes through. An `Err` with an empty message falls through and fails in the filter. `Ok` gives the IC records converted, in order. |
| TokenParsers.ParseDistributes | src/kong_svelte/src/lib/services/tokens/tokenParsers.ts:10-41 | Parsing a concatenation concatenates the parses, so the input order is kept. |
| TokenParsers.AllIcKept | src/kong_svelte/src/lib/services/tokens/tokenParsers.ts:10-41 | A list of IC tokens maps one to one, keeping canister ids and order. |
| TokenParsers.OthersDropped | src/kong_svelte/src/lib/services/tokens/tokenParsers.ts:10-13 | Non-IC tokens are dropped. |

## Left out

- Ledger and inter-canister calls (`icrc2_transfer_from`, `icrc1_transfer`, `icp_transfer`, `verify_transfer`) and the user-map, token-map, pool-map and settings lookups are inputs, so the model does not compute them.
- Request-status logging (`request_map`), `error_log`/`info_log`, `tx_map` inserts, `transfer_map` inserts, replies built for the request map, and the archive calls to kong_data are side-effect traces with no bearing on the results. Of the `transfer_map` inserts, the model keeps only what later steps read. In `add_pool` that is the (token, block) pair of a received leg, the `Recorded` set that the duplicate-block check consults. In claims it is the next transfer id, which `Claimed` stores. The records themselves and the transfer ids of refunds are not modelled.
- The `nat_*` helpers are not part of this model. `NatHelpers` gives them the behaviour their names and uses state: floor square root, rescaling by a power of ten, `None` on underflow or a zero divisor.
- `update_claiming_status`, `update_claimed_status`, `insert_attempt_request_id`, `update_unclaimed_status` and `get_num_unclaimed_claims` are not part of this model. They are taken as plain field updates, and as a count of the `Unclaimed` claims.
- The pool created by `add_pool` and the claims saved by `return_tokens` are recorded as ids and `LegReturn` values, not written into pool, token and claim maps, whose code is not part of this model.
- AddPool.ProcessAddPool, AddPool.SuccessMintsSupply: `pool_map::insert` and `get_by_pool_id` are not part of this model. The pool read back by id is an input. That it is the pool just built, with the LP token just inserted, is the predicate `ReadsBackNewPool`. The members state the new-LP-token facts under it rather than assuming it.
- AddPool.UpdateLiquidityPool: `add_pool`'s `update_lp_token` looks up the caller's holding. The model looks up `user_id`'s, which is the caller registered in `check_arguments`.
- AddLiquidity.UpdateLpToken: `update_lp_token` (add_liquidity_transfer_from.rs:378) looks up the caller's holding through `lp_token_map::get_by_token_id`. The model looks up `user_id`'s, which is the caller registered in `check_arguments`.
- `add_liquidity_transfer_from_async` spawns the same processing and returns the request id at once. Only the synchronous flow is modelled.
- The ledger's `get` (all holdings of the caller) is marked dead code and not modelled.
- Concurrency: overlapping claim batches are modelled as interleaved send sequences, not as a scheduler.
- JavaScript numbers are exact `real`s. IEEE-754 rounding and BigNumber's text rendering are not modelled, and `FromBigInt` returns the number the text denotes.
- PriceOracle.Recip: `1 / 0` is Infinity in JavaScript. The model uses 0, which never counts as a positive price, so it differs only for zero-priced pools.
- PriceOracle.CalculateTokenPrice: with valid paths of zero total weight, the source computes `0 / 0`, which is NaN. The model gives 0.
- `fetchPrices`' per-token `catch`, the `Promise.allSettled` rejection branch and the kongDB writes are not modelled, because `calculateTokenPrice` cannot fail in the model.
- `tokenParsers.ts`' `catch` branch is only reached for an `Err` with an empty message. The model takes the message V8 gives that `TypeError`.
- SwapAmounts.ToBigInt: text is classified beforehand into empty, non-numeric, a decimal value, or text only `Number` accepts. String parsing itself is not modelled. In particular, once the base-unit value reaches 10^50, BigNumber (`EXPONENTIAL_AT: [-50, 50]`) renders it in exponential form and `BigInt` throws, while the model still returns `Ok`.
- SwapAmounts.CalculateMaxAmount: the balance is a number. A balance text that parses to NaN is not modelled, and neither are the default arguments (8 decimals, not ICRC-1).
- SwapMonitor.Tick: the swap store's partial update is modelled as a record update of status, `is_processing`, error and refresh flag. Toasts, `swapId` and UI events are left out.
- SwapMonitor.StartPolling: an in-flight callback of an interval already cleared can still finish its `await` and write to the store. The model runs one interval at a time.
- The `requests` query's reply is reduced to the statuses list and the Swap reply's status.
- `monitorTransaction` stops the monitor on Success before the attempt count is checked. The Timeout override of a Success on poll thirty-one follows the code, which sets both.

## Findings

| source | as written | input that shows it | evidently intended | confidence | as-written member | corrected member |
|---|---|---|---|---|---|---|
| src/kong_backend/src/claims/claims.rs:40-47, 141-168 | `process_claims` snapshots the `Unclaimed` claims before its first `await`, and `send_claim` never re-reads the status. A batch started by the timer while another awaits can pay a claim the other still holds in its stale snapshot. | Claim 1 (amount 100, token fee 10) sent from two selections taken before either send, both transfers answering `Ok`. Payment count for claim 1: 2. | The comment at line 141 says the `Claiming` mark prevents re-entrancy, so a claim should be paid once: send only a claim still `Unclaimed`. | not executed; medium (depends on two batches overlapping) | Claims.StaleSelectionPaysTwice, Claims.ProcessClaimRepaysSettled (with Claims.SendClaim and Claims.ProcessClaim, which the batch runs) | Claims.SendClaimChecked, Claims.ProcessClaimChecked, Claims.CheckedSendsPayOnce |
| src/kong_svelte/src/lib/services/tokens/TokenService.ts:519-521 | When the token is side 0 of a pool against ckUSDT, the pool price is multiplied by `getUsdtPriceForToken("ckUSDT")`. That price is 1 only when an ICP/ckUSDT pool exists, and 0 otherwise. | A single pool TOK/ckUSDT, price 2, balances 100/200. `fetchPrice(TOK)` is 0. | As in the side-1 branch (line 525), a price against ckUSDT is already in USD: use `pool.price`, giving 2. | not executed; medium | PriceOracle.LoneCkusdtPoolPricedZero (with PriceOracle.FetchPriceAsWritten) | PriceOracle.FetchPrice, PriceOracle.CkusdtPoolSetsPrice |
