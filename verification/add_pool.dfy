/**
 * `add_pool`: a user creates the pool of a token against ckUSDT with the
 * first deposit. Each leg is either pulled with ICRC-2 `transfer_from` or
 * proven by a block index the user already sent; then the LP token and the
 * pool are created, the balances written and the LP tokens credited in the
 * LP token ledger. Ledger, token-map and settings lookups are inputs.
 */
module AddPool {
  import opened Wrappers
  import opened NatHelpers
  import opened LpStore
  import opened Pools
  import LpTokenLedger
  import AddLiquidity

  /** The request as the caller sends it. */
  datatype AddPoolArgs = AddPoolArgs(
    token_0: string, amount_0: nat, tx_id_0: Option<TxId>,
    token_1: string, amount_1: nat, tx_id_1: Option<TxId>,
    lp_fee_bps: Option<nat>, kong_fee_bps: Option<nat>, on_kong: Option<bool>)

  /** The settings `add_pool` reads. */
  datatype Settings = Settings(
    default_lp_fee_bps: nat, default_kong_fee_bps: nat,
    ckusdt_symbol: string, ckusdt_symbol_with_chain: string,
    ckusdt_address: string, ckusdt_address_with_chain: string)

  /** The chain prefix of a token string. */
  datatype Chain = IC | LP | OtherChain(name: string)

  /** What the token map, the settings, the caller check and the user map answer while the arguments are checked. */
  datatype CheckEnv = CheckEnv(
    settings: Settings,
    is_controller: bool,
    ckusdt: Result<Token, string>,
    token_0_lookup: Result<Token, string>,
    chain_0: Option<Chain>,
    added_ic_token: Result<Token, string>,
    lp_token_exists: bool,
    pool_exists: bool,
    registration: Result<nat, string>)

  /** Why `add_pool` rejects a request, one constructor per error the source reports. */
  datatype AddPoolError =
    | InvalidZeroAmounts
    | KongFeeAboveLpFee
    | UnsupportedTxId0
    | UnsupportedTxId1
    | Token1MustBeCkusdt(ckusdt_symbol: string)
    | CkusdtLookupFailed(message: string)
    | AddIcTokenFailed(message: string)
    | Token0LpNotSupported
    | Token0ChainNotSupported
    | LpTokenExists
    | PoolExists
    | UserRegistrationFailed(message: string)

  /** The checked request: everything `process_add_pool` starts from. */
  datatype Checked = Checked(
    user_id: nat,
    token_0: Token, amount_0: nat, tx_id_0: Option<nat>,
    token_1: Token, amount_1: nat, tx_id_1: Option<nat>,
    lp_fee_bps: nat, kong_fee_bps: nat, add_lp_token_amount: nat, on_kong: bool)

  /** `token_1` names ckUSDT by one of its four spellings. */
  predicate NamesCkusdt(s: Settings, token: string) {
    token == s.ckusdt_symbol || token == s.ckusdt_symbol_with_chain
    || token == s.ckusdt_address || token == s.ckusdt_address_with_chain
  }

  /** A tx id must be a block index; `None` stays `None`. */
  function BlockOf(tx_id: Option<TxId>, unsupported: AddPoolError): (r: Result<Option<nat>, AddPoolError>)
    ensures r.Err? <==> tx_id.Some? && tx_id.value.TransactionId?
    ensures r.Err? ==> r.error == unsupported
    ensures r.Ok? ==> (r.value.Some? <==> tx_id.Some?) && (r.value.Some? ==> tx_id.value == BlockIndex(r.value.value))
  {
    match tx_id
    case None => Ok(None)
    case Some(BlockIndex(b)) => Ok(Some(b))
    case Some(TransactionId(_)) => Err(unsupported)
  }

  /** Resolve `token_0`: an existing token, or a new IC token; LP and other chains are refused. */
  function ResolveToken0(env: CheckEnv): (r: Result<Token, AddPoolError>)
    ensures env.token_0_lookup.Ok? ==> r == Ok(env.token_0_lookup.value)
    ensures r.Ok? && env.token_0_lookup.Err? ==> env.chain_0 == Some(IC) && env.added_ic_token == Ok(r.value)
  {
    match env.token_0_lookup
    case Ok(t) => Ok(t)
    case Err(_) =>
      match env.chain_0
      case Some(IC) =>
        (match env.added_ic_token
         case Ok(t) => Ok(t)
         case Err(e) => Err(AddIcTokenFailed(e)))
      case Some(LP) => Err(Token0LpNotSupported)
      case _ => Err(Token0ChainNotSupported)
  }

  /**
   * `calculate_amounts` of a new pool: both amounts are kept and the LP
   * tokens minted are the floor of the geometric mean of the amounts, each
   * re-expressed in the LP token's decimals.
   */
  function CalculateAmounts(token_0: Token, amount_0: nat, token_1: Token, amount_1: nat): (r: (nat, nat, nat))
    ensures r.0 == amount_0 && r.1 == amount_1
    ensures var x := ToDecimalPrecision(amount_0, token_0.decimals, LpTokenLedger.LP_DECIMALS);
            var y := ToDecimalPrecision(amount_1, token_1.decimals, LpTokenLedger.LP_DECIMALS);
            r.2 * r.2 <= x * y < (r.2 + 1) * (r.2 + 1)
  {
    var x := ToDecimalPrecision(amount_0, token_0.decimals, LpTokenLedger.LP_DECIMALS);
    var y := ToDecimalPrecision(amount_1, token_1.decimals, LpTokenLedger.LP_DECIMALS);
    (amount_0, amount_1, NatSqrt(x * y))
  }

  /**
   * Creating a pool mints what adding liquidity to an empty pool with LP
   * decimals `LP_DECIMALS` would: the two first-deposit rules agree.
   */
  lemma FirstDepositRulesAgree(pool: Pool, lp: Store, amount_0: nat, amount_1: nat)
    requires AddLiquidity.IsEmpty(pool) && pool.lp_decimals == LpTokenLedger.LP_DECIMALS
    ensures var a := AddLiquidity.CalculateAmounts(Ok(pool), lp, amount_0, amount_1);
            var c := CalculateAmounts(pool.token_0, amount_0, pool.token_1, amount_1);
            a.Ok? && a.value.1 == AddLiquidity.Amounts(c.0, c.1, c.2)
  {
    var a := AddLiquidity.CalculateAmounts(Ok(pool), lp, amount_0, amount_1).value.1;
    var c := CalculateAmounts(pool.token_0, amount_0, pool.token_1, amount_1);
    var x := ToDecimalPrecision(amount_0, pool.token_0.decimals, LpTokenLedger.LP_DECIMALS);
    var y := ToDecimalPrecision(amount_1, pool.token_1.decimals, LpTokenLedger.LP_DECIMALS);
    SqrtUnique(x * y, a.add_lp_token_amount);
    SqrtUnique(x * y, c.2);
  }

  /**
   * `check_arguments`, in the source's order: nonzero amounts, fees (only a
   * controller may choose the Kong fee, and it may not exceed the LP fee),
   * block-index tx ids, ckUSDT as `token_1`, `token_0` resolved, no existing
   * LP token or pool, amounts, and finally the caller's registration.
   */
  function CheckArguments(args: AddPoolArgs, env: CheckEnv): (r: Result<Checked, AddPoolError>)
    ensures (args.amount_0 == 0 || args.amount_1 == 0) ==> r == Err(InvalidZeroAmounts)
    ensures r.Ok? ==>
      var c := r.value;
      && 0 < args.amount_0 && 0 < args.amount_1
      && c.lp_fee_bps == args.lp_fee_bps.GetOr(env.settings.default_lp_fee_bps)
      && c.kong_fee_bps == (if env.is_controller then args.kong_fee_bps.GetOr(env.settings.default_kong_fee_bps)
                            else env.settings.default_kong_fee_bps)
      && c.kong_fee_bps <= c.lp_fee_bps
      && (c.on_kong <==> env.is_controller && args.on_kong == Some(true))
      && (c.tx_id_0.Some? <==> args.tx_id_0.Some?) && (c.tx_id_0.Some? ==> args.tx_id_0 == Some(BlockIndex(c.tx_id_0.value)))
      && (c.tx_id_1.Some? <==> args.tx_id_1.Some?) && (c.tx_id_1.Some? ==> args.tx_id_1 == Some(BlockIndex(c.tx_id_1.value)))
      && NamesCkusdt(env.settings, args.token_1) && env.ckusdt == Ok(c.token_1)
      && !env.lp_token_exists && !env.pool_exists
      && env.registration == Ok(c.user_id)
      && (c.amount_0, c.amount_1, c.add_lp_token_amount) == CalculateAmounts(c.token_0, args.amount_0, c.token_1, args.amount_1)
    ensures r == Err(KongFeeAboveLpFee) <==>
      0 < args.amount_0 && 0 < args.amount_1
      && (if env.is_controller then args.kong_fee_bps.GetOr(env.settings.default_kong_fee_bps)
          else env.settings.default_kong_fee_bps) > args.lp_fee_bps.GetOr(env.settings.default_lp_fee_bps)
    ensures r.Err? && r.error.Token1MustBeCkusdt? ==> !NamesCkusdt(env.settings, args.token_1)
  {
    if args.amount_0 == 0 || args.amount_1 == 0 then Err(InvalidZeroAmounts)
    else
      var lp_fee_bps := args.lp_fee_bps.GetOr(env.settings.default_lp_fee_bps);
      var kong_fee_bps := if env.is_controller then args.kong_fee_bps.GetOr(env.settings.default_kong_fee_bps)
                          else env.settings.default_kong_fee_bps;
      if kong_fee_bps > lp_fee_bps then Err(KongFeeAboveLpFee)
      else
        var on_kong := env.is_controller && args.on_kong.GetOr(false);
        match BlockOf(args.tx_id_0, UnsupportedTxId0)
        case Err(e) => Err(e)
        case Ok(tx_id_0) =>
          match BlockOf(args.tx_id_1, UnsupportedTxId1)
          case Err(e) => Err(e)
          case Ok(tx_id_1) =>
            if !NamesCkusdt(env.settings, args.token_1) then Err(Token1MustBeCkusdt(env.settings.ckusdt_symbol))
            else
              match env.ckusdt
              case Err(e) => Err(CkusdtLookupFailed(e))
              case Ok(token_1) =>
                match ResolveToken0(env)
                case Err(e) => Err(e)
                case Ok(token_0) =>
                  if env.lp_token_exists then Err(LpTokenExists)
                  else if env.pool_exists then Err(PoolExists)
                  else
                    var (a0, a1, lp) := CalculateAmounts(token_0, args.amount_0, token_1, args.amount_1);
                    match env.registration
                    case Err(e) => Err(UserRegistrationFailed(e))
                    case Ok(user_id) =>
                      Ok(Checked(user_id, token_0, a0, tx_id_0, token_1, a1, tx_id_1, lp_fee_bps, kong_fee_bps, lp, on_kong))
  }

  /** Why one leg of the deposit is not (or no longer) counted as received. */
  datatype LegError =
    | LedgerRefused(message: string)
    | DuplicateBlock(block: nat)
    | Token0TransferFailed
    | Token0VerifiedToken1Failed
    | Token0FailedToken1Verified

  /** The transfers already recorded, as (token id, block index) pairs. */
  type Recorded = set<(nat, nat)>

  /**
   * `verify_transfer_token`: the ledger's verdict on the block (`verified`),
   * then a block already recorded for this token is refused as a duplicate;
   * an accepted block is recorded.
   */
  function VerifyTransferToken(token_id: nat, block: nat, verified: Result<(), string>, recorded: Recorded)
    : (r: (Result<(), LegError>, Recorded))
    ensures r.0.Ok? <==> verified.Ok? && (token_id, block) !in recorded
    ensures r.0.Ok? ==> r.1 == recorded + {(token_id, block)}
    ensures r.0.Err? ==> r.1 == recorded
    ensures verified.Ok? && (token_id, block) in recorded ==> r.0 == Err(DuplicateBlock(block))
  {
    match verified
    case Err(e) => (Err(LedgerRefused(e)), recorded)
    case Ok(_) =>
      if (token_id, block) in recorded then (Err(DuplicateBlock(block)), recorded)
      else (Ok(()), recorded + {(token_id, block)})
  }

  /** A block can back a deposit only once: a second verification of it is always refused. */
  lemma VerifyOnce(token_id: nat, block: nat, first: Result<(), string>, second: Result<(), string>, recorded: Recorded)
    requires VerifyTransferToken(token_id, block, first, recorded).0.Ok?
    ensures var after := VerifyTransferToken(token_id, block, first, recorded).1;
            VerifyTransferToken(token_id, block, second, after).0.Err?
  {
  }

  /** `transfer_from_token`: the ledger's answer to `transfer_from`; a new block is recorded. */
  function TransferFromToken(token_id: nat, pulled: Result<nat, string>, recorded: Recorded)
    : (r: (Result<(), LegError>, Recorded))
    ensures r.0.Ok? <==> pulled.Ok?
    ensures r.1 == if pulled.Ok? then recorded + {(token_id, pulled.value)} else recorded
  {
    match pulled
    case Err(e) => (Err(LedgerRefused(e)), recorded)
    case Ok(block) => (Ok(()), recorded + {(token_id, block)})
  }

  /** What the ledgers and the stores answered while processing. */
  datatype ProcessReplies = ProcessReplies(
    verified_0: Result<(), string>, pulled_0: Result<nat, string>,
    verified_1: Result<(), string>, pulled_1: Result<nat, string>,
    lp_token_insert: Result<nat, string>,
    pool_insert: Result<nat, string>,
    pool_by_id: Option<Pool>,
    refund_0_ok: bool, refund_1_ok: bool)

  /**
   * The pool read back by id is the one just built and inserted: it carries
   * the LP token inserted before it and the id the insert answered. Nothing
   * awaits between the insert and the read, so this is what the store gives.
   */
  predicate ReadsBackNewPool(replies: ProcessReplies) {
    replies.pool_by_id.Some? && replies.lp_token_insert.Ok? && replies.pool_insert.Ok? ==>
      replies.pool_by_id.value.lp_token_id == replies.lp_token_insert.value
      && replies.pool_by_id.value.pool_id == replies.pool_insert.value
  }

  /** The reply of `add_pool`: success with what was deposited and minted, or failed. */
  datatype AddPoolStatus = Success(pool_id: nat, amount_0: nat, amount_1: nat, add_lp_token_amount: nat) | Failed

  /** Everything processing leaves behind. */
  datatype AddPoolOutcome = AddPoolOutcome(
    status: AddPoolStatus,
    leg_0: Result<(), LegError>,
    leg_1: Result<(), LegError>,
    returned: ReturnReport,
    recorded: Recorded,
    lp_token_added: Option<nat>,
    pool_added: Option<nat>,
    pool_written: Option<Pool>,
    ledger: Store)

  /** Receive one leg: verify the given block, or pull with `transfer_from`. */
  function ReceiveLeg(token_id: nat, tx_id: Option<nat>, verified: Result<(), string>, pulled: Result<nat, string>,
                      recorded: Recorded): (Result<(), LegError>, Recorded)
  {
    match tx_id
    case Some(block) => VerifyTransferToken(token_id, block, verified, recorded)
    case None => TransferFromToken(token_id, pulled, recorded)
  }

  /**
   * Receive token 1; when it would be pulled and token 0 already failed,
   * the ledger is not asked and the leg fails.
   */
  function ReceiveLeg1(c: Checked, leg_0: Result<(), LegError>, replies: ProcessReplies, recorded: Recorded)
    : (r: (Result<(), LegError>, Recorded))
    ensures c.tx_id_1.None? && leg_0.Err? ==> r == (Err(Token0TransferFailed), recorded)
  {
    if c.tx_id_1.None? && leg_0.Err? then (Err(Token0TransferFailed), recorded)
    else ReceiveLeg(c.token_1.token_id, c.tx_id_1, replies.verified_1, replies.pulled_1, recorded)
  }

  /**
   * `update_liquidity_pool` of the new pool: the pool as found by id gets the
   * deposited balances and the user is credited the minted LP tokens.
   */
  function UpdateLiquidityPool(found: Option<Pool>, user_id: nat, amount_0: nat, amount_1: nat, add_lp_token_amount: nat,
                               ledger: Store, ts: nat): (r: Option<(Pool, Store)>)
    ensures r.Some? <==> found.Some?
    ensures r.Some? ==>
      r.value.0 == found.value.(balance_0 := found.value.balance_0 + amount_0, balance_1 := found.value.balance_1 + amount_1)
      && r.value.1 == LpTokenLedger.Credit(ledger, found.value.lp_token_id, user_id, add_lp_token_amount, ts)
  {
    match found
    case None => None
    case Some(p) =>
      Some((p.(balance_0 := p.balance_0 + amount_0, balance_1 := p.balance_1 + amount_1),
            LpTokenLedger.Credit(ledger, p.lp_token_id, user_id, add_lp_token_amount, ts)))
  }

  /**
   * A leg verified by block index is not returned when the other leg failed
   * (only a pulled leg is known for certain to have arrived).
   */
  function MarkUnreturnable(c: Checked, leg_0: Result<(), LegError>, leg_1: Result<(), LegError>)
    : (r: (Result<(), LegError>, Result<(), LegError>))
    ensures r.0.Ok? <==> leg_0.Ok? && !(c.tx_id_0.Some? && leg_1.Err?)
    ensures r.1.Ok? <==> leg_1.Ok? && !(c.tx_id_1.Some? && r.0.Err?)
  {
    var m0 := if c.tx_id_0.Some? && leg_0.Ok? && leg_1.Err? then Err(Token0VerifiedToken1Failed) else leg_0;
    var m1 := if c.tx_id_1.Some? && leg_1.Ok? && m0.Err? then Err(Token0FailedToken1Verified) else leg_1;
    (m0, m1)
  }

  /**
   * `process_add_pool`: receive both legs; if both arrived create the LP
   * token, then the pool, then write balances and credit LP tokens. Any
   * failure hands back the legs that may be returned (the full deposited
   * amounts, less the ledger fee), and the reply is then `Failed`.
   */
  function ProcessAddPool(c: Checked, replies: ProcessReplies, recorded: Recorded, ledger: Store, ts: nat)
    : (r: AddPoolOutcome)
    ensures recorded <= r.recorded
    ensures r.status.Success? ==>
      r.leg_0.Ok? && r.leg_1.Ok? && r.returned == ReturnReport(NotReturned, NotReturned)
      && replies.lp_token_insert.Ok? && r.lp_token_added == Some(replies.lp_token_insert.value)
      && replies.pool_insert == Ok(r.status.pool_id) && r.pool_added == Some(r.status.pool_id)
      && replies.pool_by_id.Some? && r.pool_written.Some?
      && r.status.amount_0 == c.amount_0 && r.status.amount_1 == c.amount_1
      && r.status.add_lp_token_amount == c.add_lp_token_amount
      && r.pool_written.value.balance_0 == replies.pool_by_id.value.balance_0 + c.amount_0
      && r.pool_written.value.balance_1 == replies.pool_by_id.value.balance_1 + c.amount_1
      && r.ledger == LpTokenLedger.Credit(ledger, replies.pool_by_id.value.lp_token_id, c.user_id, c.add_lp_token_amount, ts)
    // with the new pool read back, the pool written and the LP token credited are the ones just created
    ensures r.status.Success? && ReadsBackNewPool(replies) ==>
      r.pool_written.value.pool_id == r.status.pool_id
      && r.pool_written.value.lp_token_id == r.lp_token_added.value
      && r.ledger == LpTokenLedger.Credit(ledger, r.lp_token_added.value, c.user_id, c.add_lp_token_amount, ts)
    ensures r.status.Failed? ==> r.ledger == ledger && r.pool_written.None?
    ensures r.status.Failed? ==>
      var m := MarkUnreturnable(c, r.leg_0, r.leg_1);
      r.returned == ReturnReport(
        ReturnLeg(if m.0.Ok? then Some(c.amount_0) else None, c.token_0.fee, ReturnReplies(replies.refund_0_ok, true)),
        ReturnLeg(if m.1.Ok? then Some(c.amount_1) else None, c.token_1.fee, ReturnReplies(replies.refund_1_ok, true)))
    ensures c.tx_id_1.None? && r.leg_0.Err? ==> r.leg_1 == Err(Token0TransferFailed)
  {
    var (leg_0, rec_0) := ReceiveLeg(c.token_0.token_id, c.tx_id_0, replies.verified_0, replies.pulled_0, recorded);
    var (leg_1, rec_1) := ReceiveLeg1(c, leg_0, replies, rec_0);
    var stage: (Option<nat>, Option<nat>, Option<(Pool, Store)>) :=
      if leg_0.Ok? && leg_1.Ok? then
        match replies.lp_token_insert
        case Err(_) => (None, None, None)
        case Ok(lp_token_id) =>
          match replies.pool_insert
          case Err(_) => (Some(lp_token_id), None, None)
          case Ok(pool_id) =>
            (Some(lp_token_id), Some(pool_id),
             UpdateLiquidityPool(replies.pool_by_id, c.user_id, c.amount_0, c.amount_1, c.add_lp_token_amount, ledger, ts))
      else (None, None, None);
    var (lp_token_added, pool_added, written) := stage;
    if written.Some? then
      AddPoolOutcome(Success(pool_added.value, c.amount_0, c.amount_1, c.add_lp_token_amount), leg_0, leg_1,
                     ReturnReport(NotReturned, NotReturned), rec_1, lp_token_added, pool_added,
                     Some(written.value.0), written.value.1)
    else
      var m := MarkUnreturnable(c, leg_0, leg_1);
      var returned := ReturnReport(
        ReturnLeg(if m.0.Ok? then Some(c.amount_0) else None, c.token_0.fee, ReturnReplies(replies.refund_0_ok, true)),
        ReturnLeg(if m.1.Ok? then Some(c.amount_1) else None, c.token_1.fee, ReturnReplies(replies.refund_1_ok, true)));
      AddPoolOutcome(Failed, leg_0, leg_1, returned, rec_1, lp_token_added, pool_added, None, ledger)
  }

  /**
   * On failure, every leg pulled with `transfer_from` that arrived is handed
   * back, and no leg that did not arrive is; a verified leg is handed back
   * only when the other leg arrived too.
   */
  lemma FailedReturnsWhatArrived(c: Checked, replies: ProcessReplies, recorded: Recorded, ledger: Store, ts: nat)
    ensures var r := ProcessAddPool(c, replies, recorded, ledger, ts);
            r.status.Failed? ==>
              (r.returned.leg_0 != NotReturned <==> r.leg_0.Ok? && (c.tx_id_0.None? || r.leg_1.Ok?))
              && (r.returned.leg_1 != NotReturned <==> r.leg_1.Ok? && (c.tx_id_1.None? || r.leg_0.Ok?))
  {
  }

  /** A successful pool creation raises the new LP token's supply in the ledger by exactly the minted amount. */
  lemma SuccessMintsSupply(c: Checked, replies: ProcessReplies, recorded: Recorded, ledger: Store, ts: nat, t: nat)
    requires WellKeyed(ledger)
    requires ProcessAddPool(c, replies, recorded, ledger, ts).status.Success?
    ensures var r := ProcessAddPool(c, replies, recorded, ledger, ts);
            WellKeyed(r.ledger)
            && GetTotalSupply(r.ledger, t) == GetTotalSupply(ledger, t)
               + (if t == replies.pool_by_id.value.lp_token_id then c.add_lp_token_amount else 0)
    ensures var r := ProcessAddPool(c, replies, recorded, ledger, ts);
            ReadsBackNewPool(replies) ==>
              GetTotalSupply(r.ledger, t) == GetTotalSupply(ledger, t)
              + (if t == r.lp_token_added.value then c.add_lp_token_amount else 0)
  {
    LpTokenLedger.CreditSupply(ledger, replies.pool_by_id.value.lp_token_id, c.user_id, c.add_lp_token_amount, ts, t);
  }

  /** `add_pool` end to end: a rejected request touches nothing; an accepted one is processed. */
  function AddPool(args: AddPoolArgs, env: CheckEnv, replies: ProcessReplies, recorded: Recorded, ledger: Store, ts: nat)
    : (r: Result<AddPoolOutcome, AddPoolError>)
    ensures r.Err? <==> CheckArguments(args, env).Err?
    ensures r.Ok? && r.value.status.Success? ==>
      r.value.status.amount_0 == args.amount_0 && r.value.status.amount_1 == args.amount_1
  {
    match CheckArguments(args, env)
    case Err(e) => Err(e)
    case Ok(c) => Ok(ProcessAddPool(c, replies, recorded, ledger, ts))
  }
}
