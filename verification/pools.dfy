// Shared vocabulary of the backend's liquidity operations: tokens, pools,
// transaction ids and the way a deposit that cannot be kept is handed back.

module Pools {
  import opened Wrappers
  import opened NatHelpers

  /** The parts of a stored token the liquidity operations read. */
  datatype Token = Token(token_id: nat, symbol: string, decimals: nat, fee: nat)

  /** A stored pool: the two tokens, their balances, the accrued LP fees and the pool's LP token. */
  datatype Pool = Pool(
    pool_id: nat,
    token_0: Token,
    token_1: Token,
    balance_0: nat,
    balance_1: nat,
    lp_fee_0: nat,
    lp_fee_1: nat,
    lp_token_id: nat,
    lp_decimals: nat)

  /** Total amount of token 0 the pool holds: its balance plus the accrued LP fee. */
  function Reserve0(p: Pool): nat { p.balance_0 + p.lp_fee_0 }

  /** Total amount of token 1 the pool holds: its balance plus the accrued LP fee. */
  function Reserve1(p: Pool): nat { p.balance_1 + p.lp_fee_1 }

  /** A transaction reference a caller may attach to a deposit. */
  datatype TxId = BlockIndex(block: nat) | TransactionId(hash: string)

  /** What became of one deposited leg when the operation had to give it back. */
  datatype LegReturn =
    | NotReturned
      /** sent back by a ledger transfer of this amount */
    | Refunded(sent: nat)
      /** the transfer failed; a claim for this amount was stored */
    | SavedAsClaim(amount: nat)
      /** the transfer failed and the claim could not be stored either */
    | ClaimNotSaved(amount: nat)

  /** Which legs a failed operation returned and how. */
  datatype ReturnReport = ReturnReport(leg_0: LegReturn, leg_1: LegReturn)

  /** The outcome of the ledger calls that return one leg. */
  datatype ReturnReplies = ReturnReplies(refund_ok: bool, claim_saved: bool)

  /**
   * Hand back one deposited leg: a refund sends the amount less the ledger fee,
   * never below zero; if the refund fails the user is owed the full amount as a claim.
   */
  function ReturnLeg(amount: Option<nat>, fee: nat, replies: ReturnReplies): (r: LegReturn)
    ensures amount.None? <==> r.NotReturned?
    ensures amount.Some? && replies.refund_ok ==>
      r.Refunded? && r.sent <= amount.value && (fee <= amount.value ==> r.sent + fee == amount.value)
      && (amount.value < fee ==> r.sent == 0)
    ensures amount.Some? && !replies.refund_ok ==>
      (if replies.claim_saved then r == SavedAsClaim(amount.value) else r == ClaimNotSaved(amount.value))
  {
    match amount
    case None => NotReturned
    case Some(a) =>
      if replies.refund_ok then Refunded(SaturatingSub(a, fee))
      else if replies.claim_saved then SavedAsClaim(a)
      else ClaimNotSaved(a)
  }
}
