/**
 * The LP token ledger (`stable_lp_token_ledger::lp_token_ledger`): holdings
 * keyed by a ledger id that `insert` allocates as one past the largest id in
 * use, plus the caller-to-user `transfer` of LP tokens.
 */
module LpTokenLedger {
  import opened Wrappers
  import opened NatMaps
  import opened LpStore
  import opened NatHelpers

  /** Decimal places of every LP token (`LP_DECIMALS`). */
  const LP_DECIMALS: nat := 8

  /** Why a ledger transfer is refused. */
  datatype LedgerError = NotEnoughLpToken | BalanceUnderflow {
    function Message(): string {
      match this
      case NotEnoughLpToken => "Not enough LP token"
      case BalanceUnderflow => "Error calculating new user balance"
    }
  }

  /**
   * `get_by_token_id`: the caller's holding of `token_id`. `caller` is the
   * caller's user id, `None` when the caller is not a registered user.
   */
  function GetByTokenId(m: Store, caller: Option<nat>, token_id: nat): (r: Option<LpEntry>)
    ensures caller.None? ==> r.None?
    ensures r.Some? ==> r.value in m.Values && Holds(r.value, token_id, caller.value)
    ensures caller.Some? && r.None? ==> forall k :: k in m ==> !Holds(m[k], token_id, caller.value)
  {
    match caller
    case None => None
    case Some(user_id) => GetByTokenIdByUserId(m, token_id, user_id)
  }

  /** The id `insert` allocates: the largest key plus one, or 1 for an empty ledger. */
  function NextId(m: Store): (id: nat)
    ensures id >= 1 && id !in m
    ensures forall k :: k in m ==> k < id
    ensures m.Keys == {} ==> id == 1
    ensures m.Keys != {} ==> id - 1 in m
  {
    if m.Keys == {} then 1 else MaxKey(m.Keys) + 1
  }

  /**
   * `insert`: stores the record under a new id (one past the largest key)
   * with its `lp_token_id` set to that id, and returns the id.
   */
  function Insert(m: Store, e: LpEntry): (r: (nat, Store))
    ensures r.0 !in m && forall k :: k in m ==> k < r.0
    ensures r.1.Keys == m.Keys + {r.0}
    ensures r.1[r.0] == e.(lp_token_id := r.0)
    ensures forall k :: k in m ==> r.1[k] == m[k]
    ensures WellKeyed(m) ==> WellKeyed(r.1)
  {
    var id := NextId(m);
    (id, Put(m, e.(lp_token_id := id)))
  }

  /**
   * `transfer`: moves `amount` of LP token `token_id` from the caller's
   * holding to `to_user_id`'s, creating the receiver's holding when it has
   * none. On success returns the caller's updated holding and the new ledger.
   */
  function Transfer(m: Store, caller: Option<nat>, token_id: nat, to_user_id: nat, amount: nat, ts: nat)
    : (r: Result<(LpEntry, Store), LedgerError>)
    ensures r.Err? <==> GetByTokenId(m, caller, token_id).None? || GetByTokenId(m, caller, token_id).value.amount < amount
    ensures r.Err? ==> r.error == NotEnoughLpToken
    ensures r.Ok? ==> var from := GetByTokenId(m, caller, token_id).value;
                      r.value.0 == from.(amount := from.amount - amount, ts := ts)
  {
    match GetByTokenId(m, caller, token_id)
    case None => Err(NotEnoughLpToken)
    case Some(from) =>
      if from.amount < amount then Err(NotEnoughLpToken)
      else
        match NatSubtract(from.amount, amount)
        case None => Err(BalanceUnderflow)
        case Some(left) =>
          var debited := from.(amount := left, ts := ts);
          Ok((debited, Credit(Put(m, debited), token_id, to_user_id, amount, ts)))
  }

  /** Unfolds a successful `Transfer`: the receiver is credited in the ledger that already holds the debit. */
  lemma TransferCredits(m: Store, caller: Option<nat>, token_id: nat, to_user_id: nat, amount: nat, ts: nat)
    requires Transfer(m, caller, token_id, to_user_id, amount, ts).Ok?
    ensures var r := Transfer(m, caller, token_id, to_user_id, amount, ts).value;
            r.1 == Credit(Put(m, r.0), token_id, to_user_id, amount, ts)
  {
  }

  /**
   * The receiving half of `transfer`: adds `amount` to the receiver's first
   * holding of `token_id`, or inserts a new holding when there is none.
   */
  function Credit(m: Store, token_id: nat, to_user_id: nat, amount: nat, ts: nat): (r: Store)
    ensures WellKeyed(m) ==> WellKeyed(r)
  {
    match GetByTokenIdByUserId(m, token_id, to_user_id)
    case Some(to) => Put(m, to.(amount := to.amount + amount, ts := ts))
    case None => Insert(m, LpEntry(0, to_user_id, token_id, amount, ts)).1
  }

  /** Crediting raises the supply of `token_id` by exactly `amount` and no other supply. */
  lemma CreditSupply(m: Store, token_id: nat, to_user_id: nat, amount: nat, ts: nat, t: nat)
    requires WellKeyed(m)
    ensures GetTotalSupply(Credit(m, token_id, to_user_id, amount, ts), t)
            == GetTotalSupply(m, t) + (if t == token_id then amount else 0)
  {
    var had := GetByTokenIdByUserId(m, token_id, to_user_id);
    var e := CreditedEntry(m, token_id, to_user_id, amount, ts);
    CreditIsPut(m, token_id, to_user_id, amount, ts);
    PutSupply(m, e, t);
    if had.Some? {
      FoundIsStored(m, token_id, to_user_id);
      assert m[e.lp_token_id] == had.value;
    } else {
      assert e.lp_token_id !in m;
    }
  }

  /** The record `Credit` writes: the receiver's holding topped up, or a new one at the next id. */
  function CreditedEntry(m: Store, token_id: nat, to_user_id: nat, amount: nat, ts: nat): LpEntry {
    match GetByTokenIdByUserId(m, token_id, to_user_id)
    case Some(to) => to.(amount := to.amount + amount, ts := ts)
    case None => LpEntry(NextId(m), to_user_id, token_id, amount, ts)
  }

  lemma CreditIsPut(m: Store, token_id: nat, to_user_id: nat, amount: nat, ts: nat)
    requires WellKeyed(m)
    ensures var e := CreditedEntry(m, token_id, to_user_id, amount, ts);
            var had := GetByTokenIdByUserId(m, token_id, to_user_id);
            && Credit(m, token_id, to_user_id, amount, ts) == Put(m, e)
            && Holds(e, token_id, to_user_id)
            && (had.Some? ==> e.lp_token_id == had.value.lp_token_id && e.lp_token_id in m
                              && m[e.lp_token_id] == had.value)
            && (had.None? ==> e.lp_token_id !in m && forall k :: k in m ==> k < e.lp_token_id)
  {
    if GetByTokenIdByUserId(m, token_id, to_user_id).Some? {
      FoundIsStored(m, token_id, to_user_id);
    }
  }

  /**
   * A successful transfer conserves the total supply of every LP token
   * (the transferred one included) and keeps the ledger well keyed.
   */
  lemma TransferConserves(m: Store, caller: Option<nat>, token_id: nat, to_user_id: nat, amount: nat, ts: nat, t: nat)
    requires WellKeyed(m)
    requires Transfer(m, caller, token_id, to_user_id, amount, ts).Ok?
    ensures var m2 := Transfer(m, caller, token_id, to_user_id, amount, ts).value.1;
            WellKeyed(m2) && GetTotalSupply(m2, t) == GetTotalSupply(m, t)
  {
    var r := Transfer(m, caller, token_id, to_user_id, amount, ts).value;
    var debited := r.0;
    TransferCredits(m, caller, token_id, to_user_id, amount, ts);
    FoundIsStored(m, token_id, caller.value);
    PutSupply(m, debited, t);
    CreditSupply(Put(m, debited), token_id, to_user_id, amount, ts, t);
  }

  /**
   * Crediting leaves the receiver's first holding at its old amount (zero
   * when it had none) plus `amount`, and any other user's first holding as it was.
   */
  lemma CreditFinds(m: Store, token_id: nat, to_user_id: nat, amount: nat, ts: nat, u: nat)
    requires WellKeyed(m)
    ensures var had := GetByTokenIdByUserId(m, token_id, to_user_id);
            var got := GetByTokenIdByUserId(Credit(m, token_id, to_user_id, amount, ts), token_id, to_user_id);
            got.Some? && got.value.amount == (if had.Some? then had.value.amount else 0) + amount
    ensures u != to_user_id ==>
            GetByTokenIdByUserId(Credit(m, token_id, to_user_id, amount, ts), token_id, u)
            == GetByTokenIdByUserId(m, token_id, u)
  {
    CreditFindsReceiver(m, token_id, to_user_id, amount, ts);
    if u != to_user_id {
      CreditKeepsOther(m, token_id, to_user_id, amount, ts, u);
    }
  }

  lemma CreditFindsReceiver(m: Store, token_id: nat, to_user_id: nat, amount: nat, ts: nat)
    requires WellKeyed(m)
    ensures var had := GetByTokenIdByUserId(m, token_id, to_user_id);
            var got := GetByTokenIdByUserId(Credit(m, token_id, to_user_id, amount, ts), token_id, to_user_id);
            got.Some? && got.value.amount == (if had.Some? then had.value.amount else 0) + amount
  {
    CreditIsPut(m, token_id, to_user_id, amount, ts);
    GetAfterPut(m, CreditedEntry(m, token_id, to_user_id, amount, ts), token_id, to_user_id);
  }

  lemma CreditKeepsOther(m: Store, token_id: nat, to_user_id: nat, amount: nat, ts: nat, u: nat)
    requires WellKeyed(m) && u != to_user_id
    ensures GetByTokenIdByUserId(Credit(m, token_id, to_user_id, amount, ts), token_id, u)
            == GetByTokenIdByUserId(m, token_id, u)
  {
    CreditIsPut(m, token_id, to_user_id, amount, ts);
    var e := CreditedEntry(m, token_id, to_user_id, amount, ts);
    if e.lp_token_id in m {
      DebitKeepsOthers(m, e, token_id, to_user_id, u);
    } else {
      GetAfterPut(m, e, token_id, u);
    }
  }

  /**
   * Between two different users, a successful transfer leaves the sender's
   * holding debited by `amount` and the receiver's holding (zero when it had
   * none) credited by `amount`.
   */
  lemma TransferMovesBalance(m: Store, caller: Option<nat>, token_id: nat, to_user_id: nat, amount: nat, ts: nat)
    requires WellKeyed(m)
    requires caller.Some? && caller.value != to_user_id
    requires Transfer(m, caller, token_id, to_user_id, amount, ts).Ok?
    ensures var from := GetByTokenId(m, caller, token_id).value;
            var m2 := Transfer(m, caller, token_id, to_user_id, amount, ts).value.1;
            var sent := GetByTokenIdByUserId(m2, token_id, caller.value);
            var got := GetByTokenIdByUserId(m2, token_id, to_user_id);
            var had := GetByTokenIdByUserId(m, token_id, to_user_id);
            && sent.Some? && sent.value.amount + amount == from.amount
            && got.Some? && got.value.amount == (if had.Some? then had.value.amount else 0) + amount
  {
    var u := caller.value;
    var debited := Transfer(m, caller, token_id, to_user_id, amount, ts).value.0;
    TransferCredits(m, caller, token_id, to_user_id, amount, ts);
    FoundIsStored(m, token_id, u);
    var m1 := Put(m, debited);
    SenderDebited(m, debited, token_id, u);
    DebitKeepsOthers(m, debited, token_id, u, to_user_id);
    CreditKeepsOther(m1, token_id, to_user_id, amount, ts, u);
    CreditFindsReceiver(m1, token_id, to_user_id, amount, ts);
  }

  /** After the debit the sender finds the debited record. */
  lemma SenderDebited(m: Store, debited: LpEntry, token_id: nat, u: nat)
    requires WellKeyed(m)
    requires GetByTokenIdByUserId(m, token_id, u).Some?
    requires debited.lp_token_id == GetByTokenIdByUserId(m, token_id, u).value.lp_token_id
    requires Holds(debited, token_id, u)
    ensures GetByTokenIdByUserId(Put(m, debited), token_id, u) == Some(debited)
  {
    FoundIsStored(m, token_id, u);
    GetAfterPut(m, debited, token_id, u);
  }

  /** Rewriting the sender's found holding does not change what another user finds. */
  lemma DebitKeepsOthers(m: Store, debited: LpEntry, token_id: nat, u: nat, v: nat)
    requires WellKeyed(m) && u != v
    requires debited.lp_token_id in m && Holds(m[debited.lp_token_id], token_id, u) && Holds(debited, token_id, u)
    ensures GetByTokenIdByUserId(Put(m, debited), token_id, v) == GetByTokenIdByUserId(m, token_id, v)
  {
    GetAfterPut(m, debited, token_id, v);
    var before := GetByTokenIdByUserId(m, token_id, v);
    if before.Some? && before.value.lp_token_id == debited.lp_token_id {
      FoundIsStored(m, token_id, v);
      assert false;
    }
  }
}
