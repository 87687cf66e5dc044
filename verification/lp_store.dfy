/**
 * The record shape and the read/update/remove operations shared by the two
 * LP-token stores of the backend: the LP token ledger and the LP token map.
 * Both are `StableBTreeMap`s from a numeric id to a holding of one user in
 * one LP token; both `get_by_token_id_by_user_id`, `get_total_supply`,
 * `update` and `remove` have the same bodies in the two source files.
 */
module LpStore {
  import opened Wrappers
  import opened NatMaps

  /** One user's holding of one LP token (`StableLPTokenLedger` / `StableLPToken`). */
  datatype LpEntry = LpEntry(lp_token_id: nat, user_id: nat, token_id: nat, amount: nat, ts: nat)

  /** The stable map from `lp_token_id` to the holding stored under it. */
  type Store = map<nat, LpEntry>

  /** Every record sits under its own `lp_token_id` (what `insert` and `update` maintain). */
  predicate WellKeyed(m: Store) {
    forall k :: k in m ==> m[k].lp_token_id == k
  }

  /** The entry belongs to `user_id` and is a holding of LP token `token_id`. */
  predicate Holds(e: LpEntry, token_id: nat, user_id: nat) {
    e.user_id == user_id && e.token_id == token_id
  }

  /** `k` is the first key, in iteration order, whose entry matches. */
  predicate IsFirstMatch(m: Store, token_id: nat, user_id: nat, k: nat) {
    && k in m
    && Holds(m[k], token_id, user_id)
    && forall j :: j in m && j < k ==> !Holds(m[j], token_id, user_id)
  }

  /**
   * `get_by_token_id_by_user_id`: the first entry in key order that belongs
   * to `user_id` and holds `token_id`, or `None` when there is none.
   */
  function GetByTokenIdByUserId(m: Store, token_id: nat, user_id: nat): (r: Option<LpEntry>)
    ensures r.Some? ==> exists k :: IsFirstMatch(m, token_id, user_id, k) && m[k] == r.value
    ensures r.None? <==> forall k :: k in m ==> !Holds(m[k], token_id, user_id)
    decreases m.Keys
  {
    if m.Keys == {} then None
    else
      var k := MinKey(m.Keys);
      if Holds(m[k], token_id, user_id) then
        assert IsFirstMatch(m, token_id, user_id, k);
        Some(m[k])
      else
        SkipFirst(m, k, token_id, user_id);
        GetByTokenIdByUserId(m - {k}, token_id, user_id)
  }

  /** Skipping a non-matching least key keeps first matches and the absence of matches. */
  lemma SkipFirst(m: Store, k: nat, token_id: nat, user_id: nat)
    requires k in m && forall j :: j in m ==> k <= j
    requires !Holds(m[k], token_id, user_id)
    ensures (m - {k}).Keys == m.Keys - {k}
    ensures forall j: nat :: IsFirstMatch(m - {k}, token_id, user_id, j) ==> IsFirstMatch(m, token_id, user_id, j) && m[j] == (m - {k})[j]
    ensures (forall j :: j in m - {k} ==> !Holds((m - {k})[j], token_id, user_id)) ==> forall j :: j in m ==> !Holds(m[j], token_id, user_id)
  {
    var m0 := m - {k};
    assert m0.Keys == m.Keys - {k};
    forall j: nat | IsFirstMatch(m0, token_id, user_id, j)
      ensures IsFirstMatch(m, token_id, user_id, j)
    {
      forall i | i in m && i < j ensures !Holds(m[i], token_id, user_id) {
        if i != k { assert i in m0; }
      }
    }
    if forall j :: j in m0 ==> !Holds(m0[j], token_id, user_id) {
      forall j | j in m ensures !Holds(m[j], token_id, user_id) {
        if j != k { assert j in m0; }
      }
    }
  }

  /** At most one key is the first match. */
  lemma FirstMatchUnique(m: Store, token_id: nat, user_id: nat, k: nat, k': nat)
    requires IsFirstMatch(m, token_id, user_id, k)
    requires IsFirstMatch(m, token_id, user_id, k')
    ensures k == k'
  {
  }

  /** The first match is exactly what `GetByTokenIdByUserId` returns. */
  lemma GetByFirstMatch(m: Store, token_id: nat, user_id: nat, k: nat)
    requires IsFirstMatch(m, token_id, user_id, k)
    ensures GetByTokenIdByUserId(m, token_id, user_id) == Some(m[k])
  {
    var r := GetByTokenIdByUserId(m, token_id, user_id);
    assert r.Some?;
    var k' :| IsFirstMatch(m, token_id, user_id, k') && m[k'] == r.value;
    FirstMatchUnique(m, token_id, user_id, k, k');
  }

  /** The key under which a found holding is stored, in a well-keyed store. */
  lemma FoundIsStored(m: Store, token_id: nat, user_id: nat)
    requires WellKeyed(m)
    requires GetByTokenIdByUserId(m, token_id, user_id).Some?
    ensures var e := GetByTokenIdByUserId(m, token_id, user_id).value;
            IsFirstMatch(m, token_id, user_id, e.lp_token_id) && m[e.lp_token_id] == e
  {
    var e := GetByTokenIdByUserId(m, token_id, user_id).value;
    var k :| IsFirstMatch(m, token_id, user_id, k) && m[k] == e;
  }

  /** What one entry adds to the supply of `token_id`. */
  function Contribution(e: LpEntry, token_id: nat): nat {
    if e.token_id == token_id then e.amount else 0
  }

  /**
   * `get_total_supply`: the sum of `amount` over the entries holding
   * `token_id`, accumulated in key order.
   */
  function GetTotalSupply(m: Store, token_id: nat): (r: nat)
    ensures forall k :: k in m ==> Contribution(m[k], token_id) <= r
    ensures (forall k :: k in m ==> m[k].token_id != token_id) ==> r == 0
    decreases m.Keys
  {
    if m.Keys == {} then 0
    else
      var k := MinKey(m.Keys);
      assert (m - {k}).Keys == m.Keys - {k};
      var rest := GetTotalSupply(m - {k}, token_id);
      assert forall j :: j in m && j != k ==> j in m - {k};
      Contribution(m[k], token_id) + rest
  }

  /**
   * The supply counts every entry exactly once, whatever the iteration order:
   * taking any one entry out removes exactly its own contribution.
   */
  lemma {:induction false} SupplySplit(m: Store, k: nat, token_id: nat)
    requires k in m
    ensures GetTotalSupply(m, token_id) == Contribution(m[k], token_id) + GetTotalSupply(m - {k}, token_id)
    decreases m.Keys
  {
    var k0 := MinKey(m.Keys);
    if k0 != k {
      var m0 := m - {k0};
      assert m0.Keys == m.Keys - {k0};
      assert k in m0;
      SupplySplit(m0, k, token_id);
      var mk := m - {k};
      assert mk.Keys == m.Keys - {k};
      MinKeyIs(mk.Keys, k0);
      assert mk - {k0} == m0 - {k};
    }
  }

  /**
   * `update` (and the map write inside `insert`): the record is stored at its
   * own `lp_token_id`, replacing what was there and touching nothing else.
   */
  function Put(m: Store, e: LpEntry): (r: Store)
    ensures e.lp_token_id in r && r[e.lp_token_id] == e
    ensures r.Keys == m.Keys + {e.lp_token_id}
    ensures forall k :: k in m && k != e.lp_token_id ==> r[k] == m[k]
    ensures WellKeyed(m) ==> WellKeyed(r)
  {
    m[e.lp_token_id := e]
  }

  /** Writing an entry changes the supply by the new minus the replaced contribution. */
  lemma PutSupply(m: Store, e: LpEntry, token_id: nat)
    ensures GetTotalSupply(Put(m, e), token_id)
            + (if e.lp_token_id in m then Contribution(m[e.lp_token_id], token_id) else 0)
            == GetTotalSupply(m, token_id) + Contribution(e, token_id)
  {
    var id := e.lp_token_id;
    var r := Put(m, e);
    SupplySplit(r, id, token_id);
    if id in m {
      SupplySplit(m, id, token_id);
      assert r - {id} == m - {id};
    } else {
      assert r - {id} == m;
    }
  }

  /**
   * How a write changes what `get_by_token_id_by_user_id` finds. Overwriting
   * an entry without changing whom it matches only swaps in the new record
   * if that entry was the one found; appending past the largest key is found
   * only when nothing matched before.
   */
  lemma {:induction false} GetAfterPut(m: Store, e: LpEntry, token_id: nat, user_id: nat)
    requires WellKeyed(m)
    requires e.lp_token_id in m ==> Holds(m[e.lp_token_id], token_id, user_id) == Holds(e, token_id, user_id)
    requires e.lp_token_id !in m ==> forall j :: j in m ==> j < e.lp_token_id
    ensures var before := GetByTokenIdByUserId(m, token_id, user_id);
            var after := GetByTokenIdByUserId(Put(m, e), token_id, user_id);
            if e.lp_token_id in m then
              after == (if before.Some? && before.value.lp_token_id == e.lp_token_id then Some(e) else before)
            else
              after == (if before.None? && Holds(e, token_id, user_id) then Some(e) else before)
  {
    var k := e.lp_token_id;
    var r := Put(m, e);
    var before := GetByTokenIdByUserId(m, token_id, user_id);
    if before.Some? {
      var j :| IsFirstMatch(m, token_id, user_id, j) && m[j] == before.value;
      assert IsFirstMatch(r, token_id, user_id, j);
      GetByFirstMatch(r, token_id, user_id, j);
    } else if k !in m && Holds(e, token_id, user_id) {
      assert IsFirstMatch(r, token_id, user_id, k);
      GetByFirstMatch(r, token_id, user_id, k);
    } else {
      forall j | j in r ensures !Holds(r[j], token_id, user_id) {
        if j != k { assert j in m; }
      }
    }
  }

  /**
   * `remove(token_id)`: drops every entry holding `token_id` and keeps every
   * other entry as it was.
   */
  function Remove(m: Store, token_id: nat): (r: Store)
    ensures forall k :: k in r <==> (k in m && m[k].token_id != token_id)
    ensures forall k :: k in r ==> r[k] == m[k]
    ensures WellKeyed(m) ==> WellKeyed(r)
  {
    map k | k in m && m[k].token_id != token_id :: m[k]
  }

  /** After `remove(t)` the supply of `t` is zero and every other supply is unchanged. */
  lemma {:induction false} RemoveSupply(m: Store, token_id: nat, other: nat)
    ensures GetTotalSupply(Remove(m, token_id), token_id) == 0
    ensures other != token_id ==> GetTotalSupply(Remove(m, token_id), other) == GetTotalSupply(m, other)
    decreases m.Keys
  {
    if m.Keys != {} && other != token_id {
      var k0 := MinKey(m.Keys);
      var m0 := m - {k0};
      assert m0.Keys == m.Keys - {k0};
      RemoveSupply(m0, token_id, other);
      var r := Remove(m, token_id);
      SupplySplit(m, k0, other);
      if m[k0].token_id == token_id {
        assert r == Remove(m0, token_id);
      } else {
        SupplySplit(r, k0, other);
        assert r - {k0} == Remove(m0, token_id);
      }
    }
  }
}
