/**
 * The LP token map (`stable_lp_token::lp_token_map`): the same holdings as
 * the ledger, but `insert` takes its id from a settings counter
 * (`lp_token_map_idx`) instead of the largest key.
 */
module LpTokenMap {
  import opened Wrappers
  import opened LpStore

  /** The map together with the settings counter that numbers its entries. */
  datatype LpTokenMap = LpTokenMap(entries: Store, idx: nat)

  /** The counter is at or past every id in use, and every record sits under its own id. */
  predicate Valid(s: LpTokenMap) {
    WellKeyed(s.entries) && forall k :: k in s.entries ==> k <= s.idx
  }

  /**
   * `get_by_token_id`: the caller's holding of `token_id`; `None` when the
   * caller (`caller`, its user id) is not a registered user.
   */
  function GetByTokenId(s: LpTokenMap, caller: Option<nat>, token_id: nat): (r: Option<LpEntry>)
    ensures caller.None? ==> r.None?
    ensures r.Some? ==> r.value in s.entries.Values && Holds(r.value, token_id, caller.value)
    ensures caller.Some? && r.None? ==> forall k :: k in s.entries ==> !Holds(s.entries[k], token_id, caller.value)
  {
    match caller
    case None => None
    case Some(user_id) => GetByTokenIdByUserId(s.entries, token_id, user_id)
  }

  /**
   * `insert`: advances the counter, stores the record under the new counter
   * value with its `lp_token_id` set to it, and always succeeds with that id.
   */
  function Insert(s: LpTokenMap, e: LpEntry): (r: (Result<nat, string>, LpTokenMap))
    ensures r.0.Ok? && r.0.value == s.idx + 1 == r.1.idx
    ensures r.1.entries == s.entries[r.0.value := e.(lp_token_id := r.0.value)]
    ensures Valid(s) ==> r.0.value !in s.entries && Valid(r.1)
  {
    var id := s.idx + 1;
    (Ok(id), LpTokenMap(Put(s.entries, e.(lp_token_id := id)), id))
  }

  /** `update`: overwrites the entry at the record's own `lp_token_id`. */
  function Update(s: LpTokenMap, e: LpEntry): (r: LpTokenMap)
    ensures r.idx == s.idx
    ensures e.lp_token_id in r.entries && r.entries[e.lp_token_id] == e
    ensures forall k :: k != e.lp_token_id ==> (k in r.entries <==> k in s.entries)
    ensures forall k :: k in s.entries && k != e.lp_token_id ==> r.entries[k] == s.entries[k]
    ensures Valid(s) && e.lp_token_id <= s.idx ==> Valid(r)
  {
    s.(entries := Put(s.entries, e))
  }

  /** `remove(token_id)`: drops every holding of `token_id`, keeps the rest, and always succeeds. */
  function Remove(s: LpTokenMap, token_id: nat): (r: (Result<(), string>, LpTokenMap))
    ensures r.0.Ok? && r.1.idx == s.idx
    ensures forall k :: k in r.1.entries <==> k in s.entries && s.entries[k].token_id != token_id
    ensures forall k :: k in r.1.entries ==> r.1.entries[k] == s.entries[k]
    ensures Valid(s) ==> Valid(r.1)
  {
    (Ok(()), s.(entries := LpStore.Remove(s.entries, token_id)))
  }

  /** A fresh insert adds exactly the new holding's amount to its LP token's supply. */
  lemma InsertSupply(s: LpTokenMap, e: LpEntry, t: nat)
    requires Valid(s)
    ensures GetTotalSupply(Insert(s, e).1.entries, t) == GetTotalSupply(s.entries, t) + Contribution(e, t)
  {
    PutSupply(s.entries, e.(lp_token_id := s.idx + 1), t);
  }

  /**
   * Without the counter invariant `insert` is not fresh: a map whose counter
   * lags behind its keys has the new record overwrite an existing one.
   */
  lemma StaleCounterOverwrites()
    ensures var s := LpTokenMap(map[1 := LpEntry(1, 7, 3, 50, 0)], 0);
            var r := Insert(s, LpEntry(0, 8, 3, 20, 0)).1;
            |r.entries| == 1 && GetTotalSupply(r.entries, 3) == 20 < 50 + 20
  {
    var s := LpTokenMap(map[1 := LpEntry(1, 7, 3, 50, 0)], 0);
    var r := Insert(s, LpEntry(0, 8, 3, 20, 0)).1;
    assert r.entries == map[1 := LpEntry(1, 8, 3, 20, 0)];
    SupplySplit(r.entries, 1, 3);
    assert r.entries - {1} == map[];
  }
}
