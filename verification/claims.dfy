/**
 * Claims (`claims::process_claims`): amounts the backend owes users, kept
 * when a refund transfer failed, and the timer-driven loop that pays them.
 * The guard, the token map and the ledgers are inputs.
 */
module Claims {
  import opened Wrappers
  import opened NatHelpers
  import opened NatMaps
  import opened Pools

  /** Where a claim stands: owed, being paid, or paid. */
  datatype ClaimStatus = Unclaimed | Claiming | Claimed

  /** Where a claim is paid to: an ICP account id or a principal (ICRC-1). */
  datatype Address = AccountId(account: string) | PrincipalId(principal: string)

  /**
   * A stored claim. `attempt_request_ids` lists the requests that tried and
   * failed to pay it; `claimed_by` is the request and transfer that paid it.
   */
  datatype Claim = Claim(
    claim_id: nat,
    user_id: nat,
    status: ClaimStatus,
    token_id: nat,
    amount: nat,
    to_address: Option<Address>,
    attempt_request_ids: seq<nat>,
    claimed_by: Option<(nat, nat)>,
    ts: nat)

  /** The claim map, keyed by claim id. */
  type ClaimMap = map<nat, Claim>

  /** Every claim is stored under its own id. */
  predicate WellKeyed(m: ClaimMap) {
    forall k :: k in m ==> m[k].claim_id == k
  }

  // ---------------------------------------------------------------------
  // Selection: the unclaimed claims, in key order, then stably by `ts`
  // ---------------------------------------------------------------------

  /** Claim ids strictly ascending. */
  predicate IdsAscending(s: seq<Claim>) {
    forall i, j :: 0 <= i < j < |s| ==> s[i].claim_id < s[j].claim_id
  }

  /** The claims stored under `ks` whose status is `Unclaimed`, in the order of `ks`. */
  function UnclaimedIn(m: ClaimMap, ks: seq<nat>): (r: seq<Claim>)
    ensures |r| <= |ks|
  {
    if ks == [] then []
    else
      var rest := UnclaimedIn(m, ks[1..]);
      if ks[0] in m && m[ks[0]].status == Unclaimed then [m[ks[0]]] + rest else rest
  }

  /** Every claim the walk keeps is stored and `Unclaimed`. */
  lemma {:induction false} UnclaimedInKeepsUnclaimed(m: ClaimMap, ks: seq<nat>)
    ensures forall i :: 0 <= i < |UnclaimedIn(m, ks)| ==>
              UnclaimedIn(m, ks)[i] in m.Values && UnclaimedIn(m, ks)[i].status == Unclaimed
  {
    if ks != [] {
      var tail := ks[1..];
      UnclaimedInKeepsUnclaimed(m, tail);
      var rest := UnclaimedIn(m, tail);
      var r := UnclaimedIn(m, ks);
      if ks[0] in m && m[ks[0]].status == Unclaimed {
        assert r == [m[ks[0]]] + rest;
        forall i | 0 <= i < |r| ensures r[i] in m.Values && r[i].status == Unclaimed {
          if i == 0 {
            assert r[0] == m[ks[0]];
          } else {
            assert r[i] == rest[i - 1];
          }
        }
      } else {
        assert r == rest;
        forall i | 0 <= i < |r| ensures r[i] in m.Values && r[i].status == Unclaimed {
          assert r[i] == rest[i];
        }
      }
    }
  }

  /** Every stored `Unclaimed` claim under a key of `ks` is kept. */
  lemma {:induction false} UnclaimedInCovers(m: ClaimMap, ks: seq<nat>)
    ensures forall k :: k in ks && k in m && m[k].status == Unclaimed ==> m[k] in UnclaimedIn(m, ks)
  {
    if ks != [] {
      var tail := ks[1..];
      UnclaimedInCovers(m, tail);
      var rest := UnclaimedIn(m, tail);
      var r := UnclaimedIn(m, ks);
      assert ks == [ks[0]] + tail;
      assert forall c :: c in rest ==> c in r;
      forall k | k in ks && k in m && m[k].status == Unclaimed ensures m[k] in r {
        if k != ks[0] {
          assert k in tail;
        }
      }
    }
  }

  /** In a well-keyed map the ids kept come from `ks`. */
  lemma {:induction false} UnclaimedInIds(m: ClaimMap, ks: seq<nat>)
    requires WellKeyed(m)
    ensures forall i :: 0 <= i < |UnclaimedIn(m, ks)| ==> UnclaimedIn(m, ks)[i].claim_id in ks
  {
    if ks != [] {
      var tail := ks[1..];
      UnclaimedInIds(m, tail);
      var rest := UnclaimedIn(m, tail);
      var r := UnclaimedIn(m, ks);
      assert ks == [ks[0]] + tail;
      if ks[0] in m && m[ks[0]].status == Unclaimed {
        assert r == [m[ks[0]]] + rest;
        forall i | 0 <= i < |r| ensures r[i].claim_id in ks {
          if i > 0 {
            assert r[i] == rest[i - 1];
            assert rest[i - 1].claim_id in tail;
          }
        }
      } else {
        assert r == rest;
        forall i | 0 <= i < |r| ensures r[i].claim_id in ks {
          assert rest[i].claim_id in tail;
        }
      }
    }
  }

  /** In a well-keyed map, walking ascending keys keeps the claims in ascending id order. */
  lemma {:induction false} UnclaimedInAscending(m: ClaimMap, ks: seq<nat>)
    requires WellKeyed(m) && Ascending(ks)
    ensures IdsAscending(UnclaimedIn(m, ks))
  {
    if ks != [] {
      var tail := ks[1..];
      assert Ascending(tail);
      UnclaimedInAscending(m, tail);
      UnclaimedInIds(m, tail);
      var rest := UnclaimedIn(m, tail);
      var r := UnclaimedIn(m, ks);
      if ks[0] in m && m[ks[0]].status == Unclaimed {
        assert r == [m[ks[0]]] + rest;
        forall j | 0 <= j < |rest| ensures ks[0] < rest[j].claim_id {
          var p :| 0 <= p < |tail| && tail[p] == rest[j].claim_id;
          assert ks[p + 1] == rest[j].claim_id;
        }
        forall i, j | 0 <= i < j < |r| ensures r[i].claim_id < r[j].claim_id {
          assert r[j] == rest[j - 1];
          if i > 0 { assert r[i] == rest[i - 1]; }
        }
      } else {
        assert r == rest;
      }
    }
  }

  /** `a` comes before `b`: earlier `ts`, ties broken by the smaller claim id. */
  predicate LexBefore(a: Claim, b: Claim) {
    a.ts < b.ts || (a.ts == b.ts && a.claim_id < b.claim_id)
  }

  /** Strictly ordered by (`ts`, claim id). */
  predicate LexSorted(s: seq<Claim>) {
    forall i, j :: 0 <= i < j < |s| ==> LexBefore(s[i], s[j])
  }

  /** Insert `x` after every element whose `ts` is at most `x.ts`. */
  function InsertByTs(x: Claim, s: seq<Claim>): (r: seq<Claim>)
    ensures multiset(r) == multiset(s) + multiset{x}
  {
    if s == [] then [x]
    else if x.ts < s[0].ts then [x] + s
    else
      assert s == [s[0]] + s[1..];
      [s[0]] + InsertByTs(x, s[1..])
  }

  /** Inserting a claim whose id exceeds every id present keeps the (ts, id) order. */
  lemma {:induction false} InsertKeepsLex(x: Claim, s: seq<Claim>)
    requires LexSorted(s)
    requires forall i :: 0 <= i < |s| ==> s[i].claim_id < x.claim_id
    ensures LexSorted(InsertByTs(x, s))
  {
    if s != [] && x.ts >= s[0].ts {
      var tail := s[1..];
      assert LexSorted(tail) by {
        forall i, j | 0 <= i < j < |tail| ensures LexBefore(tail[i], tail[j]) {
          assert tail[i] == s[i + 1] && tail[j] == s[j + 1];
        }
      }
      InsertKeepsLex(x, tail);
      forall i | 0 <= i < |tail| ensures LexBefore(s[0], tail[i]) {
        assert tail[i] == s[i + 1];
      }
      InsertAbove(s[0], x, tail);
      var rest := InsertByTs(x, tail);
      var r := InsertByTs(x, s);
      assert r == [s[0]] + rest;
      forall i, j | 0 <= i < j < |r| ensures LexBefore(r[i], r[j]) {
        assert r[j] == rest[j - 1];
        if i > 0 {
          assert r[i] == rest[i - 1];
        }
      }
    }
  }

  /** A claim ordered before `x` and before every claim of `s` is ordered before every claim of the insertion. */
  lemma {:induction false} InsertAbove(a: Claim, x: Claim, s: seq<Claim>)
    requires LexBefore(a, x)
    requires forall i :: 0 <= i < |s| ==> LexBefore(a, s[i])
    ensures forall i :: 0 <= i < |InsertByTs(x, s)| ==> LexBefore(a, InsertByTs(x, s)[i])
  {
    if s != [] && x.ts >= s[0].ts {
      var tail := s[1..];
      forall i | 0 <= i < |tail| ensures LexBefore(a, tail[i]) {
        assert tail[i] == s[i + 1];
      }
      InsertAbove(a, x, tail);
      var r := InsertByTs(x, s);
      assert r == [s[0]] + InsertByTs(x, tail);
      forall i | 0 <= i < |r| ensures LexBefore(a, r[i]) {
        if i > 0 {
          assert r[i] == InsertByTs(x, tail)[i - 1];
        }
      }
    }
  }

  /** `sort_by_key(|claim| claim.ts)`: a stable insertion sort by `ts`. */
  function SortByTs(s: seq<Claim>): (r: seq<Claim>)
    ensures multiset(r) == multiset(s)
  {
    if s == [] then []
    else
      var p := s[..|s| - 1];
      assert s == p + [s[|s| - 1]];
      InsertByTs(s[|s| - 1], SortByTs(p))
  }

  /** Sorting a list in claim-id order by `ts` alone leaves it ordered by (`ts`, claim id): the sort is stable. */
  lemma {:induction false} SortByTsIsLex(s: seq<Claim>)
    requires IdsAscending(s)
    ensures LexSorted(SortByTs(s))
  {
    if s != [] {
      var p := s[..|s| - 1];
      var x := s[|s| - 1];
      SortByTsIsLex(p);
      var sp := SortByTs(p);
      forall i | 0 <= i < |sp| ensures sp[i].claim_id < x.claim_id {
        assert sp[i] in multiset(p);
        var k :| 0 <= k < |p| && p[k] == sp[i];
        assert s[k] == sp[i];
      }
      InsertKeepsLex(x, sp);
    }
  }

  /** The claims `process_claims` walks through, in the order it walks them. */
  function SelectClaims(m: ClaimMap): seq<Claim> {
    SortByTs(UnclaimedIn(m, SortedKeys(m.Keys)))
  }

  /** The selection is ordered by ascending `ts` and, among equal `ts`, by ascending claim id. */
  lemma SelectionOrdered(m: ClaimMap)
    requires WellKeyed(m)
    ensures LexSorted(SelectClaims(m))
  {
    UnclaimedInAscending(m, SortedKeys(m.Keys));
    SortByTsIsLex(UnclaimedIn(m, SortedKeys(m.Keys)));
  }

  /** The selection holds exactly the unclaimed claims. */
  lemma SelectionIsUnclaimed(m: ClaimMap)
    ensures forall c :: c in SelectClaims(m) <==> c in m.Values && c.status == Unclaimed
  {
    forall c ensures c in SelectClaims(m) <==> c in m.Values && c.status == Unclaimed {
      if c in SelectClaims(m) {
        SelectedIsUnclaimed(m, c);
      }
      if c in m.Values && c.status == Unclaimed {
        UnclaimedIsSelected(m, c);
      }
    }
  }

  lemma SelectedIsUnclaimed(m: ClaimMap, c: Claim)
    requires c in SelectClaims(m)
    ensures c in m.Values && c.status == Unclaimed
  {
    var keys := SortedKeys(m.Keys);
    var u := UnclaimedIn(m, keys);
    var s := SortByTs(u);
    assert SelectClaims(m) == s;
    assert multiset(s) == multiset(u);
    assert c in multiset(s);
    assert c in u;
    var i :| 0 <= i < |u| && u[i] == c;
    UnclaimedInKeepsUnclaimed(m, keys);
  }

  lemma UnclaimedIsSelected(m: ClaimMap, c: Claim)
    requires c in m.Values && c.status == Unclaimed
    ensures c in SelectClaims(m)
  {
    var keys := SortedKeys(m.Keys);
    var u := UnclaimedIn(m, keys);
    UnclaimedInCovers(m, keys);
    var s := SortByTs(u);
    assert SelectClaims(m) == s;
    var k :| k in m && m[k] == c;
    assert k in keys;
    assert c in u;
    assert multiset(s) == multiset(u);
    assert c in multiset(s);
  }

  /** Every selected claim is the one stored under its id, so no claim is selected twice. */
  lemma SelectionStored(m: ClaimMap)
    requires WellKeyed(m)
    ensures var s := SelectClaims(m);
            && (forall i :: 0 <= i < |s| ==> s[i].claim_id in m && m[s[i].claim_id] == s[i])
            && (forall i, j :: 0 <= i < j < |s| ==> s[i].claim_id != s[j].claim_id)
  {
    var s := SelectClaims(m);
    SelectionIsUnclaimed(m);
    SelectionOrdered(m);
    forall i | 0 <= i < |s| ensures s[i].claim_id in m && m[s[i].claim_id] == s[i] {
      assert s[i] in s;
    }
    forall i, j | 0 <= i < j < |s| ensures s[i].claim_id != s[j].claim_id {
      assert LexBefore(s[i], s[j]);
    }
  }

  /** The selection is pending, and its ids are exactly the unclaimed claims' ids. */
  lemma SelectionCovers(m: ClaimMap)
    requires WellKeyed(m)
    ensures Pending(m, SelectClaims(m))
    ensures forall k :: k in m ==> (k in Ids(SelectClaims(m)) <==> m[k].status == Unclaimed)
  {
    var s := SelectClaims(m);
    SelectionIsUnclaimed(m);
    SelectionStored(m);
    forall k | k in m ensures k in Ids(s) <==> m[k].status == Unclaimed {
      if m[k].status == Unclaimed {
        assert m[k] in s;
        var j :| 0 <= j < |s| && s[j] == m[k];
      }
      if k in Ids(s) {
        var j :| 0 <= j < |s| && s[j].claim_id == k;
        assert s[j] in s;
      }
    }
  }

  // ---------------------------------------------------------------------
  // Paying one claim
  // ---------------------------------------------------------------------

  /** One transfer the backend made to pay a claim. */
  datatype Payment = Payment(claim_id: nat, token_id: nat, amount: nat, to: Address)

  /** The state the claims code reads and writes: claims, id counters and the payments made. */
  datatype World = World(claims: ClaimMap, next_request: nat, next_transfer: nat, payments: seq<Payment>)

  /** `update_claiming_status`: the claim is marked as being paid while the transfer is in flight. */
  function InFlight(w: World, claim_id: nat): (r: World)
    ensures r.claims.Keys == w.claims.Keys
    ensures claim_id in w.claims ==> r.claims[claim_id] == w.claims[claim_id].(status := Claiming)
    ensures forall k :: k in w.claims && k != claim_id ==> r.claims[k] == w.claims[k]
  {
    if claim_id in w.claims then w.(claims := w.claims[claim_id := w.claims[claim_id].(status := Claiming)]) else w
  }

  /** A claim in flight is not picked up by a selection made meanwhile. */
  lemma InFlightNotSelected(w: World, claim_id: nat)
    requires WellKeyed(w.claims)
    ensures forall c :: c in SelectClaims(InFlight(w, claim_id).claims) ==> c.claim_id != claim_id
  {
    var f := InFlight(w, claim_id).claims;
    SelectionIsUnclaimed(f);
  }

  /**
   * `send_claim` as written: mark the claim in flight, send `amount - fee`
   * (saturating) to the claim's address, then on success record the
   * transfer and mark it paid, on failure record the attempt and mark it
   * owed again. `answer` is the ledger's reply; the claim is the caller's
   * copy and its current status is not consulted.
   */
  function SendClaim(w: World, claim: Claim, token: Token, to: Address, request_id: nat, answer: Result<nat, string>)
    : (r: (Result<(), string>, World))
    ensures r.0.Ok? <==> answer.Ok?
    ensures r.1.claims.Keys == w.claims.Keys
    ensures forall k :: k in w.claims && k != claim.claim_id ==> r.1.claims[k] == w.claims[k]
    ensures answer.Ok? ==>
      r.1.payments == w.payments + [Payment(claim.claim_id, token.token_id, SaturatingSub(claim.amount, token.fee), to)]
      && r.1.next_transfer == w.next_transfer + 1
      && (claim.claim_id in w.claims ==>
          r.1.claims[claim.claim_id] == w.claims[claim.claim_id].(status := Claimed, claimed_by := Some((request_id, w.next_transfer))))
    ensures answer.Err? ==>
      r.1.payments == w.payments && r.1.next_transfer == w.next_transfer
      && (claim.claim_id in w.claims ==>
          r.1.claims[claim.claim_id] == w.claims[claim.claim_id].(
            status := Unclaimed,
            attempt_request_ids := w.claims[claim.claim_id].attempt_request_ids + [request_id]))
    ensures r.1.next_request == w.next_request
  {
    var id := claim.claim_id;
    var f := InFlight(w, id);
    var sent := SaturatingSub(claim.amount, token.fee);
    match answer
    case Ok(_) =>
      var transfer_id := w.next_transfer;
      var m := if id in f.claims then f.claims[id := f.claims[id].(status := Claimed, claimed_by := Some((request_id, transfer_id)))]
               else f.claims;
      (Ok(()), World(m, w.next_request, transfer_id + 1, w.payments + [Payment(id, token.token_id, sent, to)]))
    case Err(e) =>
      var m := if id in f.claims
               then f.claims[id := f.claims[id].(status := Unclaimed, attempt_request_ids := f.claims[id].attempt_request_ids + [request_id])]
               else f.claims;
      (Err(e), f.(claims := m))
  }

  /** `send_claim` with the claim's current status re-read: a claim no longer `Unclaimed` is not sent. */
  function SendClaimChecked(w: World, claim: Claim, token: Token, to: Address, request_id: nat, answer: Result<nat, string>)
    : (r: (Result<(), string>, World))
    ensures !(claim.claim_id in w.claims && w.claims[claim.claim_id].status == Unclaimed) ==> r == (Err("Claim is not unclaimed"), w)
    ensures claim.claim_id in w.claims && w.claims[claim.claim_id].status == Unclaimed ==>
      r == SendClaim(w, claim, token, to, request_id, answer)
  {
    if claim.claim_id in w.claims && w.claims[claim.claim_id].status == Unclaimed then SendClaim(w, claim, token, to, request_id, answer)
    else (Err("Claim is not unclaimed"), w)
  }

  /** How many payments were made for `claim_id`. */
  function CountPaid(ps: seq<Payment>, claim_id: nat): nat {
    if ps == [] then 0
    else CountPaid(ps[..|ps| - 1], claim_id) + (if ps[|ps| - 1].claim_id == claim_id then 1 else 0)
  }

  /** How many payments a claim may have had: one once it is marked paid, none before. */
  function Allowance(w: World, id: nat): nat {
    if id in w.claims && w.claims[id].status == Claimed then 1 else 0
  }

  /** Each claim was paid at most once, and only a claim marked paid was paid at all. */
  ghost predicate PaidAtMostOnce(w: World) {
    forall id :: CountPaid(w.payments, id) <= Allowance(w, id)
  }

  /** Appending a payment counts once for its own claim and for no other. */
  lemma CountPaidAppend(ps: seq<Payment>, p: Payment, id: nat)
    ensures CountPaid(ps + [p], id) == CountPaid(ps, id) + (if p.claim_id == id then 1 else 0)
  {
    assert (ps + [p])[..|ps|] == ps;
  }

  /** The checked send keeps every claim paid at most once. */
  lemma CheckedSendPaysOnce(w: World, claim: Claim, token: Token, to: Address, request_id: nat, answer: Result<nat, string>)
    requires PaidAtMostOnce(w)
    ensures PaidAtMostOnce(SendClaimChecked(w, claim, token, to, request_id, answer).1)
  {
    var id := claim.claim_id;
    if id in w.claims && w.claims[id].status == Unclaimed {
      var r := SendClaim(w, claim, token, to, request_id, answer).1;
      assert SendClaimChecked(w, claim, token, to, request_id, answer).1 == r;
      forall j ensures CountPaid(r.payments, j) <= Allowance(r, j) {
        SendKeepsAllowance(w, claim, token, to, request_id, answer, j);
      }
    }
  }

  /** One send of an `Unclaimed` claim keeps one claim's payments within its allowance. */
  lemma SendKeepsAllowance(w: World, claim: Claim, token: Token, to: Address, request_id: nat, answer: Result<nat, string>, j: nat)
    requires PaidAtMostOnce(w)
    requires claim.claim_id in w.claims && w.claims[claim.claim_id].status == Unclaimed
    ensures var r := SendClaim(w, claim, token, to, request_id, answer).1;
            CountPaid(r.payments, j) <= Allowance(r, j)
  {
    var id := claim.claim_id;
    var r := SendClaim(w, claim, token, to, request_id, answer).1;
    assert CountPaid(w.payments, j) <= Allowance(w, j);
    if j != id {
      assert j in r.claims <==> j in w.claims;
      if j in w.claims {
        assert r.claims[j] == w.claims[j];
      }
      assert Allowance(r, j) == Allowance(w, j);
    } else {
      assert Allowance(w, j) == 0;
    }
    if answer.Ok? {
      var p := Payment(id, token.token_id, SaturatingSub(claim.amount, token.fee), to);
      assert r.payments == w.payments + [p];
      CountPaidAppend(w.payments, p, j);
      if j == id {
        assert r.claims[id].status == Claimed;
      }
    } else {
      assert r.payments == w.payments;
    }
  }

  /** One call of `send_claim`, as any run of the timer might issue it. */
  datatype SendCall = SendCall(claim: Claim, token: Token, to: Address, request_id: nat, answer: Result<nat, string>)

  /** Apply sends in order, written (`checked` false) or with the status re-read (`checked` true). */
  function RunSends(w: World, calls: seq<SendCall>, checked: bool): World
    decreases |calls|
  {
    if calls == [] then w
    else
      var c := calls[0];
      var w' := if checked then SendClaimChecked(w, c.claim, c.token, c.to, c.request_id, c.answer).1
                else SendClaim(w, c.claim, c.token, c.to, c.request_id, c.answer).1;
      RunSends(w', calls[1..], checked)
  }

  /**
   * However the sends of overlapping runs interleave, with the status
   * re-read no claim is ever paid twice.
   */
  lemma {:induction false} CheckedSendsPayOnce(w: World, calls: seq<SendCall>)
    requires PaidAtMostOnce(w)
    ensures PaidAtMostOnce(RunSends(w, calls, true))
    decreases |calls|
  {
    if calls != [] {
      var c := calls[0];
      CheckedSendPaysOnce(w, c.claim, c.token, c.to, c.request_id, c.answer);
      CheckedSendsPayOnce(SendClaimChecked(w, c.claim, c.token, c.to, c.request_id, c.answer).1, calls[1..]);
    }
  }

  /**
   * As written, a run working from a stale selection pays a claim again:
   * run A selected claim 1, run B paid it meanwhile, then A sends it too.
   */
  lemma StaleSelectionPaysTwice()
    ensures var c := Claim(1, 0, Unclaimed, 5, 100, Some(PrincipalId("u")), [], None, 0);
            var token := Token(5, "T", 8, 10);
            var w := World(map[1 := c], 0, 0, []);
            var calls := [SendCall(c, token, PrincipalId("u"), 0, Ok(7)), SendCall(c, token, PrincipalId("u"), 1, Ok(8))];
            var written := RunSends(w, calls, false);
            var checked := RunSends(w, calls, true);
            PaidAtMostOnce(w) && CountPaid(written.payments, 1) == 2 && CountPaid(checked.payments, 1) == 1
  {
    var c := Claim(1, 0, Unclaimed, 5, 100, Some(PrincipalId("u")), [], None, 0);
    var token := Token(5, "T", 8, 10);
    var w := World(map[1 := c], 0, 0, []);
    var calls := [SendCall(c, token, PrincipalId("u"), 0, Ok(7)), SendCall(c, token, PrincipalId("u"), 1, Ok(8))];
    var p := Payment(1, 5, 90, PrincipalId("u"));
    var w1 := SendClaim(w, c, token, PrincipalId("u"), 0, Ok(7)).1;
    assert w1.payments == [p];
    assert w1.claims[1].status == Claimed;
    var w2 := SendClaim(w1, c, token, PrincipalId("u"), 1, Ok(8)).1;
    assert w2.payments == [p, p];
    assert calls[1..][1..] == [];
    assert RunSends(w1, calls[1..], false) == RunSends(w2, [], false);
    var written := RunSends(w, calls, false);
    assert written == w2;
    CountPaidAppend([p], p, 1);
    CountPaidAppend([], p, 1);
    assert [] + [p] == [p];
    assert [p] + [p] == [p, p];
    var checked := RunSends(w, calls, true);
    assert RunSends(w1, calls[1..], true) == RunSends(w1, [], true);
    assert checked == w1;
  }

  /** The reply of `process_claim`, whose status is "Success" or "Failed". */
  datatype ClaimReply = ClaimReply(claim_id: nat, status: string, amount: nat, fee: nat, to_address: Address)

  /**
   * `process_claim`: sends the claim with `send_claim` as written and always
   * answers `Ok`, with status "Success" when the transfer succeeded and
   * "Failed" otherwise. The claim's stored status is not consulted.
   */
  function ProcessClaim(w: World, claim: Claim, token: Token, to: Address, request_id: nat, answer: Result<nat, string>)
    : (r: (Result<ClaimReply, string>, World))
    ensures r.0.Ok?
    ensures r.0.value.status == (if answer.Ok? then "Success" else "Failed")
    ensures r.0.value.claim_id == claim.claim_id && r.0.value.amount == claim.amount && r.0.value.fee == token.fee
    ensures r.0.value.to_address == to
    ensures r.1 == SendClaim(w, claim, token, to, request_id, answer).1
  {
    var (sent, w') := SendClaim(w, claim, token, to, request_id, answer);
    var status := if sent.Ok? then "Success" else "Failed";
    (Ok(ClaimReply(claim.claim_id, status, claim.amount, token.fee, to)), w')
  }

  /**
   * As written, `process_claim` pays a claim that is already paid or in
   * flight once more and reports "Success"; the checked send refuses it.
   */
  lemma ProcessClaimRepaysSettled(w: World, claim: Claim, token: Token, to: Address, request_id: nat, tx: nat)
    requires claim.claim_id in w.claims && w.claims[claim.claim_id].status != Unclaimed
    ensures var (reply, w') := ProcessClaim(w, claim, token, to, request_id, Ok(tx));
            && reply.value.status == "Success"
            && w'.payments == w.payments + [Payment(claim.claim_id, token.token_id, SaturatingSub(claim.amount, token.fee), to)]
            && CountPaid(w'.payments, claim.claim_id) == CountPaid(w.payments, claim.claim_id) + 1
    ensures SendClaimChecked(w, claim, token, to, request_id, Ok(tx)).1 == w
  {
  }

  /**
   * `process_claim` over the checked send: a claim no longer `Unclaimed` is
   * reported "Failed" and nothing changes; on a claim still `Unclaimed` it
   * does exactly what the as-written `process_claim` does.
   */
  function ProcessClaimChecked(w: World, claim: Claim, token: Token, to: Address, request_id: nat, answer: Result<nat, string>)
    : (r: (Result<ClaimReply, string>, World))
    ensures r.0.Ok?
    ensures !(claim.claim_id in w.claims && w.claims[claim.claim_id].status == Unclaimed) ==>
      r.0.value.status == "Failed" && r.1 == w
    ensures claim.claim_id in w.claims && w.claims[claim.claim_id].status == Unclaimed ==>
      r == ProcessClaim(w, claim, token, to, request_id, answer)
  {
    var (sent, w') := SendClaimChecked(w, claim, token, to, request_id, answer);
    var status := if sent.Ok? then "Success" else "Failed";
    (Ok(ClaimReply(claim.claim_id, status, claim.amount, token.fee, to)), w')
  }

  // ---------------------------------------------------------------------
  // The batch
  // ---------------------------------------------------------------------

  /** A selected claim is sent only when it has an address and its token is known. */
  predicate Eligible(c: Claim, tokens: map<nat, Token>) {
    c.to_address.Some? && c.token_id in tokens
  }

  /** The payment the batch makes for `c`, if any. */
  function PaymentFor(c: Claim, tokens: map<nat, Token>, answer: Result<nat, string>): seq<Payment> {
    if Eligible(c, tokens) && answer.Ok?
    then [Payment(c.claim_id, tokens[c.token_id].token_id, SaturatingSub(c.amount, tokens[c.token_id].fee), c.to_address.value)]
    else []
  }

  /** The payments the batch makes, claim by claim in selection order: the reference for `ProcessClaims`. */
  function ExpectedPayments(cs: seq<Claim>, tokens: map<nat, Token>, answers: nat -> Result<nat, string>): seq<Payment> {
    if cs == [] then []
    else
      var last := cs[|cs| - 1];
      ExpectedPayments(cs[..|cs| - 1], tokens, answers) + PaymentFor(last, tokens, answers(last.claim_id))
  }

  /** The status a selected claim ends the batch with. */
  function StatusAfter(c: Claim, tokens: map<nat, Token>, answer: Result<nat, string>): ClaimStatus {
    if Eligible(c, tokens) && answer.Ok? then Claimed else Unclaimed
  }

  /**
   * One turn of the loop: skip an ineligible claim, otherwise take a new
   * request id and process the claim.
   */
  function VisitClaim(w: World, c: Claim, tokens: map<nat, Token>, answer: Result<nat, string>)
    : (r: (World, Option<Result<ClaimReply, string>>))
    ensures !Eligible(c, tokens) ==> r == (w, None)
    ensures Eligible(c, tokens) ==> r.1.Some? && r.1.value.Ok? && r.0.next_request == w.next_request + 1
    ensures r.1.Some? ==> r.1.value.Ok? && r.1.value.value.status == (if answer.Ok? then "Success" else "Failed")
    ensures r.0.claims.Keys == w.claims.Keys
    ensures forall k :: k in w.claims && k != c.claim_id ==> r.0.claims[k] == w.claims[k]
    ensures WellKeyed(w.claims) ==> WellKeyed(r.0.claims)
    // the copy in the selection is sent whatever the stored status now is
    ensures r.0.payments == w.payments + PaymentFor(c, tokens, answer)
    ensures Eligible(c, tokens) && c.claim_id in w.claims ==> r.0.claims[c.claim_id].status == StatusAfter(c, tokens, answer)
  {
    if !Eligible(c, tokens) then (w, None)
    else
      var request_id := w.next_request;
      var (reply, w') := ProcessClaim(w.(next_request := request_id + 1), c, tokens[c.token_id], c.to_address.value, request_id, answer);
      (w', Some(reply))
  }

  /** The counter `process_claims` keeps: reset on success, and the loop stops after more than three errors in a row. */
  function NextErrors(consecutive_errors: nat, ok: bool): (r: (nat, bool))
    ensures ok ==> r == (0, false)
    ensures !ok ==> r.0 == consecutive_errors + 1 && (r.1 <==> consecutive_errors >= 3)
  {
    if ok then (0, false) else (consecutive_errors + 1, consecutive_errors + 1 > 3)
  }

  /** The selected claims are stored under their ids, unclaimed, and pairwise distinct. */
  ghost predicate Pending(m: ClaimMap, claims: seq<Claim>) {
    && (forall i :: 0 <= i < |claims| ==> claims[i].claim_id in m && m[claims[i].claim_id] == claims[i] && claims[i].status == Unclaimed)
    && (forall i, j :: 0 <= i < j < |claims| ==> claims[i].claim_id != claims[j].claim_id)
  }

  /** The ids of a list of claims. */
  function Ids(cs: seq<Claim>): set<nat> {
    set j | 0 <= j < |cs| :: cs[j].claim_id
  }

  /** Visiting `cs` in order, starting from `w`: the world afterwards and the replies collected. */
  function Visits(w: World, cs: seq<Claim>, tokens: map<nat, Token>, answers: nat -> Result<nat, string>)
    : (World, seq<ClaimReply>)
  {
    if cs == [] then (w, [])
    else
      var (w1, rs) := Visits(w, cs[..|cs| - 1], tokens, answers);
      var last := cs[|cs| - 1];
      var (w2, reply) := VisitClaim(w1, last, tokens, answers(last.claim_id));
      (w2, rs + (if reply.Some? && reply.value.Ok? then [reply.value.value] else []))
  }

  /** The prefix of a pending list is pending, and its ids exclude the last claim's. */
  lemma PendingPrefix(m: ClaimMap, cs: seq<Claim>)
    requires Pending(m, cs) && cs != []
    ensures Pending(m, cs[..|cs| - 1])
    ensures cs[|cs| - 1].claim_id !in Ids(cs[..|cs| - 1])
    ensures Ids(cs) == Ids(cs[..|cs| - 1]) + {cs[|cs| - 1].claim_id}
  {
    var n := |cs| - 1;
    var p := cs[..n];
    forall i | 0 <= i < |p| ensures p[i] == cs[i] { }
    forall k | k in Ids(cs) ensures k in Ids(p) + {cs[n].claim_id} {
      var j :| 0 <= j < |cs| && cs[j].claim_id == k;
      if j < n { assert p[j] == cs[j]; }
    }
    forall k | k in Ids(p) ensures k in Ids(cs) {
      var j :| 0 <= j < |p| && p[j].claim_id == k;
      assert cs[j] == p[j];
    }
    assert cs[n].claim_id in Ids(cs);
  }

  /**
   * Visiting pending claims keeps the map well keyed, touches no unlisted
   * claim, settles each listed claim's status by its answer and leaves an
   * ineligible one as it was.
   */
  lemma {:induction false} VisitsSettle(w: World, cs: seq<Claim>, tokens: map<nat, Token>, answers: nat -> Result<nat, string>)
    requires WellKeyed(w.claims) && Pending(w.claims, cs)
    ensures WellKeyed(Visits(w, cs, tokens, answers).0.claims)
    ensures Visits(w, cs, tokens, answers).0.claims.Keys == w.claims.Keys
    ensures forall k :: k in w.claims && k !in Ids(cs) ==> Visits(w, cs, tokens, answers).0.claims[k] == w.claims[k]
    ensures forall j :: 0 <= j < |cs| ==>
      Visits(w, cs, tokens, answers).0.claims[cs[j].claim_id].status == StatusAfter(cs[j], tokens, answers(cs[j].claim_id))
    ensures forall j :: 0 <= j < |cs| && !Eligible(cs[j], tokens) ==> Visits(w, cs, tokens, answers).0.claims[cs[j].claim_id] == cs[j]
  {
    if cs != [] {
      var n := |cs| - 1;
      var p := cs[..n];
      var c := cs[n];
      PendingPrefix(w.claims, cs);
      VisitsSettle(w, p, tokens, answers);
      var w1 := Visits(w, p, tokens, answers).0;
      assert w1.claims[c.claim_id] == c;
      var w2 := VisitClaim(w1, c, tokens, answers(c.claim_id)).0;
      assert Visits(w, cs, tokens, answers).0 == w2;
      forall j | 0 <= j < |cs|
        ensures w2.claims[cs[j].claim_id].status == StatusAfter(cs[j], tokens, answers(cs[j].claim_id))
        ensures !Eligible(cs[j], tokens) ==> w2.claims[cs[j].claim_id] == cs[j]
      {
        if j < n {
          assert p[j] == cs[j];
        }
      }
    }
  }

  /** The last pending claim is still stored as selected when the loop reaches it. */
  lemma LastUntouched(w: World, cs: seq<Claim>, tokens: map<nat, Token>, answers: nat -> Result<nat, string>)
    requires WellKeyed(w.claims) && Pending(w.claims, cs) && cs != []
    ensures cs[|cs| - 1].claim_id in Visits(w, cs[..|cs| - 1], tokens, answers).0.claims
    ensures Visits(w, cs[..|cs| - 1], tokens, answers).0.claims[cs[|cs| - 1].claim_id] == cs[|cs| - 1]
  {
    PendingPrefix(w.claims, cs);
    VisitsSettle(w, cs[..|cs| - 1], tokens, answers);
  }

  /** The settled status stated per claim id rather than per position. */
  lemma VisitsSettleById(w: World, cs: seq<Claim>, tokens: map<nat, Token>, answers: nat -> Result<nat, string>)
    requires WellKeyed(w.claims) && Pending(w.claims, cs)
    ensures Visits(w, cs, tokens, answers).0.claims.Keys == w.claims.Keys
    ensures forall k :: k in Ids(cs) ==> k in w.claims
    ensures forall k :: k in Ids(cs) ==>
      Visits(w, cs, tokens, answers).0.claims[k].status == StatusAfter(w.claims[k], tokens, answers(k))
    ensures forall k :: k in Ids(cs) && !Eligible(w.claims[k], tokens) ==>
      Visits(w, cs, tokens, answers).0.claims[k] == w.claims[k]
  {
    VisitsSettle(w, cs, tokens, answers);
    forall k | k in Ids(cs)
      ensures k in w.claims && Visits(w, cs, tokens, answers).0.claims[k].status == StatusAfter(w.claims[k], tokens, answers(k))
      ensures !Eligible(w.claims[k], tokens) ==> Visits(w, cs, tokens, answers).0.claims[k] == w.claims[k]
    {
      var j :| 0 <= j < |cs| && cs[j].claim_id == k;
    }
  }

  /** Visiting pending claims makes exactly the expected payments, in order. */
  lemma {:induction false} VisitsPay(w: World, cs: seq<Claim>, tokens: map<nat, Token>, answers: nat -> Result<nat, string>)
    requires WellKeyed(w.claims) && Pending(w.claims, cs)
    ensures Visits(w, cs, tokens, answers).0.payments == w.payments + ExpectedPayments(cs, tokens, answers)
  {
    if cs != [] {
      var n := |cs| - 1;
      var p := cs[..n];
      var c := cs[n];
      PendingPrefix(w.claims, cs);
      VisitsPay(w, p, tokens, answers);
      LastUntouched(w, cs, tokens, answers);
      var w1 := Visits(w, p, tokens, answers).0;
      var w2 := VisitClaim(w1, c, tokens, answers(c.claim_id)).0;
      assert Visits(w, cs, tokens, answers).0 == w2;
      var before := ExpectedPayments(p, tokens, answers);
      var pay := PaymentFor(c, tokens, answers(c.claim_id));
      assert ExpectedPayments(cs, tokens, answers) == before + pay;
      assert w2.payments == (w.payments + before) + pay;
      assert (w.payments + before) + pay == w.payments + (before + pay);
    }
  }

  /** Every reply the batch collects says "Success" or "Failed". */
  lemma {:induction false} VisitsReply(w: World, cs: seq<Claim>, tokens: map<nat, Token>, answers: nat -> Result<nat, string>)
    ensures forall r :: 0 <= r < |Visits(w, cs, tokens, answers).1| ==>
      Visits(w, cs, tokens, answers).1[r].status in {"Success", "Failed"}
  {
    if cs != [] {
      VisitsReply(w, cs[..|cs| - 1], tokens, answers);
    }
  }

  /**
   * The loop of `process_claims` over pending claims: each is visited once,
   * in order; the error counter is reset by every reply, so the loop never
   * stops early.
   */
  method VisitAll(w: World, claims: seq<Claim>, tokens: map<nat, Token>, answers: nat -> Result<nat, string>)
    returns (w': World, replies: seq<ClaimReply>, stopped: bool)
    requires WellKeyed(w.claims) && Pending(w.claims, claims)
    ensures !stopped
    ensures (w', replies) == Visits(w, claims, tokens, answers)
  {
    w' := w;
    replies := [];
    stopped := false;
    var consecutive_errors: nat := 0;
    var i := 0;
    while i < |claims|
      invariant 0 <= i <= |claims|
      invariant consecutive_errors == 0 && !stopped
      invariant (w', replies) == Visits(w, claims[..i], tokens, answers)
    {
      var c := claims[i];
      assert claims[..i + 1][..i] == claims[..i];
      var (next, reply) := VisitClaim(w', c, tokens, answers(c.claim_id));
      w' := next;
      replies := replies + (if reply.Some? && reply.value.Ok? then [reply.value.value] else []);
      if reply.Some? {
        var (errors, halt) := NextErrors(consecutive_errors, reply.value.Ok?);
        consecutive_errors := errors;
        if halt {
          stopped := true;
          break;
        }
      }
      i := i + 1;
    }
    assert claims[..|claims|] == claims;
  }

  /** What a batch over the current selection does to every claim, stated by claim id. */
  lemma BatchOutcome(w: World, tokens: map<nat, Token>, answers: nat -> Result<nat, string>)
    requires WellKeyed(w.claims)
    ensures var w' := Visits(w, SelectClaims(w.claims), tokens, answers).0;
            && WellKeyed(w'.claims) && w'.claims.Keys == w.claims.Keys
            && w'.payments == w.payments + ExpectedPayments(SelectClaims(w.claims), tokens, answers)
            && (forall k :: k in w.claims && w.claims[k].status != Unclaimed ==> w'.claims[k] == w.claims[k])
            && (forall k :: k in w.claims && w.claims[k].status == Unclaimed && !Eligible(w.claims[k], tokens) ==> w'.claims[k] == w.claims[k])
            && (forall k :: k in w.claims && w.claims[k].status == Unclaimed ==>
                  w'.claims[k].status == StatusAfter(w.claims[k], tokens, answers(k)))
  {
    var claims := SelectClaims(w.claims);
    SelectionCovers(w.claims);
    VisitsSettle(w, claims, tokens, answers);
    VisitsSettleById(w, claims, tokens, answers);
    VisitsPay(w, claims, tokens, answers);
  }

  /**
   * `process_claims`: nothing in maintenance mode or with no unclaimed
   * claims; otherwise every selected claim is visited in order. Because
   * `process_claim` always answers `Ok`, the error counter stays zero and
   * the batch never stops early. `answers` gives the ledger's reply for
   * each claim id.
   */
  method ProcessClaims(w: World, maintenance: bool, tokens: map<nat, Token>, answers: nat -> Result<nat, string>)
    returns (w': World, replies: seq<ClaimReply>, stopped: bool)
    requires WellKeyed(w.claims)
    ensures !stopped
    ensures maintenance || SelectClaims(w.claims) == [] ==> w' == w && replies == []
    ensures WellKeyed(w'.claims) && w'.claims.Keys == w.claims.Keys
    ensures !maintenance ==> w'.payments == w.payments + ExpectedPayments(SelectClaims(w.claims), tokens, answers)
    ensures forall k :: k in w.claims && w.claims[k].status != Unclaimed ==> w'.claims[k] == w.claims[k]
    ensures forall k :: k in w.claims && w.claims[k].status == Unclaimed && !Eligible(w.claims[k], tokens) ==> w'.claims[k] == w.claims[k]
    ensures !maintenance ==> forall k :: k in w.claims && w.claims[k].status == Unclaimed ==>
      w'.claims[k].status == StatusAfter(w.claims[k], tokens, answers(k))
    ensures forall i :: 0 <= i < |replies| ==> replies[i].status in {"Success", "Failed"}
  {
    w' := w;
    replies := [];
    stopped := false;
    if maintenance {
      return;
    }
    var claims := SelectClaims(w.claims);
    SelectionCovers(w.claims);
    BatchOutcome(w, tokens, answers);
    if |claims| == 0 {
      assert Visits(w, claims, tokens, answers).0 == w;
      return;
    }
    w', replies, stopped := VisitAll(w, claims, tokens, answers);
    VisitsReply(w, claims, tokens, answers);
  }
}
