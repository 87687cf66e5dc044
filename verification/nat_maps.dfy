/**
 * Ordered views of the backend's `StableBTreeMap`s, whose keys are naturals
 * and whose iteration runs in ascending key order.
 */
module NatMaps {

  /** `k` is the least element of `s`. */
  predicate IsLeast(k: nat, s: set<nat>) {
    k in s && forall j :: j in s ==> k <= j
  }

  /** `k` is the greatest element of `s`. */
  predicate IsGreatest(k: nat, s: set<nat>) {
    k in s && forall j :: j in s ==> j <= k
  }

  /** Every non-empty finite set of naturals has a least element. */
  lemma {:induction false} HasMin(s: set<nat>)
    requires s != {}
    ensures exists k :: IsLeast(k, s)
    decreases |s|
  {
    var x :| x in s;
    var t := s - {x};
    if t != {} {
      assert |t| < |s|;
      HasMin(t);
      var m :| IsLeast(m, t);
      var k := if x < m then x else m;
      forall j | j in s ensures k <= j {
        if j != x { assert j in t; }
      }
      assert IsLeast(k, s);
    } else {
      forall j | j in s ensures x <= j {
        assert j !in t;
      }
      assert IsLeast(x, s);
    }
  }

  /** Every non-empty finite set of naturals has a greatest element. */
  lemma {:induction false} HasMax(s: set<nat>)
    requires s != {}
    ensures exists k :: IsGreatest(k, s)
    decreases |s|
  {
    var x :| x in s;
    var t := s - {x};
    if t != {} {
      assert |t| < |s|;
      HasMax(t);
      var m :| IsGreatest(m, t);
      var k := if m < x then x else m;
      forall j | j in s ensures j <= k {
        if j != x { assert j in t; }
      }
      assert IsGreatest(k, s);
    } else {
      forall j | j in s ensures j <= x {
        assert j !in t;
      }
      assert IsGreatest(x, s);
    }
  }

  /** The least key: where a BTreeMap iteration starts. */
  function MinKey(s: set<nat>): (k: nat)
    requires s != {}
    ensures k in s
    ensures forall j :: j in s ==> k <= j
  {
    HasMin(s);
    var k :| IsLeast(k, s);
    k
  }

  /** The greatest key. */
  function MaxKey(s: set<nat>): (k: nat)
    requires s != {}
    ensures k in s
    ensures forall j :: j in s ==> j <= k
  {
    HasMax(s);
    var k :| IsGreatest(k, s);
    k
  }

  /** A key below or equal to every key is the least key. */
  lemma MinKeyIs(s: set<nat>, k: nat)
    requires k in s
    requires forall j :: j in s ==> k <= j
    ensures MinKey(s) == k
  {
  }

  /** Strictly ascending. */
  predicate Ascending(ks: seq<nat>) {
    forall i, j :: 0 <= i < j < |ks| ==> ks[i] < ks[j]
  }

  /** The keys in iteration order. */
  function SortedKeys(s: set<nat>): (ks: seq<nat>)
    ensures Ascending(ks)
    ensures forall k :: k in ks <==> k in s
    ensures |ks| == |s|
    decreases |s|
  {
    if s == {} then []
    else
      var k := MinKey(s);
      var rest := SortedKeys(s - {k});
      [k] + rest
  }
}
