/**
 * The client's token price oracle (`TokenService`): USD prices derived from
 * the pools the backend lists, by direct ckUSDT pools, by a bridge through
 * ICP, and as liquidity-weighted averages. JS numbers are modelled as
 * exact `real`s; `Recip` stands for `1 / x`.
 */
module PriceOracle {
  import opened Wrappers

  /** The fields of a listed pool the oracle reads. `price` is token 1 per token 0. */
  datatype PoolQuote = PoolQuote(
    address_0: string,
    address_1: string,
    symbol_0: string,
    symbol_1: string,
    price: real,
    balance_0: nat,
    balance_1: nat)

  /** The fields of a client token the oracle reads; an empty canister id stands for a missing one. */
  datatype TokenRef = TokenRef(canister_id: string, symbol: string)

  /** A price with the liquidity weight it carries. */
  datatype Quote = Quote(price: real, weight: real)

  /** `1 / x`; the model gives 0 where JS would give an infinity. */
  function Recip(x: real): real {
    if x == 0.0 then 0.0 else 1.0 / x
  }

  // ---------------------------------------------------------------------
  // Finding pools
  // ---------------------------------------------------------------------

  /** `pools.find(p => Pairs(p, symbol, other))`, as the position of the first such pool. */
  function FindPair(ps: seq<PoolQuote>, symbol: string, other: string): (r: Option<nat>)
    ensures r.Some? ==> r.value < |ps| && Pairs(ps[r.value], symbol, other)
                        && forall j :: 0 <= j < r.value ==> !Pairs(ps[j], symbol, other)
    ensures r.None? ==> forall j :: 0 <= j < |ps| ==> !Pairs(ps[j], symbol, other)
  {
    if ps == [] then None
    else if Pairs(ps[0], symbol, other) then Some(0)
    else
      match FindPair(ps[1..], symbol, other)
      case None => None
      case Some(i) => Some(i + 1)
  }

  /** Pairing is symmetric, so the search finds the same pool either way round. */
  lemma {:induction false} FindPairSymmetric(ps: seq<PoolQuote>, symbol: string, other: string)
    ensures FindPair(ps, symbol, other) == FindPair(ps, other, symbol)
  {
    if ps != [] {
      FindPairSymmetric(ps[1..], symbol, other);
    }
  }

  /** The token, by canister id, is on one side of the pool and `other` is the symbol on the opposite side. */
  predicate Against(p: PoolQuote, canister_id: string, other: string) {
    (p.address_0 == canister_id && p.symbol_1 == other) || (p.address_1 == canister_id && p.symbol_0 == other)
  }

  /** `pools.find(p => Against(p, canister_id, other))`, as the position of the first such pool. */
  function FindAgainst(ps: seq<PoolQuote>, canister_id: string, other: string): (r: Option<nat>)
    ensures r.Some? ==> r.value < |ps| && Against(ps[r.value], canister_id, other)
                        && forall j :: 0 <= j < r.value ==> !Against(ps[j], canister_id, other)
    ensures r.None? ==> forall j :: 0 <= j < |ps| ==> !Against(ps[j], canister_id, other)
  {
    if ps == [] then None
    else if Against(ps[0], canister_id, other) then Some(0)
    else
      match FindAgainst(ps[1..], canister_id, other)
      case None => None
      case Some(i) => Some(i + 1)
  }

  /** The pool pairs the two symbols, in either order. */
  predicate Pairs(p: PoolQuote, symbol: string, other: string) {
    (p.symbol_0 == symbol && p.symbol_1 == other) || (p.symbol_1 == symbol && p.symbol_0 == other)
  }

  /** The pool holds the token with this canister id on either side. */
  predicate Holds(p: PoolQuote, canister_id: string) {
    p.address_0 == canister_id || p.address_1 == canister_id
  }

  /** The pools holding the token, in listing order. */
  function Relevant(ps: seq<PoolQuote>, canister_id: string): (r: seq<PoolQuote>)
    ensures forall i :: 0 <= i < |r| ==> Holds(r[i], canister_id)
    ensures forall i :: 0 <= i < |ps| && Holds(ps[i], canister_id) ==> ps[i] in r
    ensures |r| <= |ps|
  {
    if ps == [] then []
    else if Holds(ps[0], canister_id) then [ps[0]] + Relevant(ps[1..], canister_id)
    else Relevant(ps[1..], canister_id)
  }

  // ---------------------------------------------------------------------
  // USD prices by symbol
  // ---------------------------------------------------------------------

  /**
   * `getUsdtPriceViaICP`: with a pool pairing the symbol with ICP and one
   * pairing ICP with ckUSDT, the product of the two prices, each oriented
   * towards the quote; otherwise 0.
   */
  function GetUsdtPriceViaIcp(symbol: string, ps: seq<PoolQuote>): (r: real)
    ensures var t := FindPair(ps, symbol, "ICP");
            var u := FindPair(ps, "ICP", "ckUSDT");
            && (t.None? || u.None? ==> r == 0.0)
            && (t.Some? && u.Some? ==>
                  r == (if ps[t.value].symbol_1 == "ICP" then ps[t.value].price else Recip(ps[t.value].price))
                       * (if ps[u.value].symbol_1 == "ckUSDT" then ps[u.value].price else Recip(ps[u.value].price)))
  {
    var t := FindPair(ps, symbol, "ICP");
    var u := FindPair(ps, "ICP", "ckUSDT");
    if t.Some? && u.Some? then
      var token_in_icp := if ps[t.value].symbol_1 == "ICP" then ps[t.value].price else Recip(ps[t.value].price);
      var icp_in_usdt := if ps[u.value].symbol_1 == "ckUSDT" then ps[u.value].price else Recip(ps[u.value].price);
      token_in_icp * icp_in_usdt
    else 0.0
  }

  /**
   * `getUsdtPriceForToken`: a direct pool against ckUSDT wins, oriented
   * towards ckUSDT; otherwise a positive price through ICP; otherwise 0.
   */
  function GetUsdtPriceForToken(symbol: string, ps: seq<PoolQuote>): (r: real)
    ensures var d := FindPair(ps, symbol, "ckUSDT");
            && (d.Some? ==> r == (if ps[d.value].symbol_1 == "ckUSDT" then ps[d.value].price else Recip(ps[d.value].price)))
            && (d.None? && GetUsdtPriceViaIcp(symbol, ps) > 0.0 ==> r == GetUsdtPriceViaIcp(symbol, ps))
            && (d.None? && GetUsdtPriceViaIcp(symbol, ps) <= 0.0 ==> r == 0.0)
  {
    var d := FindPair(ps, symbol, "ckUSDT");
    if d.Some? then
      if ps[d.value].symbol_1 == "ckUSDT" then ps[d.value].price else Recip(ps[d.value].price)
    else
      var via := GetUsdtPriceViaIcp(symbol, ps);
      if via > 0.0 then via else 0.0
  }

  /**
   * Asked for ckUSDT itself, no pool pairs it with itself, so the answer
   * comes through ICP: 1 when the first ICP/ckUSDT pool has a non-zero
   * price, and 0 when there is no such pool.
   */
  lemma CkusdtResolvesThroughIcp(ps: seq<PoolQuote>)
    requires forall i :: 0 <= i < |ps| ==> !Pairs(ps[i], "ckUSDT", "ckUSDT")
    ensures var u := FindPair(ps, "ICP", "ckUSDT");
            && (u.None? ==> GetUsdtPriceForToken("ckUSDT", ps) == 0.0)
            && (u.Some? && ps[u.value].price != 0.0 ==> GetUsdtPriceForToken("ckUSDT", ps) == 1.0)
  {
    assert FindPair(ps, "ckUSDT", "ckUSDT").None?;
    var u := FindPair(ps, "ICP", "ckUSDT");
    if u.Some? && ps[u.value].price != 0.0 {
      CkusdtViaIcpIsOne(ps);
    } else if u.None? {
      FindPairSymmetric(ps, "ckUSDT", "ICP");
    }
  }

  /** The ICP bridge for ckUSDT crosses the same pool twice, once each way. */
  lemma CkusdtViaIcpIsOne(ps: seq<PoolQuote>)
    requires FindPair(ps, "ICP", "ckUSDT").Some?
    requires ps[FindPair(ps, "ICP", "ckUSDT").value].price != 0.0
    ensures GetUsdtPriceViaIcp("ckUSDT", ps) == 1.0
  {
    FindPairSymmetric(ps, "ckUSDT", "ICP");
    var p := ps[FindPair(ps, "ICP", "ckUSDT").value];
    RecipCancels(p.price);
    assert Pairs(p, "ICP", "ckUSDT");
    assert "ICP" != "ckUSDT";
  }

  /** A non-zero price times its reciprocal is 1. */
  lemma RecipCancels(x: real)
    requires x != 0.0
    ensures Recip(x) * x == 1.0 && x * Recip(x) == 1.0
  {
  }

  // ---------------------------------------------------------------------
  // Weighted averages
  // ---------------------------------------------------------------------

  /** Total weight. */
  function WeightSum(cs: seq<Quote>): real {
    if cs == [] then 0.0 else cs[0].weight + WeightSum(cs[1..])
  }

  /** Sum of price times weight. */
  function WeightedSum(cs: seq<Quote>): real {
    if cs == [] then 0.0 else cs[0].price * cs[0].weight + WeightedSum(cs[1..])
  }

  /** The liquidity-weighted average price, or 0 when nothing carries weight. */
  function WeightedAverage(cs: seq<Quote>): real {
    var w := WeightSum(cs);
    if w > 0.0 then WeightedSum(cs) / w else 0.0
  }

  /** With prices within `[lo, hi]` and non-negative weights, the weighted sum lies between `lo` and `hi` times the weight. */
  lemma {:induction false} SumsBetween(cs: seq<Quote>, lo: real, hi: real)
    requires forall i :: 0 <= i < |cs| ==> cs[i].weight >= 0.0 && lo <= cs[i].price <= hi
    ensures lo * WeightSum(cs) <= WeightedSum(cs) <= hi * WeightSum(cs)
    ensures WeightSum(cs) >= 0.0
  {
    if cs != [] {
      var c := cs[0];
      var rest := cs[1..];
      assert forall i :: 0 <= i < |rest| ==> rest[i] == cs[i + 1];
      SumsBetween(rest, lo, hi);
      MulBetween(lo, c.price, hi, c.weight);
      var w := WeightSum(rest);
      var ws := WeightedSum(rest);
      assert WeightSum(cs) == c.weight + w;
      assert WeightedSum(cs) == c.price * c.weight + ws;
      RealDistribute(lo, c.weight, w);
      RealDistribute(hi, c.weight, w);
    }
  }

  lemma RealDistribute(a: real, b: real, c: real)
    ensures a * (b + c) == a * b + a * c
  {
  }

  lemma MulBetween(lo: real, p: real, hi: real, w: real)
    requires lo <= p <= hi && w >= 0.0
    ensures lo * w <= p * w <= hi * w
  {
  }

  /** The weighted average of prices within `[lo, hi]` lies within `[lo, hi]` once some weight is present. */
  lemma AverageBetween(cs: seq<Quote>, lo: real, hi: real)
    requires forall i :: 0 <= i < |cs| ==> cs[i].weight >= 0.0 && lo <= cs[i].price <= hi
    requires WeightSum(cs) > 0.0
    ensures lo <= WeightedAverage(cs) <= hi
  {
    SumsBetween(cs, lo, hi);
    var w := WeightSum(cs);
    var s := WeightedSum(cs);
    assert WeightedAverage(cs) == s / w;
    DivBetween(lo * w, s, hi * w, w);
    MulDivCancel(lo, w);
    MulDivCancel(hi, w);
  }

  lemma MulDivCancel(x: real, w: real)
    requires w != 0.0
    ensures (x * w) / w == x
  {
  }

  lemma DivBetween(a: real, s: real, b: real, w: real)
    requires a <= s <= b && w > 0.0
    ensures a / w <= s / w <= b / w
  {
  }

  /** `Σ p·w/W`, the form `calculateTokenPrice` sums in. */
  function SumOfShares(cs: seq<Quote>, total: real): real {
    if cs == [] then 0.0
    else (if total == 0.0 then 0.0 else cs[0].price * cs[0].weight / total) + SumOfShares(cs[1..], total)
  }

  /** Summing shares is dividing the weighted sum by the total once. */
  lemma {:induction false} SharesAreAverage(cs: seq<Quote>, total: real)
    requires total != 0.0
    ensures SumOfShares(cs, total) == WeightedSum(cs) / total
  {
    if cs != [] {
      SharesAreAverage(cs[1..], total);
      DivAdd(cs[0].price * cs[0].weight, WeightedSum(cs[1..]), total);
    }
  }

  lemma DivAdd(a: real, b: real, w: real)
    requires w != 0.0
    ensures a / w + b / w == (a + b) / w
  {
  }

  // ---------------------------------------------------------------------
  // fetchPrice
  // ---------------------------------------------------------------------

  /**
   * The quote one pool gives a token in `fetchPrice`. On side 0 the pool
   * price is converted by the USD price of the other symbol and weighted by
   * `balance_0`; on side 1 it is inverted, converted the same way unless the
   * other side is ckUSDT, and weighted by `balance_1`. `mirror_ckusdt`
   * selects the corrected form, which also takes a side-0 price against
   * ckUSDT as it stands.
   */
  function SideQuote(canister_id: string, p: PoolQuote, ps: seq<PoolQuote>, mirror_ckusdt: bool): (q: Quote)
    ensures p.address_0 == canister_id ==> q.weight == p.balance_0 as real
    ensures p.address_0 != canister_id ==> q.weight == p.balance_1 as real
    ensures p.address_0 != canister_id && p.symbol_0 == "ckUSDT" ==> q.price == Recip(p.price)
    ensures p.address_0 != canister_id && p.symbol_0 != "ckUSDT" ==>
      q.price == Recip(p.price) * GetUsdtPriceForToken(p.symbol_0, ps)
    ensures p.address_0 == canister_id && mirror_ckusdt && p.symbol_1 == "ckUSDT" ==> q.price == p.price
    ensures p.address_0 == canister_id && !(mirror_ckusdt && p.symbol_1 == "ckUSDT") ==>
      q.price == p.price * GetUsdtPriceForToken(p.symbol_1, ps)
  {
    if p.address_0 == canister_id then
      var price :=
        if p.symbol_1 == "ICP" then p.price * GetUsdtPriceForToken("ICP", ps)
        else if mirror_ckusdt && p.symbol_1 == "ckUSDT" then p.price
        else p.price * GetUsdtPriceForToken(p.symbol_1, ps);
      Quote(price, p.balance_0 as real)
    else
      var price :=
        if p.symbol_0 == "ckUSDT" then Recip(p.price)
        else Recip(p.price) * GetUsdtPriceForToken(p.symbol_0, ps);
      Quote(price, p.balance_1 as real)
  }

  /** A quote counts only with a positive price and a positive weight. */
  predicate Counts(q: Quote) {
    q.price > 0.0 && q.weight > 0.0
  }

  /** The quotes of the token's pools that count, in listing order. */
  function Contributions(canister_id: string, rel: seq<PoolQuote>, ps: seq<PoolQuote>, mirror_ckusdt: bool): (r: seq<Quote>)
    ensures forall i :: 0 <= i < |r| ==> Counts(r[i])
    ensures forall i :: 0 <= i < |rel| && Counts(SideQuote(canister_id, rel[i], ps, mirror_ckusdt)) ==>
      SideQuote(canister_id, rel[i], ps, mirror_ckusdt) in r
    ensures forall q :: q in r ==> exists i :: 0 <= i < |rel| && SideQuote(canister_id, rel[i], ps, mirror_ckusdt) == q
  {
    if rel == [] then []
    else
      var q := SideQuote(canister_id, rel[0], ps, mirror_ckusdt);
      var rest := Contributions(canister_id, rel[1..], ps, mirror_ckusdt);
      assert forall q' :: q' in rest ==> exists i :: 0 <= i < |rel| && SideQuote(canister_id, rel[i], ps, mirror_ckusdt) == q' by {
        forall q' | q' in rest ensures exists i :: 0 <= i < |rel| && SideQuote(canister_id, rel[i], ps, mirror_ckusdt) == q' {
          var i :| 0 <= i < |rel[1..]| && SideQuote(canister_id, rel[1..][i], ps, mirror_ckusdt) == q';
          assert rel[i + 1] == rel[1..][i];
        }
      }
      if Counts(q) then [q] + rest else rest
  }

  /** A list of counting quotes carries weight exactly when it is non-empty. */
  lemma {:induction false} CountingWeight(cs: seq<Quote>)
    requires forall i :: 0 <= i < |cs| ==> Counts(cs[i])
    ensures cs != [] <==> WeightSum(cs) > 0.0
    ensures WeightSum(cs) >= 0.0 && WeightedSum(cs) >= 0.0
  {
    if cs != [] {
      CountingWeight(cs[1..]);
      assert cs[0].price * cs[0].weight > 0.0;
    }
  }

  /** `fetchPrice`, written (`mirror_ckusdt` false) or corrected (true). */
  function FetchPriceWith(token: TokenRef, ps: seq<PoolQuote>, mirror_ckusdt: bool): (r: real)
    ensures Relevant(ps, token.canister_id) == [] ==> r == 0.0
    ensures r >= 0.0
    ensures r > 0.0 <==> Contributions(token.canister_id, Relevant(ps, token.canister_id), ps, mirror_ckusdt) != []
  {
    var rel := Relevant(ps, token.canister_id);
    var cs := Contributions(token.canister_id, rel, ps, mirror_ckusdt);
    CountingAverage(cs);
    if rel == [] then 0.0 else WeightedAverage(cs)
  }

  /** The average of counting quotes is positive exactly when there is one, and never negative. */
  lemma CountingAverage(cs: seq<Quote>)
    requires forall i :: 0 <= i < |cs| ==> Counts(cs[i])
    ensures WeightedAverage(cs) >= 0.0
    ensures WeightedAverage(cs) > 0.0 <==> cs != []
  {
    CountingWeight(cs);
    if cs != [] {
      assert WeightedSum(cs) > 0.0 by {
        assert cs[0].price * cs[0].weight > 0.0;
        CountingWeight(cs[1..]);
      }
      DivPositive(WeightedSum(cs), WeightSum(cs));
    }
  }

  lemma DivPositive(a: real, w: real)
    requires w > 0.0
    ensures a >= 0.0 ==> a / w >= 0.0
    ensures a > 0.0 ==> a / w > 0.0
  {
  }

  /** `fetchPrice` as written: a side-0 price against ckUSDT is converted by ckUSDT's own USD price. */
  function FetchPriceAsWritten(token: TokenRef, ps: seq<PoolQuote>): real {
    FetchPriceWith(token, ps, false)
  }

  /** `fetchPrice` with a side-0 price against ckUSDT taken as it stands, like the side-1 case. */
  function FetchPrice(token: TokenRef, ps: seq<PoolQuote>): real {
    FetchPriceWith(token, ps, true)
  }

  /**
   * `fetchPrice` is a liquidity-weighted average: with every counting quote
   * within `[lo, hi]` and at least one of them, the price is within `[lo, hi]`.
   */
  lemma FetchPriceBetween(token: TokenRef, ps: seq<PoolQuote>, mirror_ckusdt: bool, lo: real, hi: real)
    requires var cs := Contributions(token.canister_id, Relevant(ps, token.canister_id), ps, mirror_ckusdt);
             cs != [] && forall i :: 0 <= i < |cs| ==> lo <= cs[i].price <= hi
    ensures lo <= FetchPriceWith(token, ps, mirror_ckusdt) <= hi
  {
    var rel := Relevant(ps, token.canister_id);
    var cs := Contributions(token.canister_id, rel, ps, mirror_ckusdt);
    CountingWeight(cs);
    assert rel != [];
    AverageBetween(cs, lo, hi);
  }

  /**
   * As written, a token whose only pool is TOKEN/ckUSDT, with no ICP/ckUSDT
   * pool listed, is priced 0 although the pool quotes 2; the corrected form
   * gives 2.
   */
  lemma LoneCkusdtPoolPricedZero()
    ensures var p := PoolQuote("tok", "usdt", "TOK", "ckUSDT", 2.0, 100, 200);
            FetchPriceAsWritten(TokenRef("tok", "TOK"), [p]) == 0.0 && FetchPrice(TokenRef("tok", "TOK"), [p]) == 2.0
  {
    var p := PoolQuote("tok", "usdt", "TOK", "ckUSDT", 2.0, 100, 200);
    var ps := [p];
    var t := TokenRef("tok", "TOK");
    assert ps[1..] == [];
    assert Relevant(ps, "tok") == [p];
    CkusdtResolvesThroughIcp(ps);
    assert FindPair(ps, "ICP", "ckUSDT").None?;
    assert GetUsdtPriceForToken("ckUSDT", ps) == 0.0;
    assert SideQuote("tok", p, ps, false).price == 0.0;
    assert Contributions("tok", [p], ps, false) == [];
    var q := SideQuote("tok", p, ps, true);
    assert q == Quote(2.0, 100.0);
    assert Contributions("tok", [p], ps, true) == [q];
    assert WeightSum([q]) == 100.0;
    assert WeightedSum([q]) == 200.0;
  }

  /** With the correction, a token priced by a lone TOKEN/ckUSDT pool gets that pool's price. */
  lemma CkusdtPoolSetsPrice(token: TokenRef, p: PoolQuote)
    requires p.address_0 == token.canister_id && p.symbol_1 == "ckUSDT" && p.price > 0.0 && p.balance_0 > 0
    ensures FetchPrice(token, [p]) == p.price
  {
    var ps := [p];
    assert ps[1..] == [];
    assert Relevant(ps, token.canister_id) == [p];
    var q := SideQuote(token.canister_id, p, ps, true);
    assert Contributions(token.canister_id, [p], ps, true) == [q];
    FetchPriceBetween(token, ps, true, p.price, p.price);
  }

  // ---------------------------------------------------------------------
  // calculateTokenPrice and fetchPrices
  // ---------------------------------------------------------------------

  /** Total liquidity of a pool, the weight of the path through it. */
  function Liquidity(p: PoolQuote): real {
    p.balance_0 as real + p.balance_1 as real
  }

  /** `calculateDirectUsdtPrice`: the first of the token's pools against ckUSDT, oriented to ckUSDT. */
  function DirectUsdtPath(token: TokenRef, rel: seq<PoolQuote>): (q: Quote)
    ensures q.weight >= 0.0
    ensures var i := FindAgainst(rel, token.canister_id, "ckUSDT");
            && (i.None? ==> q == Quote(0.0, 0.0))
            && (i.Some? ==>
                  && q.weight == Liquidity(rel[i.value])
                  && q.price == (if rel[i.value].address_0 == token.canister_id then rel[i.value].price else Recip(rel[i.value].price)))
  {
    var i := FindAgainst(rel, token.canister_id, "ckUSDT");
    match i
    case None => Quote(0.0, 0.0)
    case Some(k) =>
      var p := rel[k];
      Quote(if p.address_0 == token.canister_id then p.price else Recip(p.price), Liquidity(p))
  }

  /** `calculateIcpPath`: the first pool against ICP, oriented to ICP, times ICP's USD price. */
  function IcpPath(token: TokenRef, ps: seq<PoolQuote>): (q: Quote)
    ensures q.weight >= 0.0
    ensures var i := FindAgainst(ps, token.canister_id, "ICP");
            && (i.None? ==> q == Quote(0.0, 0.0))
            && (i.Some? ==>
                  && q.weight == Liquidity(ps[i.value])
                  && q.price == (if ps[i.value].address_0 == token.canister_id then ps[i.value].price else Recip(ps[i.value].price))
                                * GetUsdtPriceForToken("ICP", ps))
  {
    var i := FindAgainst(ps, token.canister_id, "ICP");
    match i
    case None => Quote(0.0, 0.0)
    case Some(k) =>
      var p := ps[k];
      var token_in_icp := if p.address_0 == token.canister_id then p.price else Recip(p.price);
      Quote(token_in_icp * GetUsdtPriceForToken("ICP", ps), Liquidity(p))
  }

  /** `calculateStableCoinPath`: no other stable coin is wired in. */
  function StableCoinPath(): Quote {
    Quote(0.0, 0.0)
  }

  /** The path quotes with a positive price. */
  function ValidPaths(cs: seq<Quote>): (r: seq<Quote>)
    ensures forall i :: 0 <= i < |r| ==> r[i].price > 0.0
    ensures forall i :: 0 <= i < |r| ==> r[i] in cs
    ensures forall c :: c in cs && c.price > 0.0 ==> c in r
  {
    if cs == [] then []
    else if cs[0].price > 0.0 then [cs[0]] + ValidPaths(cs[1..]) else ValidPaths(cs[1..])
  }

  /** The three price paths of `calculateTokenPrice`, in its order. */
  function Paths(token: TokenRef, ps: seq<PoolQuote>): seq<Quote> {
    [DirectUsdtPath(token, Relevant(ps, token.canister_id)), IcpPath(token, ps), StableCoinPath()]
  }

  /**
   * `calculateTokenPrice`: 1 for the configured ckUSDT ledger; 0 for a
   * token in no pool or with no path of positive price; otherwise the sum
   * of each valid path's price times its share of the valid paths' weight.
   */
  function CalculateTokenPrice(token: TokenRef, ps: seq<PoolQuote>, ckusdt_ledger: Option<string>): (r: real)
    ensures ckusdt_ledger == Some(token.canister_id) ==> r == 1.0
    ensures ckusdt_ledger != Some(token.canister_id) && Relevant(ps, token.canister_id) == [] ==> r == 0.0
    ensures ckusdt_ledger != Some(token.canister_id) && ValidPaths(Paths(token, ps)) == [] ==> r == 0.0
    ensures r >= 0.0
  {
    if ckusdt_ledger == Some(token.canister_id) then 1.0
    else if Relevant(ps, token.canister_id) == [] then 0.0
    else
      var valid := ValidPaths(Paths(token, ps));
      if valid == [] then 0.0
      else
        PathsNonNegative(token, ps);
        SumsBetween(valid, 0.0, PriceCeiling(valid));
        var total := WeightSum(valid);
        if total == 0.0 then 0.0
        else
          SharesAreAverage(valid, total);
          DivPositive(WeightedSum(valid), total);
          SumOfShares(valid, total)
  }

  /** Every path quote carries a non-negative weight. */
  lemma PathsNonNegative(token: TokenRef, ps: seq<PoolQuote>)
    ensures forall i :: 0 <= i < |ValidPaths(Paths(token, ps))| ==> ValidPaths(Paths(token, ps))[i].weight >= 0.0
  {
    var cs := Paths(token, ps);
    assert forall c :: c in cs ==> c.weight >= 0.0;
  }

  /** A price no quote in the list exceeds. */
  function PriceCeiling(cs: seq<Quote>): (hi: real)
    ensures forall i :: 0 <= i < |cs| ==> cs[i].price <= hi
  {
    if cs == [] then 0.0
    else
      var rest := PriceCeiling(cs[1..]);
      assert forall i :: 1 <= i < |cs| ==> cs[i] == cs[1..][i - 1];
      if cs[0].price > rest then cs[0].price else rest
  }

  /**
   * `calculateTokenPrice` is a weighted average of its valid paths: when
   * they carry weight and their prices are within `[lo, hi]`, so is the result.
   */
  lemma TokenPriceBetween(token: TokenRef, ps: seq<PoolQuote>, ckusdt_ledger: Option<string>, lo: real, hi: real)
    requires ckusdt_ledger != Some(token.canister_id) && Relevant(ps, token.canister_id) != []
    requires var valid := ValidPaths(Paths(token, ps));
             WeightSum(valid) > 0.0 && forall i :: 0 <= i < |valid| ==> lo <= valid[i].price <= hi
    ensures lo <= CalculateTokenPrice(token, ps, ckusdt_ledger) <= hi
  {
    var valid := ValidPaths(Paths(token, ps));
    PathsNonNegative(token, ps);
    SharesAreAverage(valid, WeightSum(valid));
    AverageBetween(valid, lo, hi);
  }

  /**
   * `fetchPrices`. With no pools listed, every token with a canister id
   * is priced 0 (and ckUSDT is not set to 1); otherwise each token with a
   * canister id gets `calculateTokenPrice`, the last token listed under an
   * id winning, and the configured ckUSDT ledger, when set and non-empty,
   * is then set to 1.
   */
  function FetchPrices(tokens: seq<TokenRef>, ps: seq<PoolQuote>, ckusdt_ledger: Option<string>): (r: map<string, real>)
    ensures ps == [] ==> r.Keys == Ids(tokens) && forall k :: k in r ==> r[k] == 0.0
    ensures ps != [] ==> r.Keys == Ids(tokens) + CkusdtKey(ckusdt_ledger)
    ensures ps != [] && ckusdt_ledger.Some? && ckusdt_ledger.value != "" ==> r[ckusdt_ledger.value] == 1.0
  {
    if ps == [] then Zeroes(tokens)
    else
      var prices := Priced(tokens, ps, ckusdt_ledger);
      if ckusdt_ledger.Some? && ckusdt_ledger.value != "" then prices[ckusdt_ledger.value := 1.0] else prices
  }

  /** The key the explicit ckUSDT write adds: the configured ledger id, unless unset or empty (falsy). */
  function CkusdtKey(ckusdt_ledger: Option<string>): set<string> {
    if ckusdt_ledger.Some? && ckusdt_ledger.value != "" then {ckusdt_ledger.value} else {}
  }

  /**
   * With pools listed, every token id is priced by `calculateTokenPrice` of
   * the last token listed under it (the ckUSDT ledger's 1 agrees with it).
   */
  lemma FetchPricesByLast(tokens: seq<TokenRef>, ps: seq<PoolQuote>, ckusdt_ledger: Option<string>, k: string)
    requires ps != [] && k in Ids(tokens)
    ensures FetchPrices(tokens, ps, ckusdt_ledger)[k] == CalculateTokenPrice(tokens[LastIndexOf(tokens, k)], ps, ckusdt_ledger)
  {
    PricedByLast(tokens, ps, ckusdt_ledger, k);
  }

  /** The position of the last token listed under canister id `k`. */
  function LastIndexOf(tokens: seq<TokenRef>, k: string): (j: nat)
    requires k in Ids(tokens)
    ensures j < |tokens| && tokens[j].canister_id == k
    ensures forall i :: j < i < |tokens| ==> tokens[i].canister_id != k
    decreases |tokens|
  {
    var n := |tokens| - 1;
    IdsSnoc(tokens);
    if tokens[n].canister_id == k then n
    else
      var j := LastIndexOf(tokens[..n], k);
      assert tokens[..n][j] == tokens[j];
      j
  }

  /** The canister ids present among the tokens. */
  function Ids(tokens: seq<TokenRef>): set<string> {
    set i | 0 <= i < |tokens| && tokens[i].canister_id != "" :: tokens[i].canister_id
  }

  /** Every token with a canister id priced 0. */
  function Zeroes(tokens: seq<TokenRef>): (r: map<string, real>)
    ensures r.Keys == Ids(tokens)
    ensures forall k :: k in r ==> r[k] == 0.0
  {
    if tokens == [] then map[]
    else
      var last := tokens[|tokens| - 1];
      var rest := Zeroes(tokens[..|tokens| - 1]);
      IdsSnoc(tokens);
      if last.canister_id != "" then rest[last.canister_id := 0.0] else rest
  }

  /** Every token with a canister id priced by `calculateTokenPrice`, later tokens overwriting earlier ones. */
  function Priced(tokens: seq<TokenRef>, ps: seq<PoolQuote>, ckusdt_ledger: Option<string>): (r: map<string, real>)
    ensures r.Keys == Ids(tokens)
    ensures tokens != [] && tokens[|tokens| - 1].canister_id != "" ==>
      r[tokens[|tokens| - 1].canister_id] == CalculateTokenPrice(tokens[|tokens| - 1], ps, ckusdt_ledger)
  {
    if tokens == [] then map[]
    else
      var last := tokens[|tokens| - 1];
      var rest := Priced(tokens[..|tokens| - 1], ps, ckusdt_ledger);
      IdsSnoc(tokens);
      if last.canister_id != "" then rest[last.canister_id := CalculateTokenPrice(last, ps, ckusdt_ledger)] else rest
  }

  /** A later token under the same id overwrites an earlier one: each id holds its last token's price. */
  lemma {:induction false} PricedByLast(tokens: seq<TokenRef>, ps: seq<PoolQuote>, ckusdt_ledger: Option<string>, k: string)
    requires k in Ids(tokens)
    ensures Priced(tokens, ps, ckusdt_ledger)[k] == CalculateTokenPrice(tokens[LastIndexOf(tokens, k)], ps, ckusdt_ledger)
    decreases |tokens|
  {
    var n := |tokens| - 1;
    IdsSnoc(tokens);
    if tokens[n].canister_id != k {
      var p := tokens[..n];
      PricedByLast(p, ps, ckusdt_ledger, k);
      assert LastIndexOf(tokens, k) == LastIndexOf(p, k);
      assert p[LastIndexOf(p, k)] == tokens[LastIndexOf(tokens, k)];
    }
  }

  lemma IdsSnoc(tokens: seq<TokenRef>)
    requires tokens != []
    ensures var last := tokens[|tokens| - 1];
            Ids(tokens) == Ids(tokens[..|tokens| - 1]) + (if last.canister_id != "" then {last.canister_id} else {})
  {
    var n := |tokens| - 1;
    var p := tokens[..n];
    forall k | k in Ids(tokens) ensures k in Ids(p) + (if tokens[n].canister_id != "" then {tokens[n].canister_id} else {}) {
      var i :| 0 <= i < |tokens| && tokens[i].canister_id != "" && tokens[i].canister_id == k;
      if i < n { assert p[i] == tokens[i]; }
    }
    forall k | k in Ids(p) ensures k in Ids(tokens) {
      var i :| 0 <= i < |p| && p[i].canister_id != "" && p[i].canister_id == k;
      assert tokens[i] == p[i];
    }
    if tokens[n].canister_id != "" {
      assert tokens[n].canister_id in Ids(tokens);
    }
  }
}
