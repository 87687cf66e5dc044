/**
 * `add_liquidity_transfer_from`: a user deposits both tokens of an existing
 * pool (pulled with ICRC-2 `transfer_from`) and is credited LP tokens in
 * the LP token map. The ledger calls and the pool lookups are inputs: what
 * each call answered is passed in, and the model decides what is written
 * and what is handed back.
 */
module AddLiquidity {
  import opened Wrappers
  import opened NatHelpers
  import opened LpStore
  import opened Pools
  import LpTokenMap

  /** The request as the caller sends it. */
  datatype AddLiquidityArgs = AddLiquidityArgs(
    token_0: string, amount_0: nat, tx_id_0: Option<TxId>,
    token_1: string, amount_1: nat, tx_id_1: Option<TxId>)

  /** Why an add-liquidity request fails, one constructor per error the source reports. */
  datatype AddLiqError =
    | InvalidZeroAmounts
    | TxIdsNotSupported
    | PoolLookupFailed(message: string)
    | InvalidLpTokenAmount
    | InvalidAmount1
    | InvalidAmount0
    | IncorrectRatio(amount_0_in_token_1_decimals: nat, symbol_0: string,
                     amount_1_in_token_0_decimals: nat, symbol_1: string)
    | UserRegistrationFailed(message: string)
    | TransferFromFailed(leg: nat, message: string)

  /** The amounts a deposit puts into the pool and the LP tokens it mints. */
  datatype Amounts = Amounts(amount_0: nat, amount_1: nat, add_lp_token_amount: nat)

  /** Pool is empty: neither token has any reserve. */
  predicate IsEmpty(p: Pool) {
    Reserve0(p) == 0 && Reserve1(p) == 0
  }

  /**
   * The counterpart of `amount` on the other side at the pool's ratio:
   * `amount * reserve_other / reserve_same`, with `amount` and `reserve_same`
   * first re-expressed in the other token's decimals; `None` on a zero divisor.
   */
  function Counterpart(amount: nat, reserve_same: nat, reserve_other: nat, from: nat, to: nat): Option<nat> {
    NatDivide(ToDecimalPrecision(amount, from, to) * reserve_other, ToDecimalPrecision(reserve_same, from, to))
  }

  /**
   * LP tokens for depositing `amount` against `reserve`: `supply * amount / reserve`,
   * both re-expressed in the LP token's decimals; `None` on a zero divisor.
   */
  function ProRata(supply: nat, amount: nat, reserve: nat, from: nat, lp_decimals: nat): Option<nat> {
    NatDivide(supply * ToDecimalPrecision(amount, from, lp_decimals), ToDecimalPrecision(reserve, from, lp_decimals))
  }

  /** Attach the minted amount to the accepted pair, or report the zero divisor. */
  function Mint(pool: Pool, amount_0: nat, amount_1: nat, minted: Option<nat>): Result<(Pool, Amounts), AddLiqError> {
    match minted
    case None => Err(InvalidLpTokenAmount)
    case Some(lp) => Ok((pool, Amounts(amount_0, amount_1, lp)))
  }

  /** `offer` is below a counterpart that could be computed. */
  predicate ShortOf(offer: nat, need: Option<nat>) {
    need.Some? && offer < need.value
  }

  /**
   * `calculate_amounts`: how much of each offered amount the pool takes and
   * how many LP tokens that mints. `lookup` is the pool lookup by the two
   * tokens; `lp` is the LP token map whose supply of the pool's LP token is used.
   */
  function CalculateAmounts(lookup: Result<Pool, string>, lp: Store, amount_0: nat, amount_1: nat)
    : (r: Result<(Pool, Amounts), AddLiqError>)
    ensures lookup.Err? ==> r == Err(PoolLookupFailed(lookup.error))
    ensures r.Ok? ==> lookup.Ok? && r.value.0 == lookup.value
    ensures r.Ok? ==> r.value.1.amount_0 <= amount_0 && r.value.1.amount_1 <= amount_1
    ensures r.Ok? ==> r.value.1.amount_0 == amount_0 || r.value.1.amount_1 == amount_1
    // a first deposit keeps both amounts and mints their geometric mean in LP decimals, rounded down
    ensures lookup.Ok? && IsEmpty(lookup.value) ==>
      var p := lookup.value;
      var x := ToDecimalPrecision(amount_0, p.token_0.decimals, p.lp_decimals);
      var y := ToDecimalPrecision(amount_1, p.token_1.decimals, p.lp_decimals);
      r.Ok? && r.value.1.amount_0 == amount_0 && r.value.1.amount_1 == amount_1
      && r.value.1.add_lp_token_amount * r.value.1.add_lp_token_amount <= x * y
      < (r.value.1.add_lp_token_amount + 1) * (r.value.1.add_lp_token_amount + 1)
    // an offer exactly at the pool ratio is taken whole
    ensures lookup.Ok? && !IsEmpty(lookup.value)
            && amount_0 * Reserve1(lookup.value) == amount_1 * Reserve0(lookup.value) ==>
      r.Err? || (r.value.1.amount_0 == amount_0 && r.value.1.amount_1 == amount_1)
    // "Incorrect ratio": off the exact ratio, and each offer falls short of the other's counterpart
    ensures (r.Err? && r.error.IncorrectRatio?) <==>
      lookup.Ok? && !IsEmpty(lookup.value)
      && amount_0 * Reserve1(lookup.value) != amount_1 * Reserve0(lookup.value)
      && ShortOf(amount_1, Counterpart(amount_0, Reserve0(lookup.value), Reserve1(lookup.value),
                                       lookup.value.token_0.decimals, lookup.value.token_1.decimals))
      && ShortOf(amount_0, Counterpart(amount_1, Reserve1(lookup.value), Reserve0(lookup.value),
                                       lookup.value.token_1.decimals, lookup.value.token_0.decimals))
    // the message quotes each offer re-expressed in the other token's decimals
    ensures r.Err? && r.error.IncorrectRatio? ==>
      var p := lookup.value;
      r.error == IncorrectRatio(ToDecimalPrecision(amount_0, p.token_0.decimals, p.token_1.decimals), p.token_0.symbol,
                                ToDecimalPrecision(amount_1, p.token_1.decimals, p.token_0.decimals), p.token_1.symbol)
  {
    match lookup
    case Err(e) => Err(PoolLookupFailed(e))
    case Ok(pool) =>
      var d0 := pool.token_0.decimals;
      var d1 := pool.token_1.decimals;
      var dl := pool.lp_decimals;
      var reserve_0 := Reserve0(pool);
      var reserve_1 := Reserve1(pool);
      var supply := GetTotalSupply(lp, pool.lp_token_id);
      if IsEmpty(pool) then
        var x := ToDecimalPrecision(amount_0, d0, dl);
        var y := ToDecimalPrecision(amount_1, d1, dl);
        Ok((pool, Amounts(amount_0, amount_1, NatSqrt(x * y))))
      else if amount_0 * reserve_1 == amount_1 * reserve_0 then
        Mint(pool, amount_0, amount_1, ProRata(supply, amount_0, reserve_0, d0, dl))
      else
        match Counterpart(amount_0, reserve_0, reserve_1, d0, d1)
        case None => Err(InvalidAmount1)
        case Some(need_1) =>
          if amount_1 >= need_1 then
            Mint(pool, amount_0, need_1, ProRata(supply, amount_0, reserve_0, d0, dl))
          else
            match Counterpart(amount_1, reserve_1, reserve_0, d1, d0)
            case None => Err(InvalidAmount0)
            case Some(need_0) =>
              if amount_0 >= need_0 then
                Mint(pool, need_0, amount_1, ProRata(supply, amount_1, reserve_1, d1, dl))
              else
                Err(IncorrectRatio(ToDecimalPrecision(amount_0, d0, d1), pool.token_0.symbol,
                                   ToDecimalPrecision(amount_1, d1, d0), pool.token_1.symbol))
  }

  lemma ZeroPrecision(from: nat, to: nat)
    ensures ToDecimalPrecision(0, from, to) == 0
  {
  }

  /** The three ways a deposit into a non-empty pool succeeds. */
  lemma AcceptedCases(pool: Pool, lp: Store, amount_0: nat, amount_1: nat)
    requires !IsEmpty(pool)
    requires CalculateAmounts(Ok(pool), lp, amount_0, amount_1).Ok?
    ensures var a := CalculateAmounts(Ok(pool), lp, amount_0, amount_1).value.1;
            var d0 := pool.token_0.decimals;
            var d1 := pool.token_1.decimals;
            var s := GetTotalSupply(lp, pool.lp_token_id);
            var by_0 := ProRata(s, amount_0, Reserve0(pool), d0, pool.lp_decimals);
            var by_1 := ProRata(s, amount_1, Reserve1(pool), d1, pool.lp_decimals);
            var need_1 := Counterpart(amount_0, Reserve0(pool), Reserve1(pool), d0, d1);
            var need_0 := Counterpart(amount_1, Reserve1(pool), Reserve0(pool), d1, d0);
            (amount_0 * Reserve1(pool) == amount_1 * Reserve0(pool)
              && by_0.Some? && a == Amounts(amount_0, amount_1, by_0.value))
            || (need_1.Some? && amount_1 >= need_1.value
              && by_0.Some? && a == Amounts(amount_0, need_1.value, by_0.value))
            || (need_1.Some? && amount_1 < need_1.value && need_0.Some? && amount_0 >= need_0.value
              && by_1.Some? && a == Amounts(need_0.value, amount_1, by_1.value))
  {
  }

  /**
   * With both tokens at the same decimals, the accepted pair sits on the
   * pool's ratio: the trimmed side is the floor of the kept side times the
   * reserve ratio (an exact offer satisfies the first form with equality).
   */
  lemma AcceptedPairFollowsRatio(pool: Pool, lp: Store, amount_0: nat, amount_1: nat)
    requires !IsEmpty(pool)
    requires pool.token_0.decimals == pool.token_1.decimals
    requires CalculateAmounts(Ok(pool), lp, amount_0, amount_1).Ok?
    ensures var a := CalculateAmounts(Ok(pool), lp, amount_0, amount_1).value.1;
            var r0 := Reserve0(pool);
            var r1 := Reserve1(pool);
            (a.amount_1 * r0 <= a.amount_0 * r1 < a.amount_1 * r0 + r0)
            || (a.amount_0 * r1 <= a.amount_1 * r0 < a.amount_0 * r1 + r1)
  {
    var a := CalculateAmounts(Ok(pool), lp, amount_0, amount_1).value.1;
    var d := pool.token_0.decimals;
    var dl := pool.lp_decimals;
    var r0 := Reserve0(pool);
    var r1 := Reserve1(pool);
    var s := GetTotalSupply(lp, pool.lp_token_id);
    AcceptedCases(pool, lp, amount_0, amount_1);
    SamePrecision(amount_0, d);
    SamePrecision(amount_1, d);
    SamePrecision(r0, d);
    SamePrecision(r1, d);
    var need_1 := Counterpart(amount_0, r0, r1, d, d);
    var need_0 := Counterpart(amount_1, r1, r0, d, d);
    var by_0 := ProRata(s, amount_0, r0, d, dl);
    if amount_0 * r1 == amount_1 * r0 && by_0.Some? && a == Amounts(amount_0, amount_1, by_0.value) {
      if r0 == 0 {
        ZeroPrecision(d, dl);
        assert false;
      }
    } else if need_1.Some? && amount_1 >= need_1.value && a.amount_1 == need_1.value {
      assert a.amount_0 == amount_0;
      Distribute(need_1.value, 1, r0);
    } else {
      assert need_0.Some? && a.amount_0 == need_0.value && a.amount_1 == amount_1;
      Distribute(need_0.value, 1, r1);
    }
  }

  /**
   * With both tokens at the same decimals, "Incorrect ratio" is never
   * reported: when the offer of token 1 falls short of the counterpart of
   * token 0, the offer of token 0 always covers the counterpart of token 1.
   */
  lemma IncorrectRatioNeedsDecimalMismatch(lookup: Result<Pool, string>, lp: Store, amount_0: nat, amount_1: nat)
    requires lookup.Ok?
    requires lookup.value.token_0.decimals == lookup.value.token_1.decimals
    ensures !CalculateAmounts(lookup, lp, amount_0, amount_1).Err?
            || !CalculateAmounts(lookup, lp, amount_0, amount_1).error.IncorrectRatio?
  {
    var p := lookup.value;
    var d := p.token_0.decimals;
    var r0 := Reserve0(p);
    var r1 := Reserve1(p);
    SamePrecision(amount_0, d);
    SamePrecision(amount_1, d);
    SamePrecision(r0, d);
    SamePrecision(r1, d);
    if !IsEmpty(p) && amount_0 * r1 != amount_1 * r0 {
      var need_1 := Counterpart(amount_0, r0, r1, d, d);
      if need_1.Some? && amount_1 < need_1.value {
        var need_0 := Counterpart(amount_1, r1, r0, d, d);
        if need_0.Some? {
          // amount_1 + 1 <= need_1, so amount_1 * r0 + r0 <= need_1 * r0 <= amount_0 * r1
          MulLe(amount_1 + 1, need_1.value, r0);
          Distribute(amount_1, 1, r0);
          // need_0 * r1 <= amount_1 * r0 < amount_0 * r1, hence need_0 < amount_0
          if amount_0 <= need_0.value {
            MulLe(amount_0, need_0.value, r1);
            assert false;
          }
        }
      }
    }
  }

  /** `ProRata` with the LP token at or above the token's decimals is the plain floor of `supply * amount / reserve`. */
  lemma ProRataUnscaled(supply: nat, amount: nat, reserve: nat, from: nat, lp_decimals: nat)
    requires from <= lp_decimals
    requires ProRata(supply, amount, reserve, from, lp_decimals).Some?
    ensures reserve > 0
    ensures ProRata(supply, amount, reserve, from, lp_decimals).value == (supply * amount) / reserve
    ensures ProRata(supply, amount, reserve, from, lp_decimals).value * reserve <= supply * amount
  {
    var k := Pow10(lp_decimals - from);
    var n := supply * amount;
    var scaled_amount := ToDecimalPrecision(amount, from, lp_decimals);
    var scaled_reserve := ToDecimalPrecision(reserve, from, lp_decimals);
    assert scaled_reserve == reserve * k;
    assert scaled_amount == amount * k;
    assert ProRata(supply, amount, reserve, from, lp_decimals) == NatDivide(supply * scaled_amount, scaled_reserve);
    assert scaled_reserve != 0;
    MulAssoc(supply, amount, k);
    assert supply * scaled_amount == n * k;
    DivScaled(n, reserve, k);
    DivBounds(n, reserve);
  }

  /**
   * The LP tokens minted are the depositor's pro-rata share of the supply,
   * rounded down, measured on a side whose offer was taken whole (when the
   * LP token has at least each token's decimals, so no precision is lost in
   * re-expressing). So the other holders' share of that side does not fall;
   * the trimmed side is rounded down and can fall, see `TrimmedSideCanDilute`.
   */
  lemma MintIsProRataShare(pool: Pool, lp: Store, amount_0: nat, amount_1: nat)
    requires !IsEmpty(pool)
    requires pool.token_0.decimals <= pool.lp_decimals
    requires pool.token_1.decimals <= pool.lp_decimals
    requires CalculateAmounts(Ok(pool), lp, amount_0, amount_1).Ok?
    ensures var a := CalculateAmounts(Ok(pool), lp, amount_0, amount_1).value.1;
            var s := GetTotalSupply(lp, pool.lp_token_id);
            (Reserve0(pool) > 0 && a.amount_0 == amount_0
              && a.add_lp_token_amount == (s * amount_0) / Reserve0(pool)
              && a.add_lp_token_amount * Reserve0(pool) <= s * amount_0)
            || (Reserve1(pool) > 0 && a.amount_1 == amount_1
              && a.add_lp_token_amount == (s * amount_1) / Reserve1(pool)
              && a.add_lp_token_amount * Reserve1(pool) <= s * amount_1)
  {
    var a := CalculateAmounts(Ok(pool), lp, amount_0, amount_1).value.1;
    var d0 := pool.token_0.decimals;
    var d1 := pool.token_1.decimals;
    var dl := pool.lp_decimals;
    var s := GetTotalSupply(lp, pool.lp_token_id);
    var by_0 := ProRata(s, amount_0, Reserve0(pool), d0, dl);
    var by_1 := ProRata(s, amount_1, Reserve1(pool), d1, dl);
    AcceptedCases(pool, lp, amount_0, amount_1);
    if by_0.Some? && a.amount_0 == amount_0 && a.add_lp_token_amount == by_0.value {
      ProRataUnscaled(s, amount_0, Reserve0(pool), d0, dl);
    } else {
      assert by_1.Some? && a.amount_1 == amount_1 && a.add_lp_token_amount == by_1.value;
      ProRataUnscaled(s, amount_1, Reserve1(pool), d1, dl);
    }
  }

  /**
   * The trimmed side is the floor of the pool ratio, so it can favour the
   * depositor: with reserves (2, 3) and supply 100, an offer of (1, 5) is
   * taken as (1, 1) and mints 50, after which each LP token stands for less
   * of token 1 than before (4 / 150 < 3 / 100).
   */
  lemma TrimmedSideCanDilute()
    ensures var t0 := Token(1, "A", 8, 0);
            var t1 := Token(2, "B", 8, 0);
            var pool := Pool(7, t0, t1, 2, 3, 0, 0, 9, 8);
            var lp := map[1 := LpEntry(1, 1, 9, 100, 0)];
            var r := CalculateAmounts(Ok(pool), lp, 1, 5);
            && GetTotalSupply(lp, 9) == 100
            && r == Ok((pool, Amounts(1, 1, 50)))
            && (Reserve1(pool) + 1) * 100 < Reserve1(pool) * (100 + 50)
  {
    var t0 := Token(1, "A", 8, 0);
    var t1 := Token(2, "B", 8, 0);
    var pool := Pool(7, t0, t1, 2, 3, 0, 0, 9, 8);
    var lp := map[1 := LpEntry(1, 1, 9, 100, 0)];
    SupplySplit(lp, 1, 9);
    assert lp - {1} == map[];
    SamePrecision(1, 8);
    SamePrecision(2, 8);
    SamePrecision(3, 8);
    assert Counterpart(1, 2, 3, 8, 8) == Some(1);
    assert ProRata(100, 1, 2, 8, 8) == Some(50);
  }

  /**
   * `check_arguments`: both amounts nonzero, no tx ids, the amounts the pool
   * would take now, then the caller's registration (`registration`, the
   * user id `user_map::insert` answers).
   */
  function CheckArguments(args: AddLiquidityArgs, lookup: Result<Pool, string>, lp: Store, registration: Result<nat, string>)
    : (r: Result<(nat, Pool, nat, nat), AddLiqError>)
    ensures (args.amount_0 == 0 || args.amount_1 == 0) ==> r == Err(InvalidZeroAmounts)
    ensures args.amount_0 > 0 && args.amount_1 > 0 && (args.tx_id_0.Some? || args.tx_id_1.Some?) ==> r == Err(TxIdsNotSupported)
    ensures r.Ok? ==>
      args.tx_id_0.None? && args.tx_id_1.None? && registration == Ok(r.value.0)
      && 0 < args.amount_0 && 0 < args.amount_1
      && r.value.2 <= args.amount_0 && r.value.3 <= args.amount_1
      && CalculateAmounts(lookup, lp, args.amount_0, args.amount_1).Ok?
    // a success hands on exactly the pool and amounts `calculate_amounts` computed
    ensures r.Ok? ==>
      var c := CalculateAmounts(lookup, lp, args.amount_0, args.amount_1).value;
      r.value.1 == c.0 && r.value.2 == c.1.amount_0 && r.value.3 == c.1.amount_1
    ensures r.Err? && r.error.UserRegistrationFailed? ==> registration.Err?
    // past the two checks, a failing `calculate_amounts` is reported as is
    ensures args.amount_0 > 0 && args.amount_1 > 0 && args.tx_id_0.None? && args.tx_id_1.None?
            && CalculateAmounts(lookup, lp, args.amount_0, args.amount_1).Err? ==>
      r == Err(CalculateAmounts(lookup, lp, args.amount_0, args.amount_1).error)
    // and when every step succeeds, so does the check
    ensures args.amount_0 > 0 && args.amount_1 > 0 && args.tx_id_0.None? && args.tx_id_1.None?
            && CalculateAmounts(lookup, lp, args.amount_0, args.amount_1).Ok? && registration.Ok?
            ==> r.Ok?
  {
    if args.amount_0 == 0 || args.amount_1 == 0 then Err(InvalidZeroAmounts)
    else if args.tx_id_0.Some? || args.tx_id_1.Some? then Err(TxIdsNotSupported)
    else
      match CalculateAmounts(lookup, lp, args.amount_0, args.amount_1)
      case Err(e) => Err(e)
      case Ok((pool, am)) =>
        match registration
        case Err(e) => Err(UserRegistrationFailed(e))
        case Ok(user_id) => Ok((user_id, pool, am.amount_0, am.amount_1))
  }

  /**
   * `update_lp_token`: adds the minted amount to the user's holding of the
   * LP token, or inserts a new holding when the user has none.
   */
  function UpdateLpToken(lp: LpTokenMap.LpTokenMap, user_id: nat, lp_token_id: nat, add: nat, ts: nat)
    : LpTokenMap.LpTokenMap
  {
    match LpTokenMap.GetByTokenId(lp, Some(user_id), lp_token_id)
    case Some(held) =>
      LpTokenMap.Update(lp, held.(amount := held.amount + add, ts := ts))
    case None => LpTokenMap.Insert(lp, LpEntry(0, user_id, lp_token_id, add, ts)).1
  }

  /**
   * `update_lp_token` credits exactly the minted amount: the LP token's
   * supply grows by it and every other supply is unchanged.
   */
  lemma UpdateLpTokenSupply(lp: LpTokenMap.LpTokenMap, user_id: nat, lp_token_id: nat, add: nat, ts: nat, t: nat)
    requires LpTokenMap.Valid(lp)
    ensures GetTotalSupply(UpdateLpToken(lp, user_id, lp_token_id, add, ts).entries, t)
            == GetTotalSupply(lp.entries, t) + (if t == lp_token_id then add else 0)
  {
    match GetByTokenIdByUserId(lp.entries, lp_token_id, user_id)
    case Some(held) =>
      FoundIsStored(lp.entries, lp_token_id, user_id);
      var e := held.(amount := held.amount + add, ts := ts);
      assert UpdateLpToken(lp, user_id, lp_token_id, add, ts).entries == Put(lp.entries, e);
      PutSupply(lp.entries, e, t);
      assert Contribution(e, t) == Contribution(held, t) + (if t == lp_token_id then add else 0);
    case None =>
      var e := LpEntry(0, user_id, lp_token_id, add, ts);
      assert UpdateLpToken(lp, user_id, lp_token_id, add, ts) == LpTokenMap.Insert(lp, e).1;
      LpTokenMap.InsertSupply(lp, e, t);
  }

  /**
   * After `update_lp_token` the map is still valid and the user's holding of
   * the LP token is the old one (or none) plus the minted amount.
   */
  lemma UpdateLpTokenHolding(lp: LpTokenMap.LpTokenMap, user_id: nat, lp_token_id: nat, add: nat, ts: nat)
    requires LpTokenMap.Valid(lp)
    ensures LpTokenMap.Valid(UpdateLpToken(lp, user_id, lp_token_id, add, ts))
    ensures var before := GetByTokenIdByUserId(lp.entries, lp_token_id, user_id);
            var after := GetByTokenIdByUserId(UpdateLpToken(lp, user_id, lp_token_id, add, ts).entries, lp_token_id, user_id);
            after.Some? && after.value.amount == (if before.Some? then before.value.amount else 0) + add
  {
    match GetByTokenIdByUserId(lp.entries, lp_token_id, user_id)
    case Some(held) =>
      FoundIsStored(lp.entries, lp_token_id, user_id);
      var e := held.(amount := held.amount + add, ts := ts);
      assert UpdateLpToken(lp, user_id, lp_token_id, add, ts).entries == Put(lp.entries, e);
      GetAfterPut(lp.entries, e, lp_token_id, user_id);
    case None =>
      var e := LpEntry(lp.idx + 1, user_id, lp_token_id, add, ts);
      assert UpdateLpToken(lp, user_id, lp_token_id, add, ts).entries == Put(lp.entries, e);
      GetAfterPut(lp.entries, e, lp_token_id, user_id);
  }

  /**
   * `update_liquidity_pool`: recalculates against the pool as it is now
   * (`current`), adds the accepted amounts to the pool's balances and
   * credits the minted LP tokens. Returns the pool as written.
   */
  function UpdateLiquidityPool(user_id: nat, current: Result<Pool, string>, lp: LpTokenMap.LpTokenMap,
                               add_amount_0: nat, add_amount_1: nat, ts: nat)
    : (r: Result<(Pool, Amounts, LpTokenMap.LpTokenMap), AddLiqError>)
    ensures r.Err? <==> CalculateAmounts(current, lp.entries, add_amount_0, add_amount_1).Err?
    ensures r.Ok? ==>
      var p := current.value;
      var a := r.value.1;
      a == CalculateAmounts(current, lp.entries, add_amount_0, add_amount_1).value.1
      && r.value.0 == p.(balance_0 := p.balance_0 + a.amount_0, balance_1 := p.balance_1 + a.amount_1)
      && r.value.2 == UpdateLpToken(lp, user_id, p.lp_token_id, a.add_lp_token_amount, ts)
  {
    match CalculateAmounts(current, lp.entries, add_amount_0, add_amount_1)
    case Err(e) => Err(e)
    case Ok((pool, a)) =>
      var updated := pool.(balance_0 := pool.balance_0 + a.amount_0, balance_1 := pool.balance_1 + a.amount_1);
      Ok((updated, a, UpdateLpToken(lp, user_id, pool.lp_token_id, a.add_lp_token_amount, ts)))
  }

  /** What the ledgers answered during one deposit. */
  datatype AddLiqReplies = AddLiqReplies(
    transfer_from_0: Result<nat, string>,
    transfer_from_1: Result<nat, string>,
    return_0: ReturnReplies,
    return_1: ReturnReplies)

  /** The reply, what was handed back, the pool written (if any) and the LP token map afterwards. */
  datatype AddLiqOutcome = AddLiqOutcome(
    reply: Result<Amounts, AddLiqError>,
    returned: ReturnReport,
    pool_written: Option<Pool>,
    lp: LpTokenMap.LpTokenMap)

  /** `return_tokens`: hands back each leg given, using the fees of the pool's tokens. */
  function ReturnTokens(pool: Pool, amount_0: Option<nat>, amount_1: Option<nat>, replies: AddLiqReplies): ReturnReport {
    ReturnReport(ReturnLeg(amount_0, pool.token_0.fee, replies.return_0),
                 ReturnLeg(amount_1, pool.token_1.fee, replies.return_1))
  }

  /**
   * `process_add_liquidity`: pull token 0, then token 1, then recalculate
   * against `current` and write. Whatever was pulled before a failure is
   * handed back; a failure to pull token 0 hands back nothing.
   */
  function ProcessAddLiquidity(user_id: nat, pool: Pool, add_amount_0: nat, add_amount_1: nat,
                               replies: AddLiqReplies, current: Result<Pool, string>,
                               lp: LpTokenMap.LpTokenMap, ts: nat)
    : (r: AddLiqOutcome)
    ensures replies.transfer_from_0.Err? ==>
      r == AddLiqOutcome(Err(TransferFromFailed(0, replies.transfer_from_0.error)),
                         ReturnReport(NotReturned, NotReturned), None, lp)
    ensures replies.transfer_from_0.Ok? && replies.transfer_from_1.Err? ==>
      r.reply == Err(TransferFromFailed(1, replies.transfer_from_1.error))
      && r.returned == ReturnTokens(pool, Some(add_amount_0), None, replies)
      && r.pool_written.None? && r.lp == lp
    ensures r.reply.Err? ==> r.pool_written.None? && r.lp == lp
    ensures r.reply.Ok? ==>
      replies.transfer_from_0.Ok? && replies.transfer_from_1.Ok?
      && r.returned == ReturnReport(NotReturned, NotReturned)
      && r.reply.value.amount_0 <= add_amount_0 && r.reply.value.amount_1 <= add_amount_1
      && r.pool_written.Some? && current.Ok?
      && r.pool_written.value.balance_0 == current.value.balance_0 + r.reply.value.amount_0
      && r.pool_written.value.balance_1 == current.value.balance_1 + r.reply.value.amount_1
    ensures replies.transfer_from_0.Ok? && replies.transfer_from_1.Ok? && r.reply.Err? ==>
      r.returned == ReturnTokens(pool, Some(add_amount_0), Some(add_amount_1), replies)
  {
    match replies.transfer_from_0
    case Err(e) => AddLiqOutcome(Err(TransferFromFailed(0, e)), ReturnReport(NotReturned, NotReturned), None, lp)
    case Ok(_) =>
      match replies.transfer_from_1
      case Err(e) => AddLiqOutcome(Err(TransferFromFailed(1, e)), ReturnTokens(pool, Some(add_amount_0), None, replies), None, lp)
      case Ok(_) =>
        match UpdateLiquidityPool(user_id, current, lp, add_amount_0, add_amount_1, ts)
        case Err(e) =>
          AddLiqOutcome(Err(e), ReturnTokens(pool, Some(add_amount_0), Some(add_amount_1), replies), None, lp)
        case Ok((written, a, lp')) =>
          AddLiqOutcome(Ok(a), ReturnReport(NotReturned, NotReturned), Some(written), lp')
  }

  /**
   * On failure nothing pulled is stranded: every leg the ledger accepted is
   * refunded, owed as a claim, or reported as `ClaimNotSaved` when storing
   * the claim failed too, and a leg never pulled is never handed back. On success nothing is handed back, including the
   * part of a pulled amount that the recalculation trimmed.
   */
  lemma PulledLegsAreReturnedOnFailure(user_id: nat, pool: Pool, add_amount_0: nat, add_amount_1: nat,
                                       replies: AddLiqReplies, current: Result<Pool, string>,
                                       lp: LpTokenMap.LpTokenMap, ts: nat)
    ensures var r := ProcessAddLiquidity(user_id, pool, add_amount_0, add_amount_1, replies, current, lp, ts);
            (r.returned.leg_0 != NotReturned <==> replies.transfer_from_0.Ok? && r.reply.Err?)
            && (r.returned.leg_1 != NotReturned <==> replies.transfer_from_0.Ok? && replies.transfer_from_1.Ok? && r.reply.Err?)
  {
  }

  /**
   * The LP token map after a deposit: valid maps stay valid, and the pool's
   * LP supply grows by exactly the minted amount (by nothing on failure).
   */
  lemma ProcessAddLiquidityMints(user_id: nat, pool: Pool, add_amount_0: nat, add_amount_1: nat,
                                 replies: AddLiqReplies, current: Result<Pool, string>,
                                 lp: LpTokenMap.LpTokenMap, ts: nat, t: nat)
    requires LpTokenMap.Valid(lp)
    ensures var r := ProcessAddLiquidity(user_id, pool, add_amount_0, add_amount_1, replies, current, lp, ts);
            LpTokenMap.Valid(r.lp)
            && GetTotalSupply(r.lp.entries, t) == GetTotalSupply(lp.entries, t)
               + (if r.reply.Ok? && t == current.value.lp_token_id then r.reply.value.add_lp_token_amount else 0)
  {
    var r := ProcessAddLiquidity(user_id, pool, add_amount_0, add_amount_1, replies, current, lp, ts);
    if r.reply.Ok? {
      var a := r.reply.value;
      UpdateLpTokenSupply(lp, user_id, current.value.lp_token_id, a.add_lp_token_amount, ts, t);
      UpdateLpTokenHolding(lp, user_id, current.value.lp_token_id, a.add_lp_token_amount, ts);
    }
  }

  /**
   * `add_liquidity_transfer_from` end to end: arguments are checked against
   * the pool as it is at request time (`lookup`), then the deposit runs
   * against the pool as it is once both pulls are done (`current`).
   */
  function AddLiquidityTransferFrom(args: AddLiquidityArgs, lookup: Result<Pool, string>,
                                    registration: Result<nat, string>, replies: AddLiqReplies,
                                    current: Result<Pool, string>, lp: LpTokenMap.LpTokenMap, ts: nat)
    : (r: AddLiqOutcome)
    ensures r.reply.Ok? ==>
      r.reply.value.amount_0 <= args.amount_0 && r.reply.value.amount_1 <= args.amount_1
    ensures CheckArguments(args, lookup, lp.entries, registration).Err? ==>
      r == AddLiqOutcome(Err(CheckArguments(args, lookup, lp.entries, registration).error),
                         ReturnReport(NotReturned, NotReturned), None, lp)
  {
    match CheckArguments(args, lookup, lp.entries, registration)
    case Err(e) => AddLiqOutcome(Err(e), ReturnReport(NotReturned, NotReturned), None, lp)
    case Ok((user_id, pool, add_amount_0, add_amount_1)) =>
      ProcessAddLiquidity(user_id, pool, add_amount_0, add_amount_1, replies, current, lp, ts)
  }
}
