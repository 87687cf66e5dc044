/**
 * `parseTokens`: turns the backend's token list into the client's token
 * records, keeping the Internet Computer tokens and giving every display
 * field its default.
 */
module TokenParsers {
  import opened Wrappers

  /** The backend's record of an Internet Computer token. */
  datatype IcToken = IcToken(
    canister_id: string,
    name: string,
    symbol: string,
    fee: nat,
    decimals: nat,
    token: string,
    token_id: nat,
    chain: string,
    icrc1: bool,
    icrc2: bool,
    icrc3: bool,
    on_kong: bool,
    pool_symbol: Option<string>)

  /** A backend token: an IC token, or any other kind (such as an LP token). */
  datatype BackendToken = IC(ic: IcToken) | OtherToken

  /** The client's token record. */
  datatype FrontToken = FrontToken(
    canister_id: string,
    name: string,
    symbol: string,
    fee: nat,
    decimals: nat,
    token: string,
    token_id: nat,
    chain: string,
    icrc1: bool,
    icrc2: bool,
    icrc3: bool,
    on_kong: bool,
    pool_symbol: string,
    pools: seq<string>,
    logo: string,
    total_24h_volume: nat,
    price: real,
    tvl: real,
    balance: nat)

  /** Shown when a token has no pool. */
  const NO_POOL_SYMBOL := "Pool not found"

  /** The logo shown until the real one is fetched. */
  const DEFAULT_LOGO := "/tokens/not_verified.webp"

  /**
   * The message of the `TypeError` the runtime raises when an `Err` with
   * an empty (falsy) message slips past the first check and the missing
   * `Ok` list is filtered.
   */
  const UNDEFINED_OK_MESSAGE := "Cannot read properties of undefined (reading 'filter')"

  /** The client record of one IC token: fields copied, display fields at their defaults. */
  function ToFront(ic: IcToken): (t: FrontToken)
    ensures t.canister_id == ic.canister_id && t.name == ic.name && t.symbol == ic.symbol
    ensures t.fee == ic.fee && t.decimals == ic.decimals && t.token == ic.token && t.token_id == ic.token_id
    ensures t.chain == ic.chain && t.on_kong == ic.on_kong
    ensures t.icrc1 == ic.icrc1 && t.icrc2 == ic.icrc2 && t.icrc3 == ic.icrc3
    ensures t.pool_symbol == (if ic.pool_symbol.Some? then ic.pool_symbol.value else NO_POOL_SYMBOL)
    ensures t.pools == [] && t.logo == DEFAULT_LOGO && t.total_24h_volume == 0
    ensures t.price == 0.0 && t.tvl == 0.0 && t.balance == 0
  {
    FrontToken(
      ic.canister_id, ic.name, ic.symbol, ic.fee, ic.decimals, ic.token, ic.token_id, ic.chain,
      ic.icrc1, ic.icrc2, ic.icrc3, ic.on_kong,
      ic.pool_symbol.GetOr(NO_POOL_SYMBOL),
      [], DEFAULT_LOGO, 0, 0.0, 0.0, 0)
  }

  /** The IC records of the list, in order. */
  function IcRecords(ts: seq<BackendToken>): (r: seq<IcToken>)
    ensures |r| <= |ts|
  {
    if ts == [] then []
    else
      var rest := IcRecords(ts[1..]);
      if ts[0].IC? then [ts[0].ic] + rest else rest
  }

  /** The filter keeps every IC record of the list and nothing that is not one. */
  lemma {:induction false} IcRecordsMembers(ts: seq<BackendToken>)
    ensures forall i :: 0 <= i < |ts| && ts[i].IC? ==> ts[i].ic in IcRecords(ts)
    ensures forall x :: x in IcRecords(ts) ==> IC(x) in ts
  {
    if ts != [] {
      var tail := ts[1..];
      IcRecordsMembers(tail);
      var rest := IcRecords(tail);
      assert IcRecords(ts) == (if ts[0].IC? then [ts[0].ic] + rest else rest);
      forall i | 0 <= i < |ts| && ts[i].IC? ensures ts[i].ic in IcRecords(ts) {
        if i > 0 {
          assert tail[i - 1] == ts[i];
          assert ts[i].ic in rest;
        }
      }
      forall x | x in IcRecords(ts) ensures IC(x) in ts {
        if x in rest {
          assert IC(x) in tail;
        }
      }
    }
  }

  /** A list of IC tokens only is its own filter. */
  lemma {:induction false} IcRecordsAllIc(ts: seq<BackendToken>)
    requires forall i :: 0 <= i < |ts| ==> ts[i].IC?
    ensures |IcRecords(ts)| == |ts|
    ensures forall i :: 0 <= i < |ts| ==> IcRecords(ts)[i] == ts[i].ic
  {
    if ts != [] {
      var tail := ts[1..];
      assert forall i :: 0 <= i < |tail| ==> tail[i] == ts[i + 1];
      IcRecordsAllIc(tail);
      var rest := IcRecords(tail);
      assert IcRecords(ts) == [ts[0].ic] + rest;
      forall i | 1 <= i < |ts| ensures IcRecords(ts)[i] == ts[i].ic {
        assert IcRecords(ts)[i] == rest[i - 1];
        assert tail[i - 1] == ts[i];
      }
    }
  }

  /** `filter(IC).map(toFront)`, in one pass. */
  function ConvertAll(ts: seq<BackendToken>): seq<FrontToken> {
    if ts == [] then []
    else
      var rest := ConvertAll(ts[1..]);
      if ts[0].IC? then [ToFront(ts[0].ic)] + rest else rest
  }

  /** The one-pass conversion is the conversion of the IC records, entry by entry. */
  lemma {:induction false} ConvertMatchesRecords(ts: seq<BackendToken>)
    ensures |ConvertAll(ts)| == |IcRecords(ts)|
    ensures forall i :: 0 <= i < |ConvertAll(ts)| ==> ConvertAll(ts)[i] == ToFront(IcRecords(ts)[i])
  {
    if ts != [] {
      ConvertMatchesRecords(ts[1..]);
      var rest := ConvertAll(ts[1..]);
      var recs := IcRecords(ts[1..]);
      if ts[0].IC? {
        assert ConvertAll(ts) == [ToFront(ts[0].ic)] + rest;
        assert IcRecords(ts) == [ts[0].ic] + recs;
        forall i | 1 <= i < |ConvertAll(ts)| ensures ConvertAll(ts)[i] == ToFront(IcRecords(ts)[i]) {
          assert ConvertAll(ts)[i] == rest[i - 1];
          assert IcRecords(ts)[i] == recs[i - 1];
        }
      }
    }
  }

  /**
   * `parseTokens`: an `Err` with a message is passed on; an `Err` with an
   * empty message reaches the `Ok` branch and fails there; an `Ok` list
   * becomes the client records of its IC tokens, in order.
   */
  function ParseTokens(data: Result<seq<BackendToken>, string>): (r: Result<seq<FrontToken>, string>)
    ensures data.Err? && data.error != "" ==> r == Err(data.error)
    ensures data.Err? && data.error == "" ==> r == Err(UNDEFINED_OK_MESSAGE)
    ensures data.Ok? ==> r.Ok? && |r.value| == |IcRecords(data.value)|
    ensures data.Ok? ==> forall i :: 0 <= i < |r.value| ==> r.value[i] == ToFront(IcRecords(data.value)[i])
  {
    match data
    case Err(e) => if e != "" then Err(e) else Err(UNDEFINED_OK_MESSAGE)
    case Ok(ts) =>
      ConvertMatchesRecords(ts);
      Ok(ConvertAll(ts))
  }

  /** Parsing a concatenation is concatenating the parses: the filter keeps the order of the input. */
  lemma {:induction false} ParseDistributes(a: seq<BackendToken>, b: seq<BackendToken>)
    ensures ParseTokens(Ok(a + b)) == Ok(ParseTokens(Ok(a)).value + ParseTokens(Ok(b)).value)
  {
    ConvertAllDistributes(a, b);
  }

  lemma {:induction false} ConvertAllDistributes(a: seq<BackendToken>, b: seq<BackendToken>)
    ensures ConvertAll(a + b) == ConvertAll(a) + ConvertAll(b)
  {
    if a == [] {
      assert a + b == b;
    } else {
      ConvertAllDistributes(a[1..], b);
      assert (a + b)[1..] == a[1..] + b;
      assert (a + b)[0] == a[0];
    }
  }

  /** A list of IC tokens only is kept whole: one client record per entry, same canister ids, same order. */
  lemma AllIcKept(ts: seq<BackendToken>)
    requires forall i :: 0 <= i < |ts| ==> ts[i].IC?
    ensures |ParseTokens(Ok(ts)).value| == |ts|
    ensures forall i :: 0 <= i < |ts| ==> ParseTokens(Ok(ts)).value[i].canister_id == ts[i].ic.canister_id
  {
    IcRecordsAllIc(ts);
  }

  /** Tokens of other kinds are dropped without a trace. */
  lemma {:induction false} OthersDropped(ts: seq<BackendToken>)
    requires forall i :: 0 <= i < |ts| ==> ts[i].OtherToken?
    ensures ParseTokens(Ok(ts)) == Ok([])
  {
    if ts != [] {
      OthersDropped(ts[1..]);
    }
  }
}
