/**
 * The input rules of `DataManager.__init__`: the asset-count check, the sorted,
 * de-duplicated ticker list (`sorted(list(set(tickers)))`) and the trading-day
 * convention.  The market-data download between them is not part of this model.
 */
module Universe {
  import opened Common

  // ---------------------------------------------------------------------------
  // Python's ordering of `str`
  // ---------------------------------------------------------------------------

  /** Python's `a < b` on strings: lexicographic by code point, a proper prefix first. */
  predicate Less(a: string, b: string)
    decreases |a|
  {
    if a == [] then b != []
    else if b == [] then false
    else if a[0] != b[0] then a[0] < b[0]
    else Less(a[1..], b[1..])
  }

  lemma {:induction false} LessIrreflexive(a: string)
    ensures !Less(a, a)
    decreases |a|
  {
    if a != [] {
      LessIrreflexive(a[1..]);
    }
  }

  lemma {:induction false} LessTransitive(a: string, b: string, c: string)
    requires Less(a, b) && Less(b, c)
    ensures Less(a, c)
    decreases |a|
  {
    if a != [] && a[0] == b[0] && b[0] == c[0] {
      LessTransitive(a[1..], b[1..], c[1..]);
    }
  }

  lemma {:induction false} LessTotal(a: string, b: string)
    ensures a == b || Less(a, b) || Less(b, a)
    decreases |a|
  {
    if a != [] && b != [] && a[0] == b[0] {
      LessTotal(a[1..], b[1..]);
      if a[1..] == b[1..] {
        assert a == [a[0]] + a[1..] && b == [b[0]] + b[1..];
      }
    }
  }

  lemma LessAsymmetric(a: string, b: string)
    requires Less(a, b)
    ensures !Less(b, a)
  {
    if Less(b, a) {
      LessTransitive(a, b, a);
      LessIrreflexive(a);
    }
  }

  /** Every earlier element is strictly smaller than every later one. */
  predicate StrictlySorted(s: seq<string>)
  {
    forall i, j :: 0 <= i < j < |s| ==> Less(s[i], s[j])
  }

  // ---------------------------------------------------------------------------
  // sorted(list(set(tickers)))
  // ---------------------------------------------------------------------------

  /** `x` added to an ascending list that holds no duplicates. */
  function Insert(r: seq<string>, x: string): (r': seq<string>)
    requires StrictlySorted(r)
    ensures StrictlySorted(r')
    ensures forall y :: y in r' <==> y in r || y == x
  {
    if r == [] then [x]
    else if x == r[0] then r
    else if Less(x, r[0]) then
      assert forall j :: 0 < j < |r| ==> Less(x, r[j]) by {
        forall j | 0 < j < |r| ensures Less(x, r[j]) {
          LessTransitive(x, r[0], r[j]);
        }
      }
      [x] + r
    else
      LessTotal(x, r[0]);
      var tail := Insert(r[1..], x);
      assert forall y :: y in tail ==> Less(r[0], y) by {
        forall y | y in tail ensures Less(r[0], y) {
          if y != x {
            var j :| 0 <= j < |r[1..]| && r[1..][j] == y;
            assert r[j + 1] == y;
          }
        }
      }
      assert forall y :: y in r <==> y == r[0] || y in r[1..] by {
        assert r == [r[0]] + r[1..];
      }
      [r[0]] + tail
  }

  /** The distinct elements of `s` in ascending order. */
  function SortedSet(s: seq<string>): (r: seq<string>)
    ensures StrictlySorted(r)
    ensures forall y :: y in r <==> y in s
  {
    if s == [] then []
    else
      var r := Insert(SortedSet(s[..|s| - 1]), s[|s| - 1]);
      assert forall y :: y in s <==> y in s[..|s| - 1] || y == s[|s| - 1] by {
        assert s == s[..|s| - 1] + [s[|s| - 1]];
      }
      r
  }

  lemma SameElementsEmpty(a: seq<string>, b: seq<string>)
    requires forall y :: y in a <==> y in b
    ensures a == [] <==> b == []
  {
    if a != [] { assert a[0] in a; }
    if b != [] { assert b[0] in b; }
  }

  /** Strictly sorted lists with the same elements are equal: the ascending,
      duplicate-free order of a set is unique, so `SortedSet` is exactly
      `sorted(set(s))`. */
  lemma {:induction false} StrictlySortedUnique(a: seq<string>, b: seq<string>)
    requires StrictlySorted(a) && StrictlySorted(b)
    requires forall y :: y in a <==> y in b
    ensures a == b
    decreases |a|
  {
    SameElementsEmpty(a, b);
    if a != [] {
      if a[0] != b[0] {
        assert a[0] in a && b[0] in b;
        var i :| 0 <= i < |b| && b[i] == a[0];
        var j :| 0 <= j < |a| && a[j] == b[0];
        assert Less(b[0], a[0]) && Less(a[0], b[0]);
        LessAsymmetric(a[0], b[0]);
      }
      forall y ensures y in a[1..] <==> y in b[1..] {
        if y in a[1..] {
          var j :| 0 <= j < |a[1..]| && a[1..][j] == y;
          assert Less(a[0], a[j + 1]);
          LessIrreflexive(y);
          assert y in b && y != b[0];
          var i :| 0 <= i < |b| && b[i] == y;
          assert b[1..][i - 1] == y;
        }
        if y in b[1..] {
          var j :| 0 <= j < |b[1..]| && b[1..][j] == y;
          assert Less(b[0], b[j + 1]);
          LessIrreflexive(y);
          assert y in a && y != a[0];
          var i :| 0 <= i < |a| && a[i] == y;
          assert a[1..][i - 1] == y;
        }
      }
      StrictlySortedUnique(a[1..], b[1..]);
      assert a == [a[0]] + a[1..] && b == [b[0]] + b[1..];
    }
  }

  // ---------------------------------------------------------------------------
  // DataManager
  // ---------------------------------------------------------------------------

  const MIN_ASSETS: nat := 2
  const MAX_ASSETS: nat := 10
  const CRYPTO_SUFFIX: string := "-USD"

  /** "Please provide between 2 and 10 assets." */
  datatype DataError = InvalidAssetCount

  /** The fields `DataManager.__init__` derives from the requested tickers. */
  datatype DataManager = DataManager(tickers: seq<string>, hasCrypto: bool, tradingDays: nat)

  /** Python's `t.endswith(suffix)`. */
  predicate EndsWith(t: string, suffix: string)
  {
    |suffix| <= |t| && t[|t| - |suffix|..] == suffix
  }

  /** `any(t.endswith('-USD') for t in tickers)`. */
  predicate HasCrypto(tickers: seq<string>)
  {
    exists i :: 0 <= i < |tickers| && EndsWith(tickers[i], CRYPTO_SUFFIX)
  }

  /** The annualisation convention: every day trades for crypto, 252 days otherwise. */
  function TradingDays(hasCrypto: bool): (days: nat)
    ensures days == 365 <==> hasCrypto
    ensures days == 252 <==> !hasCrypto
  {
    if hasCrypto then 365 else 252
  }

  /** `DataManager(tickers)` up to the download: the count is checked on the
      request as given, before duplicates are removed. */
  function NewDataManager(requested: seq<string>): (r: Result<DataManager, DataError>)
    ensures r.Err? <==> |requested| < MIN_ASSETS || |requested| > MAX_ASSETS
    ensures r.Ok? ==> StrictlySorted(r.value.tickers)
    ensures r.Ok? ==> forall t :: t in r.value.tickers <==> t in requested
    ensures r.Ok? ==> r.value.hasCrypto == exists t :: t in requested && EndsWith(t, CRYPTO_SUFFIX)
    ensures r.Ok? ==> (r.value.tradingDays == 365 <==> r.value.hasCrypto)
    ensures r.Ok? ==> (r.value.tradingDays == 252 <==> !r.value.hasCrypto)
  {
    if |requested| < MIN_ASSETS || |requested| > MAX_ASSETS then Err(InvalidAssetCount)
    else
      var tickers := SortedSet(requested);
      var crypto := HasCrypto(tickers);
      assert crypto == exists t :: t in requested && EndsWith(t, CRYPTO_SUFFIX) by {
        if crypto {
          var i :| 0 <= i < |tickers| && EndsWith(tickers[i], CRYPTO_SUFFIX);
          assert tickers[i] in requested;
        }
        if exists t :: t in requested && EndsWith(t, CRYPTO_SUFFIX) {
          var t :| t in requested && EndsWith(t, CRYPTO_SUFFIX);
          var i :| 0 <= i < |tickers| && tickers[i] == t;
        }
      }
      Ok(DataManager(tickers, crypto, TradingDays(crypto)))
  }

  /** The stored tickers are exactly Python's `sorted(set(requested))`: any
      strictly ascending list of the requested names is the stored one. */
  lemma StoredTickersAreSortedSet(requested: seq<string>, sorted: seq<string>)
    requires NewDataManager(requested).Ok?
    requires StrictlySorted(sorted) && forall t :: t in sorted <==> t in requested
    ensures NewDataManager(requested).value.tickers == sorted
  {
    StrictlySortedUnique(NewDataManager(requested).value.tickers, sorted);
  }

  /** Because the count is taken before de-duplication, a request naming one
      asset twice passes the check and leaves a single-asset universe, while
      eleven names of which only two are distinct are refused. */
  lemma CountPrecedesDeduplication()
    ensures NewDataManager(["SPY", "SPY"]) == Ok(DataManager(["SPY"], false, 252))
    ensures NewDataManager(["SPY", "SPY", "SPY", "SPY", "SPY", "SPY", "SPY", "SPY", "SPY", "SPY", "BTC-USD"]).Err?
  {
    var s := ["SPY", "SPY"];
    assert s[..1] == ["SPY"] && ["SPY"][..0] == [];
    assert SortedSet(s) == ["SPY"];
    assert !EndsWith("SPY", CRYPTO_SUFFIX);
  }
}
