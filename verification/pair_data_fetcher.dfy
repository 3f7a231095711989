/**
 * Fetching data for several symbols at once: the guards that refuse a
 * request, and the inner join of the fetched frames on their timestamps.
 * The database read is a parameter `fetch` from symbol to frame.
 */
module PairDataFetcher {
  import opened Wrappers
  import opened Frames

  /**
   * `fetch_pair_data`: two different symbols, each with data, and at least
   * one shared timestamp; the result holds both frames cut to the shared
   * timestamps.
   */
  function FetchPair<R>(a: string, b: string, fetch: string -> Frame<R>): (r: Result<map<string, Frame<R>>, string>)
  {
    if a == b then Failure("Symbols must be different for pair trading")
    else if |fetch(a)| == 0 then Failure("No data found for symbol: " + a)
    else if |fetch(b)| == 0 then Failure("No data found for symbol: " + b)
    else
      var aligned := AlignPair(fetch(a), fetch(b));
      if |aligned.0| == 0 || |aligned.1| == 0 then
        Failure("No overlapping timestamps found between " + a + " and " + b)
      else Success(map[a := aligned.0, b := aligned.1])
  }

  /** The request is refused exactly for equal symbols, an empty side, or no overlap. */
  lemma FetchPairOutcome<R>(a: string, b: string, fetch: string -> Frame<R>)
    ensures FetchPair(a, b, fetch).Success? <==> a != b && fetch(a).Keys * fetch(b).Keys != {}
    ensures a == b ==> FetchPair(a, b, fetch) == Failure("Symbols must be different for pair trading")
    ensures a != b && |fetch(a)| == 0 ==> FetchPair(a, b, fetch) == Failure("No data found for symbol: " + a)
    ensures a != b && |fetch(a)| > 0 && |fetch(b)| == 0 ==> FetchPair(a, b, fetch) == Failure("No data found for symbol: " + b)
    ensures a != b && |fetch(a)| > 0 && |fetch(b)| > 0 && fetch(a).Keys * fetch(b).Keys == {} ==>
              FetchPair(a, b, fetch) == Failure("No overlapping timestamps found between " + a + " and " + b)
  {
    var common := fetch(a).Keys * fetch(b).Keys;
    if a != b && common != {} {
      var aligned := AlignPair(fetch(a), fetch(b));
      assert aligned.0.Keys == common && aligned.1.Keys == common;
      assert |aligned.0| == |common| && |aligned.1| == |common|;
    } else if a != b && |fetch(a)| > 0 && |fetch(b)| > 0 {
      assert AlignPair(fetch(a), fetch(b)).0.Keys == {};
    }
  }

  /**
   * A successful pair is keyed by exactly the two symbols, both frames have
   * the same non-empty index, that index is the intersection of the
   * fetched ones, and every row is the fetched row.
   */
  lemma FetchPairAligned<R>(a: string, b: string, fetch: string -> Frame<R>)
    requires FetchPair(a, b, fetch).Success?
    ensures var d := FetchPair(a, b, fetch).value;
      && d.Keys == {a, b}
      && d[a].Keys == d[b].Keys == fetch(a).Keys * fetch(b).Keys
      && |d[a]| == |d[b]| > 0
      && (forall t :: t in d[a] ==> d[a][t] == fetch(a)[t])
      && (forall t :: t in d[b] ==> d[b][t] == fetch(b)[t])
  {
    AlignPairSameLength(fetch(a), fetch(b));
  }

  /** The first symbol, in request order, whose fetch returned nothing. */
  function FirstEmpty<R>(symbols: seq<string>, fetch: string -> Frame<R>): (r: Option<string>)
    ensures r.None? <==> forall i :: 0 <= i < |symbols| ==> |fetch(symbols[i])| > 0
    ensures r.Some? ==> exists i :: (0 <= i < |symbols| && symbols[i] == r.value && |fetch(symbols[i])| == 0
                                     && forall j :: 0 <= j < i ==> |fetch(symbols[j])| > 0)
    decreases |symbols|
  {
    if |symbols| == 0 then None
    else if |fetch(symbols[0])| == 0 then Some(symbols[0])
    else
      var rest := FirstEmpty(symbols[1..], fetch);
      assert forall i :: 1 <= i < |symbols| ==> symbols[i] == symbols[1..][i - 1];
      if rest.Some? then
        ghost var i :| 0 <= i < |symbols[1..]| && symbols[1..][i] == rest.value && |fetch(symbols[1..][i])| == 0
          && forall j :: 0 <= j < i ==> |fetch(symbols[1..][j])| > 0;
        assert symbols[i + 1] == rest.value;
        assert forall j :: 0 <= j < i + 1 ==> |fetch(symbols[j])| > 0 by {
          forall j | 0 <= j < i + 1 ensures |fetch(symbols[j])| > 0 {
            if j > 0 { assert symbols[j] == symbols[1..][j - 1]; }
          }
        }
        rest
      else rest
  }

  /** Whether every requested symbol's fetch has the timestamp. */
  predicate InEvery<R>(t: int, symbols: seq<string>, fetch: string -> Frame<R>) {
    forall i :: 0 <= i < |symbols| ==> t in fetch(symbols[i])
  }

  /** The fetched frames cut to their common index keep their rows and every shared timestamp. */
  lemma AlignedFetch<R>(symbols: seq<string>, fetch: string -> Frame<R>)
    ensures var d := AlignAll(map s | s in symbols :: fetch(s));
      && (forall s, t :: s in d && t in d[s] ==> d[s][t] == fetch(s)[t])
      && (forall s, t :: s in d && InEvery(t, symbols, fetch) ==> t in d[s])
  {
    var dict := map s | s in symbols :: fetch(s);
    AlignAllSharesIndex(dict);
    forall t | InEvery(t, symbols, fetch)
      ensures forall k :: k in dict ==> t in dict[k]
    {
    }
  }

  /**
   * `fetch_multiple_symbols`: at least two symbols, each with data (the
   * first empty one is named), then every frame cut to the timestamps all
   * of them share.
   */
  function FetchMultiple<R>(symbols: seq<string>, fetch: string -> Frame<R>): (r: Result<map<string, Frame<R>>, string>)
    ensures |symbols| < 2 ==> r == Failure("At least 2 symbols required")
    ensures r.Success? <==> |symbols| >= 2 && forall i :: 0 <= i < |symbols| ==> |fetch(symbols[i])| > 0
    ensures r.Success? ==> r.value.Keys == set i | 0 <= i < |symbols| :: symbols[i]
    ensures r.Success? ==> forall s :: s in r.value ==> r.value[s].Keys <= fetch(s).Keys
    ensures r.Success? ==> forall s, t :: s in r.value && t in r.value[s] ==> r.value[s][t] == fetch(s)[t]
    ensures r.Success? ==> forall s, t :: s in r.value && InEvery(t, symbols, fetch) ==> t in r.value[s]
    ensures |symbols| >= 2 && FirstEmpty(symbols, fetch).Some? ==>
              r == Failure("No data found for symbol: " + FirstEmpty(symbols, fetch).value)
  {
    if |symbols| < 2 then Failure("At least 2 symbols required")
    else match FirstEmpty(symbols, fetch)
      case Some(s) => Failure("No data found for symbol: " + s)
      case None =>
        var dict := map s | s in symbols :: fetch(s);
        AlignedFetch(symbols, fetch);
        Success(AlignAll(dict))
  }

  /** After a successful multi-symbol fetch every frame has the same index. */
  lemma FetchMultipleShareIndex<R>(symbols: seq<string>, fetch: string -> Frame<R>)
    requires FetchMultiple(symbols, fetch).Success?
    ensures var d := FetchMultiple(symbols, fetch).value;
      forall s, s' :: s in d && s' in d ==> d[s].Keys == d[s'].Keys
  {
    AlignAllSharesIndex(map s | s in symbols :: fetch(s));
  }
}
