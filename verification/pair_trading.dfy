/**
 * Pair trading on the z-score of the spread between two symbols: a
 * three-state hysteresis machine (flat, long the spread, short the
 * spread) that enters beyond the entry threshold and exits inside the
 * exit band, plus the strategy's construction, its spread columns and its
 * parameter check.
 */
module PairTrading {
  import opened Wrappers
  import opened Params
  import opened Series
  import opened Numeric
  import MultiSymbol

  // ---------------------------------------------------------------------
  // Construction

  const Defaults: ParamMap := map[
    "window" := 20.0, "entry_threshold" := 2.0, "exit_threshold" := 0.5,
    "hedge_ratio" := 1.0, "use_dynamic_hedge" := 0.0]

  datatype Strategy = Strategy(
    name: string,
    symbols: seq<string>,
    symbolA: string,
    symbolB: string,
    params: ParamMap,
    positions: MultiSymbol.Positions)

  /**
   * `PairTradingStrategy(symbols, params)`: exactly two symbols, the user's
   * parameters over the defaults, every symbol flat.
   */
  function New(symbols: seq<string>, user: ParamMap): (r: Result<Strategy, string>)
    ensures r.Success? <==> |symbols| == 2
    ensures r.Failure? ==> r.error == "Pair trading requires exactly 2 symbols"
    ensures r.Success? ==>
      && r.value.symbolA == symbols[0] && r.value.symbolB == symbols[1]
      && r.value.symbols == symbols
      && r.value.params.Keys == Defaults.Keys + user.Keys
      && (forall k :: k in user ==> r.value.params[k] == user[k])
      && (forall k :: k in Defaults && k !in user ==> r.value.params[k] == Defaults[k])
      && r.value.positions.Keys == {symbols[0], symbols[1]}
      && (forall s :: s in r.value.positions ==> r.value.positions[s] == 0)
  {
    if |symbols| != 2 then Failure("Pair trading requires exactly 2 symbols")
    else
      assert symbols[0] in symbols && symbols[1] in symbols;
      Success(Strategy("Pair Trading", symbols, symbols[0], symbols[1],
                       Merge(Defaults, user), MultiSymbol.InitialPositions(symbols)))
  }

  // ---------------------------------------------------------------------
  // Parameter check

  /**
   * `validate_params`: the base check on the symbol count, then window,
   * entry, exit, their order and the hedge ratio, the first failing check
   * giving the message; a missing key reads as 0.
   */
  function ValidateParams(symbols: seq<string>, params: ParamMap): (r: Result<bool, string>)
    ensures r.Success? ==> r.value
    ensures |symbols| < 2 ==> r == Failure("Multi-symbol strategy requires at least 2 symbols")
    ensures |symbols| >= 2 && Get(params, "window", 0.0) < 5.0 ==> r == Failure("window must be at least 5")
    ensures (|symbols| >= 2 && Get(params, "window", 0.0) >= 5.0 && Get(params, "entry_threshold", 0.0) <= 0.0)
            ==> r == Failure("entry_threshold must be positive")
    ensures (|symbols| >= 2 && Get(params, "window", 0.0) >= 5.0 && Get(params, "entry_threshold", 0.0) > 0.0
             && Get(params, "exit_threshold", 0.0) < 0.0)
            ==> r == Failure("exit_threshold must be non-negative")
    ensures (|symbols| >= 2 && Get(params, "window", 0.0) >= 5.0 && Get(params, "entry_threshold", 0.0) > 0.0
             && 0.0 <= Get(params, "entry_threshold", 0.0) <= Get(params, "exit_threshold", 0.0))
            ==> r == Failure("exit_threshold must be less than entry_threshold")
    ensures (|symbols| >= 2 && Get(params, "window", 0.0) >= 5.0
             && 0.0 <= Get(params, "exit_threshold", 0.0) < Get(params, "entry_threshold", 0.0)
             && Get(params, "hedge_ratio", 0.0) <= 0.0)
            ==> r == Failure("hedge_ratio must be positive")
  {
    var window := Get(params, "window", 0.0);
    var entry := Get(params, "entry_threshold", 0.0);
    var exit := Get(params, "exit_threshold", 0.0);
    var hedge := Get(params, "hedge_ratio", 0.0);
    var base :- MultiSymbol.ValidateSymbols(symbols);
    if window < 5.0 then Failure("window must be at least 5")
    else if entry <= 0.0 then Failure("entry_threshold must be positive")
    else if exit < 0.0 then Failure("exit_threshold must be non-negative")
    else if exit >= entry then Failure("exit_threshold must be less than entry_threshold")
    else if hedge <= 0.0 then Failure("hedge_ratio must be positive")
    else Success(true)
  }

  /** The parameters are accepted exactly when every individual condition holds. */
  lemma ValidateParamsIff(symbols: seq<string>, params: ParamMap)
    ensures ValidateParams(symbols, params).Success? <==>
      && |symbols| >= 2
      && Get(params, "window", 0.0) >= 5.0
      && Get(params, "entry_threshold", 0.0) > 0.0
      && 0.0 <= Get(params, "exit_threshold", 0.0) < Get(params, "entry_threshold", 0.0)
      && Get(params, "hedge_ratio", 0.0) > 0.0
  {
  }

  /** The symbol count is checked before any parameter. */
  lemma TooFewSymbolsFirst(symbols: seq<string>, params: ParamMap)
    requires |symbols| < 2
    ensures ValidateParams(symbols, params) == Failure("Multi-symbol strategy requires at least 2 symbols")
  {
  }

  /** An exit band as wide as the entry threshold is refused, even with a valid window. */
  lemma ExitNotInsideEntry(symbols: seq<string>, params: ParamMap)
    requires |symbols| >= 2 && Get(params, "window", 0.0) >= 5.0
    requires Get(params, "entry_threshold", 0.0) > 0.0 && Get(params, "exit_threshold", 0.0) >= 0.0
    requires Get(params, "exit_threshold", 0.0) >= Get(params, "entry_threshold", 0.0)
    ensures ValidateParams(symbols, params) == Failure("exit_threshold must be less than entry_threshold")
  {
  }

  /** A freshly built strategy passes its own check whatever the two symbols are. */
  lemma DefaultsAreValid(symbols: seq<string>)
    requires |symbols| == 2
    ensures New(symbols, map[]).Success?
    ensures ValidateParams(symbols, New(symbols, map[]).value.params) == Success(true)
  {
    MergeEmpty(Defaults);
  }

  // ---------------------------------------------------------------------
  // Spread columns

  /** One row of a symbol's frame: its timestamp label and its close. */
  datatype PairRow = PairRow(date: int, close: real)

  /** The columns added to a frame, one entry per row of that frame. */
  datatype SpreadColumns = SpreadColumns(
    spread: Column,
    spreadMean: Column,
    spreadStd: Column,
    zScore: Column,
    hedgeRatio: real)

  /** One symbol's frame: its rows and, once computed, the spread columns. */
  datatype PairFrame = PairFrame(rows: seq<PairRow>, indicators: Option<SpreadColumns>)

  /** Every added column has one entry per row, as a pandas column does. */
  predicate WellFormed(f: PairFrame) {
    f.indicators.Some? ==>
      var c := f.indicators.value;
      |c.spread| == |f.rows| && |c.spreadMean| == |f.rows| && |c.spreadStd| == |f.rows| && |c.zScore| == |f.rows|
  }

  /** No timestamp labels two rows. */
  predicate UniqueDates(rows: seq<PairRow>) {
    forall i, j :: 0 <= i < j < |rows| ==> rows[i].date != rows[j].date
  }

  /** The close a frame holds at label `date` (its first row with that label), or nothing. */
  function CloseAt(rows: seq<PairRow>, date: int): (r: Option<real>)
    ensures r.None? <==> forall i :: 0 <= i < |rows| ==> rows[i].date != date
    ensures r.Some? ==> exists i :: 0 <= i < |rows| && rows[i].date == date && rows[i].close == r.value
    decreases |rows|
  {
    if |rows| == 0 then None
    else if rows[0].date == date then Some(rows[0].close)
    else
      var rest := CloseAt(rows[1..], date);
      assert forall i :: 1 <= i < |rows| ==> rows[i] == rows[1..][i - 1];
      rest
  }

  /** In a frame without repeated labels, the label of row `i` finds row `i`. */
  lemma {:induction false} CloseAtOwnRow(rows: seq<PairRow>, i: nat)
    requires UniqueDates(rows) && i < |rows|
    ensures CloseAt(rows, rows[i].date) == Some(rows[i].close)
    decreases |rows|
  {
    if i > 0 {
      assert UniqueDates(rows[1..]) by {
        forall a, b | 0 <= a < b < |rows[1..]|
          ensures rows[1..][a].date != rows[1..][b].date
        {
          assert rows[1..][a] == rows[a + 1] && rows[1..][b] == rows[b + 1];
        }
      }
      CloseAtOwnRow(rows[1..], i - 1);
      assert rows[1..][i - 1] == rows[i];
    }
  }

  /** One bar of the spread: close A less the hedge ratio times close B. */
  function Hedged(closeA: real, closeB: real, hedge: real): real {
    closeA - hedge * closeB
  }

  /** `close_a - hedge_ratio * close_b`, bar by bar, for frames on one index. */
  function Spread(closeA: seq<real>, closeB: seq<real>, hedge: real): (r: seq<real>)
    requires |closeA| == |closeB|
    ensures |r| == |closeA|
    ensures forall t :: 0 <= t < |r| ==> r[t] + hedge * closeB[t] == closeA[t]
  {
    seq(|closeA|, t requires 0 <= t < |closeA| => Hedged(closeA[t], closeB[t], hedge))
  }

  function Closes(rows: seq<PairRow>): (r: seq<real>)
    ensures |r| == |rows| && forall i :: 0 <= i < |rows| ==> r[i] == rows[i].close
  {
    seq(|rows|, i requires 0 <= i < |rows| => rows[i].close)
  }

  function Dates(rows: seq<PairRow>): (r: seq<int>)
    ensures |r| == |rows| && forall i :: 0 <= i < |rows| ==> r[i] == rows[i].date
  {
    seq(|rows|, i requires 0 <= i < |rows| => rows[i].date)
  }

  /**
   * The spread series read at one label. The subtraction of two pandas
   * series aligns them on their labels, so a label only one frame has
   * gives NaN.
   */
  function SpreadAt(rowsA: seq<PairRow>, rowsB: seq<PairRow>, hedge: real, date: int): (r: Option<real>)
    ensures r.Some? <==> CloseAt(rowsA, date).Some? && CloseAt(rowsB, date).Some?
    ensures r.Some? ==> r.value + hedge * CloseAt(rowsB, date).value == CloseAt(rowsA, date).value
  {
    var a := CloseAt(rowsA, date);
    var b := CloseAt(rowsB, date);
    if a.Some? && b.Some? then Some(Hedged(a.value, b.value, hedge)) else None
  }

  /** The spread series as the column of the frame on `rows`: each row reads its own label. */
  function SpreadColumn(rows: seq<PairRow>, rowsA: seq<PairRow>, rowsB: seq<PairRow>, hedge: real): (r: Column)
    ensures |r| == |rows|
    ensures forall i :: 0 <= i < |rows| ==> r[i] == SpreadAt(rowsA, rowsB, hedge, rows[i].date)
  {
    seq(|rows|, i requires 0 <= i < |rows| => SpreadAt(rowsA, rowsB, hedge, rows[i].date))
  }

  /** A label-indexed series assigned as a frame's column: each row reads its label, NaN when absent. */
  function Reindex(series: map<int, Option<real>>, rows: seq<PairRow>): (r: Column)
    ensures |r| == |rows|
    ensures forall i :: 0 <= i < |rows| ==> (rows[i].date in series ==> r[i] == series[rows[i].date])
    ensures forall i :: 0 <= i < |rows| ==> (rows[i].date !in series ==> r[i].None?)
  {
    seq(|rows|, i requires 0 <= i < |rows| => if rows[i].date in series then series[rows[i].date] else None)
  }

  /**
   * What frame `f`, on rows `rows`, carries once the spread columns are
   * added: one entry per row; a spread exactly at the labels both frames
   * have, giving back A's close with B's close times the ratio; the
   * z-score read at the row's label, NaN when the series lacks it.
   */
  predicate Carries(f: PairFrame, rows: seq<PairRow>, rowsA: seq<PairRow>, rowsB: seq<PairRow>, hedge: real,
                    zScore: map<int, Option<real>>) {
    && f.rows == rows
    && WellFormed(f)
    && f.indicators.Some?
    && var c := f.indicators.value;
    && c.hedgeRatio == hedge
    && (forall i :: 0 <= i < |rows| ==>
          && (c.spread[i].Some? <==> CloseAt(rowsA, rows[i].date).Some? && CloseAt(rowsB, rows[i].date).Some?)
          && (c.spread[i].Some? ==> c.spread[i].value + hedge * CloseAt(rowsB, rows[i].date).value
                                    == CloseAt(rowsA, rows[i].date).value)
          && (rows[i].date in zScore ==> c.zScore[i] == zScore[rows[i].date])
          && (rows[i].date !in zScore ==> c.zScore[i].None?))
  }

  /** The spread columns as the frame on `rows` receives them. */
  function WithColumns(rows: seq<PairRow>, rowsA: seq<PairRow>, rowsB: seq<PairRow>, hedge: real,
                       spreadMean: map<int, Option<real>>, spreadStd: map<int, Option<real>>,
                       zScore: map<int, Option<real>>): (r: PairFrame)
    ensures Carries(r, rows, rowsA, rowsB, hedge, zScore)
  {
    PairFrame(rows, Some(SpreadColumns(SpreadColumn(rows, rowsA, rowsB, hedge), Reindex(spreadMean, rows), Reindex(spreadStd, rows), Reindex(zScore, rows), hedge)))
  }

  /**
   * `calculate_multi_symbol_indicators`. The rolling mean and standard
   * deviation of the spread and its z-score are inputs, each a series
   * indexed by timestamp; `dynamicHedge` is the ratio the regression would
   * return when `use_dynamic_hedge` is set. Both frames get the columns,
   * each read at its own labels. A symbol missing from the dictionary is a
   * `KeyError`.
   */
  function CalculateIndicators(
    st: Strategy, frames: map<string, PairFrame>, dynamicHedge: real,
    spreadMean: map<int, Option<real>>, spreadStd: map<int, Option<real>>,
    zScore: map<int, Option<real>>): (r: Result<map<string, PairFrame>, string>)
    requires "hedge_ratio" in st.params && "use_dynamic_hedge" in st.params
    ensures r.Success? <==> st.symbolA in frames && st.symbolB in frames
    ensures r.Failure? ==> r.error == "KeyError"
    ensures r.Success? ==>
      && r.value.Keys == frames.Keys
      && (forall s :: s in frames ==> r.value[s].rows == frames[s].rows)
      && (forall s :: s in frames && s != st.symbolA && s != st.symbolB ==> r.value[s] == frames[s])
    ensures r.Success? ==>
      var hedge := if st.params["use_dynamic_hedge"] != 0.0 then dynamicHedge else st.params["hedge_ratio"];
      && Carries(r.value[st.symbolA], frames[st.symbolA].rows, frames[st.symbolA].rows, frames[st.symbolB].rows, hedge, zScore)
      && Carries(r.value[st.symbolB], frames[st.symbolB].rows, frames[st.symbolA].rows, frames[st.symbolB].rows, hedge, zScore)
  {
    if st.symbolA !in frames || st.symbolB !in frames then Failure("KeyError")
    else
      var rowsA, rowsB := frames[st.symbolA].rows, frames[st.symbolB].rows;
      var hedge := if st.params["use_dynamic_hedge"] != 0.0 then dynamicHedge else st.params["hedge_ratio"];
      var fA := WithColumns(rowsA, rowsA, rowsB, hedge, spreadMean, spreadStd, zScore);
      var fB := WithColumns(rowsB, rowsA, rowsB, hedge, spreadMean, spreadStd, zScore);
      Success(frames[st.symbolA := fA][st.symbolB := fB])
  }

  /**
   * On frames that share one index (the aligned pair the fetcher returns),
   * both symbols carry the same columns, and the spread is the bar-by-bar
   * spread of the two close columns with the configured ratio.
   */
  lemma FixedHedgeUsed(
    st: Strategy, frames: map<string, PairFrame>, dynamicHedge: real,
    spreadMean: map<int, Option<real>>, spreadStd: map<int, Option<real>>, zScore: map<int, Option<real>>)
    requires "hedge_ratio" in st.params && "use_dynamic_hedge" in st.params
    requires st.params["use_dynamic_hedge"] == 0.0
    requires st.symbolA in frames && st.symbolB in frames
    requires Dates(frames[st.symbolA].rows) == Dates(frames[st.symbolB].rows)
    requires UniqueDates(frames[st.symbolA].rows)
    ensures var r := CalculateIndicators(st, frames, dynamicHedge, spreadMean, spreadStd, zScore);
      && r.Success?
      && r.value[st.symbolA].indicators == r.value[st.symbolB].indicators
      && r.value[st.symbolB].indicators.value.hedgeRatio == st.params["hedge_ratio"]
      && r.value[st.symbolB].indicators.value.spread
         == Lift(Spread(Closes(frames[st.symbolA].rows), Closes(frames[st.symbolB].rows), st.params["hedge_ratio"]))
  {
    var rowsA, rowsB := frames[st.symbolA].rows, frames[st.symbolB].rows;
    var h := st.params["hedge_ratio"];
    SameDatesSameColumns(rowsA, rowsB, rowsA, rowsB, h, spreadMean, spreadStd, zScore);
    AlignedSpread(rowsA, rowsB, h, spreadMean, spreadStd, zScore);
  }

  /** Frames on the same labels receive the same columns. */
  lemma SameDatesSameColumns(x: seq<PairRow>, y: seq<PairRow>, rowsA: seq<PairRow>, rowsB: seq<PairRow>, hedge: real,
                             spreadMean: map<int, Option<real>>, spreadStd: map<int, Option<real>>,
                             zScore: map<int, Option<real>>)
    requires Dates(x) == Dates(y)
    ensures WithColumns(x, rowsA, rowsB, hedge, spreadMean, spreadStd, zScore).indicators
            == WithColumns(y, rowsA, rowsB, hedge, spreadMean, spreadStd, zScore).indicators
  {
    SameDates(x, y);
    var cx := WithColumns(x, rowsA, rowsB, hedge, spreadMean, spreadStd, zScore).indicators.value;
    var cy := WithColumns(y, rowsA, rowsB, hedge, spreadMean, spreadStd, zScore).indicators.value;
    assert cx.spread == cy.spread;
    assert cx.spreadMean == cy.spreadMean;
    assert cx.spreadStd == cy.spreadStd;
    assert cx.zScore == cy.zScore;
  }

  lemma SameDates(x: seq<PairRow>, y: seq<PairRow>)
    requires Dates(x) == Dates(y)
    ensures |x| == |y| && forall i :: 0 <= i < |x| ==> x[i].date == y[i].date
  {
    assert |x| == |Dates(x)| == |Dates(y)| == |y|;
    forall i | 0 <= i < |x|
      ensures x[i].date == y[i].date
    {
      assert x[i].date == Dates(x)[i] == Dates(y)[i] == y[i].date;
    }
  }

  /** With the two frames on one index, the spread column is the bar-by-bar spread of the closes. */
  lemma AlignedSpread(rowsA: seq<PairRow>, rowsB: seq<PairRow>, hedge: real,
                      spreadMean: map<int, Option<real>>, spreadStd: map<int, Option<real>>,
                      zScore: map<int, Option<real>>)
    requires Dates(rowsA) == Dates(rowsB) && UniqueDates(rowsA)
    ensures WithColumns(rowsA, rowsA, rowsB, hedge, spreadMean, spreadStd, zScore).indicators.value.spread
            == Lift(Spread(Closes(rowsA), Closes(rowsB), hedge))
  {
    SameDates(rowsA, rowsB);
    assert UniqueDates(rowsB) by {
      forall i, j | 0 <= i < j < |rowsB|
        ensures rowsB[i].date != rowsB[j].date
      {
        assert rowsA[i].date != rowsA[j].date;
      }
    }
    var column := SpreadColumn(rowsA, rowsA, rowsB, hedge);
    var spread := Lift(Spread(Closes(rowsA), Closes(rowsB), hedge));
    forall i | 0 <= i < |rowsA|
      ensures column[i] == spread[i]
    {
      CloseAtOwnRow(rowsA, i);
      CloseAtOwnRow(rowsB, i);
      SpreadAtBoth(rowsA, rowsB, hedge, rowsA[i].date, rowsA[i].close, rowsB[i].close);
      assert column[i] == SpreadAt(rowsA, rowsB, hedge, rowsA[i].date);
      assert Closes(rowsA)[i] == rowsA[i].close && Closes(rowsB)[i] == rowsB[i].close;
      assert spread[i] == Some(Hedged(rowsA[i].close, rowsB[i].close, hedge));
    }
  }

  /** The label-aligned spread at a label both frames have. */
  lemma SpreadAtBoth(rowsA: seq<PairRow>, rowsB: seq<PairRow>, hedge: real, date: int, a: real, b: real)
    requires CloseAt(rowsA, date) == Some(a) && CloseAt(rowsB, date) == Some(b)
    ensures SpreadAt(rowsA, rowsB, hedge, date) == Some(Hedged(a, b, hedge))
  {
  }

  /** A label the other frame lacks gets a NaN spread, and no z-score when the z-score series lacks it too. */
  lemma UnmatchedLabelIsNaN(
    st: Strategy, frames: map<string, PairFrame>, dynamicHedge: real,
    spreadMean: map<int, Option<real>>, spreadStd: map<int, Option<real>>, zScore: map<int, Option<real>>, i: nat)
    requires "hedge_ratio" in st.params && "use_dynamic_hedge" in st.params
    requires st.symbolA in frames && st.symbolB in frames
    requires i < |frames[st.symbolA].rows|
    requires forall j :: 0 <= j < |frames[st.symbolB].rows| ==> frames[st.symbolB].rows[j].date != frames[st.symbolA].rows[i].date
    ensures var r := CalculateIndicators(st, frames, dynamicHedge, spreadMean, spreadStd, zScore);
      r.Success? && r.value[st.symbolA].indicators.value.spread[i].None?
  {
  }

  // ---------------------------------------------------------------------
  // The signal state machine

  datatype SpreadState = Flat | LongSpread | ShortSpread

  /** What a bar did to the position in the spread. */
  datatype Event = Hold | Enter | Exit

  /** The outcome of one bar: the next state, both symbols' signals and the event. */
  datatype Out = Out(state: SpreadState, a: int, b: int, event: Event)

  /**
   * One iteration of the loop of `generate_multi_symbol_signals`. An
   * undefined z-score is skipped. Flat, a z-score strictly beyond the entry
   * threshold buys the low side and sells the high side; in a position, a
   * z-score strictly inside the exit band reverses the entry and goes flat.
   */
  function PairStep(state: SpreadState, z: Option<real>, entry: real, exit: real): (r: Out)
    ensures IsSignal(r.a) && r.b == -r.a
    ensures r.a != 0 <==> r.event != Hold
    ensures r.event == Hold ==> r.state == state
    ensures r.event == Enter ==> state == Flat && r.state != Flat
    ensures r.event == Exit ==> state != Flat && r.state == Flat
  {
    if z.None? then Out(state, 0, 0, Hold)
    else
      var v := z.value;
      match state
      case Flat =>
        if v < -entry then Out(LongSpread, 1, -1, Enter)
        else if v > entry then Out(ShortSpread, -1, 1, Enter)
        else Out(Flat, 0, 0, Hold)
      case LongSpread =>
        if Abs(v) < exit then Out(Flat, -1, 1, Exit) else Out(state, 0, 0, Hold)
      case ShortSpread =>
        if Abs(v) < exit then Out(Flat, 1, -1, Exit) else Out(state, 0, 0, Hold)
  }

  /** A NaN z-score emits nothing and keeps the state. */
  lemma NaNHolds(state: SpreadState, entry: real, exit: real)
    ensures PairStep(state, None, entry, exit) == Out(state, 0, 0, Hold)
  {
  }

  /** From flat, entry needs a z-score strictly beyond the threshold, on either side. */
  lemma EntryRule(z: real, entry: real, exit: real)
    ensures var r := PairStep(Flat, Some(z), entry, exit);
      && (r.state == LongSpread <==> z < -entry)
      && (r.state == LongSpread ==> r.a == 1 && r.b == -1)
      && (r.state == ShortSpread <==> !(z < -entry) && z > entry)
      && (r.state == ShortSpread ==> r.a == -1 && r.b == 1)
      && (r.state == Flat <==> -entry <= z && z <= entry)
  {
  }

  /**
   * In a position nothing is entered again; only a z-score strictly inside
   * the exit band closes it, with the signals reversed, and long never
   * turns into short directly (nor short into long).
   */
  lemma ExitRule(state: SpreadState, z: real, entry: real, exit: real)
    requires state != Flat
    ensures var r := PairStep(state, Some(z), entry, exit);
      && r.event != Enter
      && (r.event == Exit <==> Abs(z) < exit)
      && (r.state == Flat <==> Abs(z) < exit)
      && (r.state != Flat ==> r.state == state)
      && (state == LongSpread && r.event == Exit ==> r.a == -1 && r.b == 1)
      && (state == ShortSpread && r.event == Exit ==> r.a == 1 && r.b == -1)
  {
  }

  /** The state after every bar, the two signal columns and the events so far. */
  datatype Scan = Scan(state: SpreadState, a: seq<int>, b: seq<int>, events: seq<Event>)

  /** The loop over the bars as a left fold of `PairStep`, starting flat. */
  function Signals(z: Column, entry: real, exit: real): (r: Scan)
    ensures |r.a| == |z| && |r.b| == |z| && |r.events| == |z|
    ensures forall t :: 0 <= t < |z| ==> IsSignal(r.a[t]) && r.b[t] == -r.a[t]
    ensures forall t :: 0 <= t < |z| ==> (r.a[t] != 0 <==> r.events[t] != Hold)
    ensures forall t :: 0 <= t < |z| && z[t].None? ==> r.a[t] == 0 && r.b[t] == 0
    decreases |z|
  {
    if |z| == 0 then Scan(Flat, [], [], [])
    else
      var p := Signals(z[..|z| - 1], entry, exit);
      var o := PairStep(p.state, z[|z| - 1], entry, exit);
      Scan(o.state, p.a + [o.a], p.b + [o.b], p.events + [o.event])
  }

  /** How many times `e` occurs. */
  function Count(events: seq<Event>, e: Event): (r: nat)
    ensures r <= |events|
    decreases |events|
  {
    if |events| == 0 then 0
    else Count(events[..|events| - 1], e) + (if events[|events| - 1] == e then 1 else 0)
  }

  /**
   * Entries and exits alternate, starting with an entry: every exit closes
   * an earlier entry, and at most one entry is still open, exactly when the
   * final state is not flat.
   */
  lemma {:induction false} EntriesAndExitsAlternate(z: Column, entry: real, exit: real)
    ensures var r := Signals(z, entry, exit);
      Count(r.events, Enter) == Count(r.events, Exit) + (if r.state == Flat then 0 else 1)
    decreases |z|
  {
    if |z| > 0 {
      var prefix := z[..|z| - 1];
      EntriesAndExitsAlternate(prefix, entry, exit);
      var p := Signals(prefix, entry, exit);
      var r := Signals(z, entry, exit);
      assert r.events[..|r.events| - 1] == p.events;
    }
  }

  /** Hence the exits never outnumber the entries, which lead by at most one. */
  lemma EntryExitBounds(z: Column, entry: real, exit: real)
    ensures var r := Signals(z, entry, exit);
      Count(r.events, Exit) <= Count(r.events, Enter) <= Count(r.events, Exit) + 1
  {
    EntriesAndExitsAlternate(z, entry, exit);
  }

  /** Some signal falls at a position `n` or later. */
  predicate LateSignal(a: seq<int>, n: nat) {
    exists t :: n <= t < |a| && a[t] != 0
  }

  /** The columns returned for symbol A and symbol B. */
  datatype SignalColumns = SignalColumns(a: seq<int>, b: seq<int>)

  /**
   * Whether the signal loop can run: both frames are present, and A's
   * z-score column exists unless A has no rows, in which case the loop
   * body that reads it never runs.
   */
  predicate CanScan(st: Strategy, frames: map<string, PairFrame>) {
    && st.symbolA in frames && st.symbolB in frames
    && (|frames[st.symbolA].rows| > 0 ==> frames[st.symbolA].indicators.Some?)
  }

  /** The z-scores the loop reads: none for a frame without rows or indicators. */
  function ZScores(f: PairFrame): (r: Column)
    ensures WellFormed(f) && (|f.rows| > 0 ==> f.indicators.Some?) ==> |r| == |f.rows|
  {
    if f.indicators.Some? then f.indicators.value.zScore else []
  }

  /**
   * `generate_multi_symbol_signals`: the loop runs over symbol A's rows,
   * reading A's z-score, and writes each signal at the same position in
   * both frames. Writing past the end of B's frame is an `IndexError`; B's
   * rows past the end of A's keep 0. A missing frame is a `KeyError`, and
   * so is a missing z-score column once the loop reads it.
   */
  function GenerateSignals(st: Strategy, frames: map<string, PairFrame>): (r: Result<SignalColumns, string>)
    requires "entry_threshold" in st.params && "exit_threshold" in st.params
    requires st.symbolA in frames ==> WellFormed(frames[st.symbolA])
    ensures !CanScan(st, frames) ==> r == Failure("KeyError")
    ensures CanScan(st, frames) ==>
      var s := Signals(ZScores(frames[st.symbolA]), st.params["entry_threshold"], st.params["exit_threshold"]);
      var nB := |frames[st.symbolB].rows|;
      && (r.Failure? <==> LateSignal(s.a, nB))
      && (r.Failure? ==> r.error == "IndexError")
      && (r.Success? ==>
            && r.value.a == s.a
            && |r.value.a| == |frames[st.symbolA].rows|
            && |r.value.b| == nB
            && (forall t :: 0 <= t < nB && t < |r.value.a| ==> r.value.b[t] == -r.value.a[t])
            && (forall t :: |r.value.a| <= t < nB ==> r.value.b[t] == 0))
  {
    if !CanScan(st, frames) then Failure("KeyError")
    else
      var s := Signals(ZScores(frames[st.symbolA]), st.params["entry_threshold"], st.params["exit_threshold"]);
      var nB := |frames[st.symbolB].rows|;
      if LateSignal(s.a, nB) then Failure("IndexError")
      else Success(SignalColumns(s.a, seq(nB, t requires 0 <= t < nB => if t < |s.a| then s.b[t] else 0)))
  }

  /**
   * An A frame without rows needs no z-score column: both frames come back
   * with all-zero signal columns.
   */
  lemma EmptyFrameHolds(st: Strategy, frames: map<string, PairFrame>)
    requires "entry_threshold" in st.params && "exit_threshold" in st.params
    requires st.symbolA in frames && st.symbolB in frames && |frames[st.symbolA].rows| == 0
    requires WellFormed(frames[st.symbolA])
    ensures var r := GenerateSignals(st, frames);
      && r.Success? && r.value.a == []
      && |r.value.b| == |frames[st.symbolB].rows|
      && forall t :: 0 <= t < |r.value.b| ==> r.value.b[t] == 0
  {
  }

  /** On frames of equal length the signals always go through, B's column mirroring A's. */
  lemma EqualLengthsMirror(st: Strategy, frames: map<string, PairFrame>)
    requires "entry_threshold" in st.params && "exit_threshold" in st.params
    requires st.symbolA in frames && st.symbolB in frames
    requires WellFormed(frames[st.symbolA]) && frames[st.symbolA].indicators.Some?
    requires |frames[st.symbolA].rows| == |frames[st.symbolB].rows|
    ensures var r := GenerateSignals(st, frames);
      && r.Success?
      && |r.value.a| == |r.value.b| == |frames[st.symbolA].rows|
      && forall t :: 0 <= t < |r.value.a| ==> IsSignal(r.value.a[t]) && r.value.b[t] == -r.value.a[t]
  {
  }
}
