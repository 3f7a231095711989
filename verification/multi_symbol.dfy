/**
 * The common part of strategies that trade several symbols at once: one
 * position per symbol, starting flat; a summary counting the open ones;
 * the "at least two symbols" check; and the single-symbol entry points,
 * which such a strategy refuses.
 */
module MultiSymbol {
  import opened Wrappers
  import opened Collections

  type Positions = map<string, int>

  /** `{symbol: 0 for symbol in symbols}` */
  function InitialPositions(symbols: seq<string>): (r: Positions)
    ensures r.Keys == set i | 0 <= i < |symbols| :: symbols[i]
    ensures forall s :: s in r ==> r[s] == 0
  {
    map s | s in symbols :: 0
  }

  /** The symbols with a non-zero position. */
  function Open(positions: Positions): set<string> {
    set s | s in positions && positions[s] != 0
  }

  datatype Summary = Summary(symbols: seq<string>, positions: Positions, numPositions: nat)

  /** `get_position_summary`: the symbols, a copy of the positions and the open count. */
  function PositionSummary(symbols: seq<string>, positions: Positions): (r: Summary)
    ensures r.symbols == symbols && r.positions == positions
    ensures r.numPositions == |set s | s in positions && positions[s] != 0|
    ensures r.numPositions <= |positions|
    ensures r.numPositions == 0 <==> forall s :: s in positions ==> positions[s] == 0
  {
    OpenWithin(positions);
    Summary(symbols, positions, |Open(positions)|)
  }

  lemma OpenWithin(positions: Positions)
    ensures Open(positions) <= positions.Keys
    ensures |Open(positions)| <= |positions|
    ensures |Open(positions)| == 0 <==> forall s :: s in positions ==> positions[s] == 0
  {
    var o := Open(positions);
    assert o <= positions.Keys;
    SubsetCard(o, positions.Keys);
    if o != {} {
      var s :| s in o;
      assert positions[s] != 0;
      assert |o| > 0;
    } else {
      forall s | s in positions
        ensures positions[s] == 0
      {
        assert s !in o;
      }
    }
  }

  /** A freshly built strategy holds nothing. */
  lemma FreshSummary(symbols: seq<string>)
    ensures PositionSummary(symbols, InitialPositions(symbols)).numPositions == 0
  {
  }

  /** Opening a position on a held-flat symbol raises the count by one. */
  lemma OpenOneMore(positions: Positions, s: string, v: int)
    requires s in positions && positions[s] == 0 && v != 0
    ensures |Open(positions[s := v])| == |Open(positions)| + 1
  {
    assert Open(positions[s := v]) == Open(positions) + {s};
  }

  /** The base `validate_params`: an empty list or fewer than two symbols is refused. */
  function ValidateSymbols(symbols: seq<string>): (r: Result<bool, string>)
    ensures r.Success? <==> |symbols| >= 2
    ensures r.Success? ==> r.value
    ensures r.Failure? ==> r.error == "Multi-symbol strategy requires at least 2 symbols"
  {
    if |symbols| < 2 then Failure("Multi-symbol strategy requires at least 2 symbols")
    else Success(true)
  }

  /** The single-symbol `calculate_indicators`, which a multi-symbol strategy refuses. */
  function SingleSymbolIndicators<F>(data: F): (r: Result<F, string>)
    ensures r.Failure?
    ensures r.error == "Multi-symbol strategies should use calculate_multi_symbol_indicators()"
  {
    Failure("Multi-symbol strategies should use calculate_multi_symbol_indicators()")
  }

  /** The single-symbol `generate_signals`, which a multi-symbol strategy refuses. */
  function SingleSymbolSignals<F>(data: F): (r: Result<F, string>)
    ensures r.Failure?
    ensures r.error == "Multi-symbol strategies should use generate_multi_symbol_signals()"
  {
    Failure("Multi-symbol strategies should use generate_multi_symbol_signals()")
  }
}
