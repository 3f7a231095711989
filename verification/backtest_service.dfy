/**
 * The service behind the backtest endpoints: merging the caller's
 * parameters over the registered defaults, refusing requests without data,
 * aligning several symbols on their shared timestamps, and turning the
 * simulator's flat trade log into entry/exit records per symbol.
 */
module BacktestService {
  import opened Wrappers
  import opened Params
  import opened Frames
  import opened Backtester
  import opened Collections
  import StrategyRegistry

  // ---------------------------------------------------------------------
  // Trade records

  /**
   * One trade as the service receives it: a dictionary whose keys may be
   * missing. `None` is an absent key.
   */
  datatype RawTrade = RawTrade(
    symbol: Option<string>,
    kind: Option<string>,
    date: Option<int>,
    price: Option<real>,
    shares: Option<int>)

  datatype TradeType = Long | Short

  /** One entry/exit pair in the format the front end reads. */
  datatype FormattedTrade = FormattedTrade(
    symbol: string,
    tradeType: TradeType,
    entryDate: Option<int>,
    exitDate: Option<int>,
    entryPrice: real,
    exitPrice: real,
    returnPct: real,
    shares: int)

  /** `trade.get('symbol', 'UNKNOWN')` */
  function SymbolOf(t: RawTrade): string {
    t.symbol.GetOr("UNKNOWN")
  }

  /** `trade.get('price', 0)` */
  function PriceOf(t: RawTrade): real {
    t.price.GetOr(0.0)
  }

  /** An entry of type BUY or LONG opens a long trade; anything else a short one. */
  predicate OpensLong(t: RawTrade) {
    t.kind == Some("BUY") || t.kind == Some("LONG")
  }

  /**
   * The percentage return of a round trip: the price move in the trade's
   * favour relative to the entry price, or 0 when the entry price is not
   * positive.
   */
  function ReturnPct(long: bool, entryPrice: real, exitPrice: real): (r: real)
    ensures entryPrice <= 0.0 ==> r == 0.0
    ensures entryPrice > 0.0 && long ==> r * entryPrice == (exitPrice - entryPrice) * 100.0
    ensures entryPrice > 0.0 && !long ==> r * entryPrice == (entryPrice - exitPrice) * 100.0
  {
    if entryPrice <= 0.0 then 0.0
    else if long then (exitPrice - entryPrice) / entryPrice * 100.0
    else (entryPrice - exitPrice) / entryPrice * 100.0
  }

  /**
   * A round trip gains exactly when the price moved the trade's way, and
   * the long and short readings of the same prices are opposite.
   */
  lemma ReturnSign(long: bool, entryPrice: real, exitPrice: real)
    requires entryPrice > 0.0
    ensures ReturnPct(long, entryPrice, exitPrice) > 0.0
            <==> (if long then exitPrice > entryPrice else exitPrice < entryPrice)
    ensures ReturnPct(long, entryPrice, exitPrice) == 0.0 <==> exitPrice == entryPrice
    ensures ReturnPct(true, entryPrice, exitPrice) == -ReturnPct(false, entryPrice, exitPrice)
  {
    var r := ReturnPct(long, entryPrice, exitPrice);
    var d := if long then exitPrice - entryPrice else entryPrice - exitPrice;
    assert r * entryPrice == d * 100.0;
    if r > 0.0 {
      assert r * entryPrice > 0.0;
    } else if r < 0.0 {
      assert r * entryPrice < 0.0;
    }
  }

  /** The record built from an entry and the trade that follows it. */
  function Record(symbol: string, entry: RawTrade, exit: RawTrade): FormattedTrade {
    var long := OpensLong(entry);
    FormattedTrade(
      symbol,
      if long then Long else Short,
      entry.date,
      exit.date,
      PriceOf(entry),
      PriceOf(exit),
      ReturnPct(long, PriceOf(entry), PriceOf(exit)),
      entry.shares.GetOr(0))
  }

  /**
   * One symbol's trades taken two at a time, (0, 1), (2, 3), ...; a
   * trailing unpaired trade is dropped.
   */
  function PairUp(symbol: string, ts: seq<RawTrade>): (r: seq<FormattedTrade>)
    ensures |r| == |ts| / 2
    ensures forall j :: 0 <= j < |r| ==> r[j] == Record(symbol, ts[2 * j], ts[2 * j + 1])
    decreases |ts|
  {
    if |ts| < 2 then []
    else
      var rest := PairUp(symbol, ts[2..]);
      ShiftPairs(symbol, ts, rest);
      [Record(symbol, ts[0], ts[1])] + rest
  }

  /** The pairs of the trades after the first two are the later pairs of all the trades. */
  lemma ShiftPairs(symbol: string, ts: seq<RawTrade>, rest: seq<FormattedTrade>)
    requires |ts| >= 2 && |rest| == |ts[2..]| / 2
    requires forall j :: 0 <= j < |rest| ==> rest[j] == Record(symbol, ts[2..][2 * j], ts[2..][2 * j + 1])
    ensures forall j :: 0 <= j < |rest| ==> rest[j] == Record(symbol, ts[2 * (j + 1)], ts[2 * (j + 1) + 1])
  {
    forall j | 0 <= j < |rest|
      ensures rest[j] == Record(symbol, ts[2 * (j + 1)], ts[2 * (j + 1) + 1])
    {
      assert ts[2..][2 * j] == ts[2 * j + 2] && ts[2..][2 * j + 1] == ts[2 * j + 3];
    }
  }

  /**
   * The pairing loop of `_transform_trades`: `i` walks the trades in steps
   * of two while a successor exists.
   */
  method PairLoop(symbol: string, ts: seq<RawTrade>) returns (out: seq<FormattedTrade>)
    ensures |out| == |ts| / 2
    ensures forall j :: 0 <= j < |out| ==> out[j] == Record(symbol, ts[2 * j], ts[2 * j + 1])
  {
    out := [];
    var i := 0;
    while i < |ts| - 1
      invariant 0 <= i <= |ts| && i % 2 == 0
      invariant |out| == i / 2
      invariant forall j :: 0 <= j < |out| ==> out[j] == Record(symbol, ts[2 * j], ts[2 * j + 1])
      invariant i >= |ts| - 1 ==> i / 2 == |ts| / 2
      decreases |ts| - i
    {
      out := out + [Record(symbol, ts[i], ts[i + 1])];
      i := i + 2;
    }
  }

  /** The trades of one symbol, in log order. */
  function Group(trades: seq<RawTrade>, symbol: string): (r: seq<RawTrade>)
    ensures |r| <= |trades|
    ensures forall x :: x in r ==> x in trades && SymbolOf(x) == symbol
    ensures forall i :: 0 <= i < |trades| && SymbolOf(trades[i]) == symbol ==> trades[i] in r
    decreases |trades|
  {
    if |trades| == 0 then []
    else
      var rest := Group(trades[1..], symbol);
      assert forall i :: 1 <= i < |trades| ==> trades[i] == trades[1..][i - 1];
      (if SymbolOf(trades[0]) == symbol then [trades[0]] else []) + rest
  }

  /** Grouping a concatenated log groups each part and keeps them in order. */
  lemma {:induction false} GroupAppend(a: seq<RawTrade>, b: seq<RawTrade>, symbol: string)
    ensures Group(a + b, symbol) == Group(a, symbol) + Group(b, symbol)
    decreases |a|
  {
    if |a| == 0 {
      assert a + b == b;
    } else {
      assert (a + b)[0] == a[0];
      assert (a + b)[1..] == a[1..] + b;
      GroupAppend(a[1..], b, symbol);
    }
  }

  /** A one-trade log groups to that trade exactly when it carries the symbol. */
  lemma GroupSingle(t: RawTrade, symbol: string)
    ensures Group([t], symbol) == if SymbolOf(t) == symbol then [t] else []
  {
    assert [t][1..] == [];
  }

  /**
   * Together, `GroupAppend` and `GroupSingle` fix the group as the log's
   * subsequence of that symbol: each trade kept once, where it stands.
   */
  lemma {:induction false} GroupIsFilter(trades: seq<RawTrade>, symbol: string, i: nat)
    requires i < |trades|
    ensures Group(trades, symbol)
            == Group(trades[..i], symbol)
               + (if SymbolOf(trades[i]) == symbol then [trades[i]] else [])
               + Group(trades[i + 1..], symbol)
  {
    var before, after := trades[..i], trades[i + 1..];
    var tail := [trades[i]] + after;
    assert trades == before + tail;
    GroupAppend(before, tail, symbol);
    GroupAppend([trades[i]], after, symbol);
    GroupSingle(trades[i], symbol);
  }

  /** Trades that all carry the same symbol form a single group. */
  lemma {:induction false} GroupOfUniform(trades: seq<RawTrade>, symbol: string)
    requires forall i :: 0 <= i < |trades| ==> SymbolOf(trades[i]) == symbol
    ensures Group(trades, symbol) == trades
    decreases |trades|
  {
    if |trades| > 0 {
      GroupOfUniform(trades[1..], symbol);
    }
  }

  /** A symbol no trade carries has an empty group. */
  lemma {:induction false} GroupOfAbsent(trades: seq<RawTrade>, symbol: string)
    requires forall i :: 0 <= i < |trades| ==> SymbolOf(trades[i]) != symbol
    ensures Group(trades, symbol) == []
    decreases |trades|
  {
    if |trades| > 0 {
      assert forall i :: 0 <= i < |trades[1..]| ==> trades[1..][i] == trades[i + 1];
      GroupOfAbsent(trades[1..], symbol);
    }
  }

  /** Some trade of the log carries `symbol`. */
  predicate Mentions(trades: seq<RawTrade>, symbol: string) {
    exists i :: 0 <= i < |trades| && SymbolOf(trades[i]) == symbol
  }

  /** `symbol` shows up in the log strictly before `later` first does. */
  predicate ShowsUpBefore(trades: seq<RawTrade>, symbol: string, later: string) {
    exists i :: 0 <= i < |trades| && SymbolOf(trades[i]) == symbol
                && forall j :: 0 <= j <= i ==> SymbolOf(trades[j]) != later
  }

  /** The symbols of the log, each once, in the order of first appearance. */
  function SymbolOrder(trades: seq<RawTrade>): (r: seq<string>)
    ensures Distinct(r)
    ensures forall s :: s in r <==> Mentions(trades, s)
    decreases |trades|
  {
    if |trades| == 0 then []
    else
      var n := |trades| - 1;
      var seen := SymbolOrder(trades[..n]);
      var s := SymbolOf(trades[n]);
      MentionsExtend(trades, n);
      if s in seen then seen else seen + [s]
  }

  lemma MentionsExtend(trades: seq<RawTrade>, n: nat)
    requires n < |trades|
    ensures forall s :: Mentions(trades[..n + 1], s) <==> Mentions(trades[..n], s) || SymbolOf(trades[n]) == s
  {
    forall s | Mentions(trades[..n + 1], s)
      ensures Mentions(trades[..n], s) || SymbolOf(trades[n]) == s
    {
      var i :| 0 <= i < n + 1 && SymbolOf(trades[..n + 1][i]) == s;
      if i < n {
        assert trades[..n][i] == trades[..n + 1][i];
      }
    }
    forall s | Mentions(trades[..n], s)
      ensures Mentions(trades[..n + 1], s)
    {
      var i :| 0 <= i < n && SymbolOf(trades[..n][i]) == s;
      assert trades[..n + 1][i] == trades[..n][i];
    }
    assert trades[..n + 1][n] == trades[n];
    assert trades[..n + 1] == trades[..n + 1];
  }

  /** The order is that of first appearance: an earlier entry shows up in the log before a later one. */
  lemma {:induction false} SymbolOrderFirstAppearance(trades: seq<RawTrade>, a: nat, b: nat)
    requires a < b < |SymbolOrder(trades)|
    ensures ShowsUpBefore(trades, SymbolOrder(trades)[a], SymbolOrder(trades)[b])
    decreases |trades|
  {
    var n := |trades| - 1;
    var prefix := trades[..n];
    var seen := SymbolOrder(prefix);
    var s := SymbolOf(trades[n]);
    var r := SymbolOrder(trades);
    assert forall i :: 0 <= i < n ==> prefix[i] == trades[i];
    if s in seen || b < |seen| {
      assert r[..|seen|] == seen;
      SymbolOrderFirstAppearance(prefix, a, b);
      var i :| 0 <= i < |prefix| && SymbolOf(prefix[i]) == seen[a]
               && forall j :: 0 <= j <= i ==> SymbolOf(prefix[j]) != seen[b];
      assert SymbolOf(trades[i]) == r[a];
    } else {
      assert r[b] == s && r[a] == seen[a];
      assert seen[a] in seen;
      var i :| 0 <= i < |prefix| && SymbolOf(prefix[i]) == seen[a];
      assert SymbolOf(trades[i]) == r[a];
    }
  }

  /** The records of every symbol in `symbols`, one symbol after the other. */
  function PairAll(symbols: seq<string>, trades: seq<RawTrade>): (r: seq<FormattedTrade>)
    ensures forall x :: x in r ==> x.symbol in symbols
    ensures |r| == PairCount(symbols, trades)
    decreases |symbols|
  {
    if |symbols| == 0 then []
    else
      var head := PairUp(symbols[0], Group(trades, symbols[0]));
      head + PairAll(symbols[1..], trades)
  }

  /** The number of pairs each symbol's group yields, summed over `symbols`. */
  function PairCount(symbols: seq<string>, trades: seq<RawTrade>): nat
    decreases |symbols|
  {
    if |symbols| == 0 then 0
    else |Group(trades, symbols[0])| / 2 + PairCount(symbols[1..], trades)
  }

  /** The records of a concatenated symbol list are those of each part, one part after the other. */
  lemma {:induction false} PairAllAppend(s1: seq<string>, s2: seq<string>, trades: seq<RawTrade>)
    ensures PairAll(s1 + s2, trades) == PairAll(s1, trades) + PairAll(s2, trades)
    decreases |s1|
  {
    if |s1| == 0 {
      assert s1 + s2 == s2;
    } else {
      assert (s1 + s2)[0] == s1[0];
      assert (s1 + s2)[1..] == s1[1..] + s2;
      PairAllAppend(s1[1..], s2, trades);
    }
  }

  /** A single symbol contributes its own group, paired. */
  lemma PairAllSingle(symbol: string, trades: seq<RawTrade>)
    ensures PairAll([symbol], trades) == PairUp(symbol, Group(trades, symbol))
  {
    assert [symbol][1..] == [];
  }

  /**
   * `_transform_trades`: group the log by symbol in order of first
   * appearance, then pair each group's trades.
   */
  function TransformTrades(trades: seq<RawTrade>): (r: seq<FormattedTrade>)
    ensures |trades| == 0 ==> r == []
    ensures forall x :: x in r ==> exists i :: 0 <= i < |trades| && SymbolOf(trades[i]) == x.symbol
  {
    if |trades| == 0 then [] else PairAll(SymbolOrder(trades), trades)
  }

  /** The records of one symbol, in output order. */
  function OfSymbol(records: seq<FormattedTrade>, symbol: string): (r: seq<FormattedTrade>)
    decreases |records|
  {
    if |records| == 0 then []
    else (if records[0].symbol == symbol then [records[0]] else []) + OfSymbol(records[1..], symbol)
  }

  lemma {:induction false} OfSymbolConcat(a: seq<FormattedTrade>, b: seq<FormattedTrade>, symbol: string)
    ensures OfSymbol(a + b, symbol) == OfSymbol(a, symbol) + OfSymbol(b, symbol)
    decreases |a|
  {
    if |a| > 0 {
      var head := if a[0].symbol == symbol then [a[0]] else [];
      assert (a + b)[0] == a[0];
      assert (a + b)[1..] == a[1..] + b;
      OfSymbolConcat(a[1..], b, symbol);
      calc {
        OfSymbol(a + b, symbol);
        head + OfSymbol(a[1..] + b, symbol);
        head + (OfSymbol(a[1..], symbol) + OfSymbol(b, symbol));
        (head + OfSymbol(a[1..], symbol)) + OfSymbol(b, symbol);
        OfSymbol(a, symbol) + OfSymbol(b, symbol);
      }
    } else {
      assert a + b == b;
    }
  }

  lemma {:induction false} OfSymbolUniform(records: seq<FormattedTrade>, s: string, symbol: string)
    requires forall i :: 0 <= i < |records| ==> records[i].symbol == s
    ensures OfSymbol(records, symbol) == if s == symbol then records else []
    decreases |records|
  {
    if |records| > 0 {
      OfSymbolUniform(records[1..], s, symbol);
    }
  }

  lemma {:induction false} PairAllOfSymbol(symbols: seq<string>, trades: seq<RawTrade>, symbol: string)
    requires Distinct(symbols)
    ensures OfSymbol(PairAll(symbols, trades), symbol)
            == if symbol in symbols then PairUp(symbol, Group(trades, symbol)) else []
    decreases |symbols|
  {
    if |symbols| > 0 {
      var head := PairUp(symbols[0], Group(trades, symbols[0]));
      OfSymbolConcat(head, PairAll(symbols[1..], trades), symbol);
      OfSymbolUniform(head, symbols[0], symbol);
      assert Distinct(symbols[1..]) by {
        forall a, b | 0 <= a < b < |symbols[1..]|
          ensures symbols[1..][a] != symbols[1..][b]
        {
          assert symbols[1..][a] == symbols[a + 1] && symbols[1..][b] == symbols[b + 1];
        }
      }
      PairAllOfSymbol(symbols[1..], trades, symbol);
      if symbol == symbols[0] {
        assert symbol !in symbols[1..] by {
          forall j | 0 <= j < |symbols[1..]|
            ensures symbols[1..][j] != symbol
          {
            assert symbols[1..][j] == symbols[j + 1];
          }
        }
      } else {
        assert symbol in symbols <==> symbol in symbols[1..];
      }
    }
  }

  /**
   * Seen one symbol at a time, the transformed log is that symbol's trades
   * paired in log order: grouping never mixes symbols and never reorders.
   */
  lemma TransformPerSymbol(trades: seq<RawTrade>, symbol: string)
    ensures OfSymbol(TransformTrades(trades), symbol) == PairUp(symbol, Group(trades, symbol))
  {
    if |trades| > 0 {
      var order := SymbolOrder(trades);
      PairAllOfSymbol(order, trades, symbol);
      if symbol !in order {
        GroupOfAbsent(trades, symbol);
      }
    }
  }

  /** A log without symbols is one group named UNKNOWN, paired in order. */
  lemma UnlabelledTrades(trades: seq<RawTrade>)
    requires forall i :: 0 <= i < |trades| ==> trades[i].symbol.None?
    ensures TransformTrades(trades) == PairUp("UNKNOWN", trades)
    ensures |TransformTrades(trades)| == |trades| / 2
  {
    if |trades| > 0 {
      GroupOfUniform(trades, "UNKNOWN");
      SymbolOrderUniform(trades, "UNKNOWN");
      assert PairAll(["UNKNOWN"], trades) == PairUp("UNKNOWN", trades) + PairAll([], trades);
    }
  }

  /** A non-empty log whose trades share one symbol names just that symbol. */
  lemma {:induction false} SymbolOrderUniform(trades: seq<RawTrade>, symbol: string)
    requires |trades| > 0
    requires forall i :: 0 <= i < |trades| ==> SymbolOf(trades[i]) == symbol
    ensures SymbolOrder(trades) == [symbol]
    decreases |trades|
  {
    var n := |trades| - 1;
    if n > 0 {
      SymbolOrderUniform(trades[..n], symbol);
    }
  }

  // ---------------------------------------------------------------------
  // From the simulator's log

  /** The dictionary the simulator logs for one of its trades: it has no symbol key. */
  function Logged(t: Trade): RawTrade {
    RawTrade(None, Some(if t.kind == Buy then "BUY" else "SELL"), Some(t.date), Some(t.price), Some(t.shares))
  }

  function LoggedAll(trades: seq<Trade>): (r: seq<RawTrade>)
    ensures |r| == |trades|
    ensures forall i :: 0 <= i < |r| ==> r[i] == Logged(trades[i])
  {
    seq(|trades|, i requires 0 <= i < |trades| => Logged(trades[i]))
  }

  /**
   * The record of a simulator round trip: a LONG trade on the UNKNOWN
   * symbol, with the BUY's date, price and shares, the SELL's date and
   * price, and the long return between the two prices.
   */
  predicate LongRecordOf(rec: FormattedTrade, entry: Trade, exit: Trade) {
    && rec.symbol == "UNKNOWN" && rec.tradeType == Long
    && rec.entryDate == Some(entry.date) && rec.exitDate == Some(exit.date)
    && rec.entryPrice == entry.price && rec.exitPrice == exit.price
    && rec.shares == entry.shares
    && rec.returnPct * rec.entryPrice == (rec.exitPrice - rec.entryPrice) * 100.0
  }

  lemma BuyRecord(entry: Trade, exit: Trade)
    requires entry.kind == Buy && entry.price > 0.0
    ensures LongRecordOf(Record("UNKNOWN", Logged(entry), Logged(exit)), entry, exit)
  {
    assert OpensLong(Logged(entry));
  }

  /** In an alternating ledger, the first trade of every pair is a BUY. */
  lemma PairOpensWithBuy(trades: seq<Trade>, j: nat)
    requires Alternates(trades) && 2 * j < |trades|
    ensures trades[2 * j].kind == Buy
  {
    assert (2 * j) % 2 == 0;
  }

  /** A log that alternates BUY and SELL at positive prices transforms into LONG records, one per pair. */
  lemma LoggedLedgerIsLong(trades: seq<Trade>)
    requires Alternates(trades)
    requires forall i :: 0 <= i < |trades| ==> trades[i].price > 0.0
    ensures |TransformTrades(LoggedAll(trades))| == |trades| / 2
    ensures forall j :: 0 <= j < |TransformTrades(LoggedAll(trades))| ==>
              LongRecordOf(TransformTrades(LoggedAll(trades))[j], trades[2 * j], trades[2 * j + 1])
  {
    var logged := LoggedAll(trades);
    UnlabelledTrades(logged);
    var r := PairUp("UNKNOWN", logged);
    forall j | 0 <= j < |r|
      ensures LongRecordOf(r[j], trades[2 * j], trades[2 * j + 1])
    {
      assert r[j] == Record("UNKNOWN", logged[2 * j], logged[2 * j + 1]);
      PairOpensWithBuy(trades, j);
      BuyRecord(trades[2 * j], trades[2 * j + 1]);
    }
  }

  /**
   * A single-symbol run transforms into one LONG record per BUY/SELL pair,
   * each priced at the two trades and holding the bought shares.
   */
  lemma SimulatorTradesAreLong(bars: seq<Bar>, initialCapital: real, k: Costs)
    requires ValidBars(bars) && SaneCosts(k) && initialCapital >= 0.0
    ensures |TransformTrades(LoggedAll(Run(bars, initialCapital, k).trades))| == |Run(bars, initialCapital, k).trades| / 2
    ensures forall j :: 0 <= j < |TransformTrades(LoggedAll(Run(bars, initialCapital, k).trades))| ==>
              LongRecordOf(TransformTrades(LoggedAll(Run(bars, initialCapital, k).trades))[j],
                           Run(bars, initialCapital, k).trades[2 * j], Run(bars, initialCapital, k).trades[2 * j + 1])
  {
    RunClosesEverything(bars, initialCapital, k);
    LoggedLedgerIsLong(Run(bars, initialCapital, k).trades);
  }

  // ---------------------------------------------------------------------
  // Alignment and the execute entry points

  /** `_align_dataframes`: nothing for an empty dictionary, else every frame cut to the shared index. */
  function AlignDataframes<R>(dict: map<string, Frame<R>>): (r: map<string, Frame<R>>)
    ensures |dict| == 0 ==> r == map[]
    ensures r.Keys == dict.Keys
    ensures forall s, s' :: s in r && s' in r ==> r[s].Keys == r[s'].Keys
    ensures forall s :: s in r ==> r[s].Keys <= dict[s].Keys
    ensures forall s :: s in r ==> forall t :: t in r[s] ==> r[s][t] == dict[s][t]
  {
    if |dict| == 0 then map[]
    else
      AlignAllSharesIndex(dict);
      AlignAll(dict)
  }

  /** A timestamp every frame has survives alignment. */
  lemma AlignKeepsShared<R>(dict: map<string, Frame<R>>, t: int)
    requires forall s :: s in dict ==> t in dict[s]
    ensures forall s :: s in AlignDataframes(dict) ==> t in AlignDataframes(dict)[s]
  {
    if |dict| > 0 {
      AlignAllSharesIndex(dict);
    }
  }

  /** One fetched row: its timestamp and close. */
  datatype Row = Row(date: int, close: real)

  /** The rows with the strategy's signal column; a row without a signal holds (signal 0). */
  function WithSignals(rows: seq<Row>, signals: seq<int>): (r: seq<Bar>)
    ensures |r| == |rows|
    ensures forall i :: 0 <= i < |r| ==> r[i].date == rows[i].date && r[i].close == rows[i].close
    ensures forall i :: 0 <= i < |r| && i < |signals| ==> r[i].signal == signals[i]
  {
    seq(|rows|, i requires 0 <= i < |rows| => Bar(rows[i].date, rows[i].close, if i < |signals| then signals[i] else 0))
  }

  /** What the single-symbol endpoint returns. */
  datatype SingleOutcome = SingleOutcome(params: ParamMap, report: Report, trades: seq<FormattedTrade>)

  /**
   * `execute_single_symbol_backtest`: look the strategy up (an unknown id
   * raises the registry's `KeyError`), merge the parameters, fetch the
   * symbol's rows, refuse an empty fetch, run the strategy and the
   * simulator (commission as given, no slippage) and transform the trades.
   * The database read and the strategy class's signal generation are
   * parameters.
   */
  function ExecuteSingle(
    reg: StrategyRegistry.Registry,
    strategyId: string,
    symbol: string,
    user: Option<ParamMap>,
    fetch: string -> seq<Row>,
    strategy: (StrategyRegistry.StrategyClass, ParamMap, seq<Row>) -> seq<int>,
    initialCapital: real,
    commission: real,
    annualized: real): (r: Result<SingleOutcome, string>)
    requires initialCapital > 0.0 && 0.0 <= commission <= 0.1
    requires forall i :: 0 <= i < |fetch(symbol)| ==> fetch(symbol)[i].close > 0.0
    ensures r.Failure? <==> strategyId !in reg || |fetch(symbol)| == 0
    ensures strategyId !in reg ==> r == Failure("Strategy '" + strategyId + "' not found")
    ensures strategyId in reg && |fetch(symbol)| == 0 ==> r == Failure("No data available for " + symbol)
    ensures r.Success? ==> r.value.params == Merge(reg[strategyId].params, user.GetOr(map[]))
    ensures r.Success? ==> |r.value.report.equityCurve| == |fetch(symbol)|
    ensures r.Success? ==> |r.value.trades| == r.value.report.totalTrades / 2
    ensures r.Success? ==> forall j :: 0 <= j < |r.value.trades| ==> r.value.trades[j].tradeType == Long
  {
    var info :- StrategyRegistry.GetInfo(reg, strategyId);
    var params := Merge(info.params, user.GetOr(map[]));
    var rows := fetch(symbol);
    if |rows| == 0 then Failure("No data available for " + symbol)
    else
      var bars := WithSignals(rows, strategy(info.cls, params, rows));
      var k := Costs(commission, 0.0);
      var report := Backtest(bars, initialCapital, k, annualized);
      SimulatorTradesAreLong(bars, initialCapital, k);
      Success(SingleOutcome(params, report, TransformTrades(LoggedAll(report.trades))))
  }

  /** The symbols whose fetch returned rows, each with its frame. */
  function Fetched<R>(symbols: seq<string>, fetch: string -> Frame<R>): (r: map<string, Frame<R>>)
    ensures forall s :: s in r <==> s in symbols && |fetch(s)| > 0
    ensures forall s :: s in r ==> r[s] == fetch(s)
  {
    map s | s in symbols && |fetch(s)| > 0 :: fetch(s)
  }

  /** What the multi-symbol endpoint hands to its simulator. */
  datatype MultiInput<R> = MultiInput(params: ParamMap, symbols: seq<string>, aligned: map<string, Frame<R>>)

  /**
   * `execute_multi_symbol_backtest` up to the simulator call: look the
   * strategy up (an unknown id raises the registry's `KeyError`), merge the
   * parameters, keep the symbols that have data, refuse the request unless
   * that is as many symbols as were asked for, and align the frames.
   */
  function ExecuteMulti<R>(
    reg: StrategyRegistry.Registry,
    strategyId: string,
    symbols: seq<string>,
    user: Option<ParamMap>,
    fetch: string -> Frame<R>): (r: Result<MultiInput<R>, string>)
    ensures r.Failure? <==> strategyId !in reg || |Fetched(symbols, fetch)| != |symbols|
    ensures strategyId !in reg ==> r == Failure("Strategy '" + strategyId + "' not found")
    ensures strategyId in reg && |Fetched(symbols, fetch)| != |symbols| ==> r == Failure("Could not fetch data for all symbols")
    ensures r.Success? ==> r.value.params == Merge(reg[strategyId].params, user.GetOr(map[]))
    ensures r.Success? ==> r.value.symbols == symbols
    ensures r.Success? ==> r.value.aligned == AlignDataframes(Fetched(symbols, fetch))
  {
    var info :- StrategyRegistry.GetInfo(reg, strategyId);
    var params := Merge(info.params, user.GetOr(map[]));
    var dict := Fetched(symbols, fetch);
    if |dict| != |symbols| then Failure("Could not fetch data for all symbols")
    else Success(MultiInput(params, symbols, AlignDataframes(dict)))
  }

  /**
   * The multi-symbol request goes through exactly when the strategy is
   * registered and the symbols are pairwise different and each has data; a repeated symbol is always
   * refused, since the dictionary holds it once.
   */
  lemma MultiAcceptsExactly<R>(reg: StrategyRegistry.Registry, strategyId: string, symbols: seq<string>, fetch: string -> Frame<R>)
    ensures ExecuteMulti(reg, strategyId, symbols, None, fetch).Success?
            <==> strategyId in reg && Distinct(symbols)
                 && (forall i :: 0 <= i < |symbols| ==> |fetch(symbols[i])| > 0)
  {
    var dict := Fetched(symbols, fetch);
    var all := set i | 0 <= i < |symbols| :: symbols[i];
    DistinctCount(symbols);
    assert dict.Keys <= all;
    SubsetCard(dict.Keys, all);
    if forall i :: 0 <= i < |symbols| ==> |fetch(symbols[i])| > 0 {
      assert dict.Keys == all;
    } else {
      var i :| 0 <= i < |symbols| && |fetch(symbols[i])| == 0;
      assert symbols[i] in all && symbols[i] !in dict.Keys;
      ProperSubsetCard(dict.Keys, all, symbols[i]);
    }
  }
}
