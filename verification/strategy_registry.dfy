/**
 * The registry of strategies the API offers: a dictionary from strategy id
 * to the class, display data, default parameters, kind and default symbols
 * of each strategy, with the seven strategies registered at start-up.
 */
module StrategyRegistry {
  import opened Wrappers
  import opened Params
  import MaCrossover
  import RsiStrategy
  import MacdStrategy
  import BollingerBands
  import MeanReversion
  import MultiIndicator
  import PairTrading

  /** A strategy class as the registry sees it: its printed name and whether it derives from the strategy base class. */
  datatype StrategyClass = StrategyClass(name: string, isStrategy: bool)

  /** One registry entry. */
  datatype Entry = Entry(
    cls: StrategyClass,
    name: string,
    description: string,
    params: ParamMap,
    kind: string,
    defaultSymbols: seq<string>)

  /** An entry as `list_all` shows it: everything but the class. */
  datatype Listing = Listing(
    name: string,
    description: string,
    params: ParamMap,
    kind: string,
    defaultSymbols: seq<string>)

  type Registry = map<string, Entry>

  const SingleSymbol := "single_symbol"
  const MultiSymbolKind := "multi_symbol"

  /**
   * `register`: refuse a class that is not a strategy; otherwise store the
   * entry under the id, replacing any earlier one. Missing default symbols
   * become the empty list.
   */
  function Register(
    reg: Registry,
    id: string,
    cls: StrategyClass,
    name: string,
    description: string,
    params: ParamMap,
    kind: string,
    defaultSymbols: Option<seq<string>>): (r: Result<Registry, string>)
    ensures r.Failure? <==> !cls.isStrategy
    ensures r.Failure? ==> r.error == cls.name + " must inherit from BaseStrategy"
    ensures r.Success? ==> r.value.Keys == reg.Keys + {id}
    ensures r.Success? ==> r.value[id] == Entry(cls, name, description, params, kind, defaultSymbols.GetOr([]))
    ensures r.Success? ==> forall other :: other in reg && other != id ==> r.value[other] == reg[other]
  {
    if !cls.isStrategy then Failure(cls.name + " must inherit from BaseStrategy")
    else Success(reg[id := Entry(cls, name, description, params, kind, defaultSymbols.GetOr([]))])
  }

  /** `get_strategy_info`: the stored entry, or a KeyError for an unknown id. */
  function GetInfo(reg: Registry, id: string): (r: Result<Entry, string>)
    ensures r.Success? <==> id in reg
    ensures r.Success? ==> r.value == reg[id]
    ensures r.Failure? ==> r.error == "Strategy '" + id + "' not found"
  {
    if id !in reg then Failure("Strategy '" + id + "' not found") else Success(reg[id])
  }

  /** `get_strategy_class` */
  function GetClass(reg: Registry, id: string): (r: Result<StrategyClass, string>)
    ensures r.Success? <==> id in reg
    ensures r.Success? ==> r.value == reg[id].cls
  {
    var info :- GetInfo(reg, id);
    Success(info.cls)
  }

  /** `exists` */
  predicate Exists(reg: Registry, id: string) {
    id in reg
  }

  function WithoutClass(e: Entry): Listing {
    Listing(e.name, e.description, e.params, e.kind, e.defaultSymbols)
  }

  /** `list_all`: every id, each entry without its class. */
  function ListAll(reg: Registry): (r: map<string, Listing>)
    ensures r.Keys == reg.Keys
    ensures forall id :: id in r ==> r[id] == WithoutClass(reg[id])
  {
    map id | id in reg :: WithoutClass(reg[id])
  }

  /** A registered id exists, and looking it up returns what was registered. */
  lemma RegisterThenGet(reg: Registry, id: string, cls: StrategyClass, name: string, description: string,
                        params: ParamMap, kind: string, defaultSymbols: Option<seq<string>>)
    requires cls.isStrategy
    ensures var r := Register(reg, id, cls, name, description, params, kind, defaultSymbols).value;
      && Exists(r, id)
      && GetInfo(r, id) == Success(Entry(cls, name, description, params, kind, defaultSymbols.GetOr([])))
      && GetClass(r, id) == Success(cls)
      && ListAll(r)[id].params == params
  {
  }

  /** Registering an id twice keeps only the second registration. */
  lemma RegisterOverwrites(reg: Registry, id: string, c1: StrategyClass, c2: StrategyClass,
                           n1: string, n2: string, d1: string, d2: string,
                           p1: ParamMap, p2: ParamMap, k1: string, k2: string,
                           s1: Option<seq<string>>, s2: Option<seq<string>>)
    requires c1.isStrategy && c2.isStrategy
    ensures var once := Register(reg, id, c1, n1, d1, p1, k1, s1).value;
      Register(once, id, c2, n2, d2, p2, k2, s2) == Register(reg, id, c2, n2, d2, p2, k2, s2)
  {
    var e1 := Entry(c1, n1, d1, p1, k1, s1.GetOr([]));
    var e2 := Entry(c2, n2, d2, p2, k2, s2.GetOr([]));
    assert reg[id := e1][id := e2] == reg[id := e2];
  }

  /** A refused registration leaves nothing to look up. */
  lemma RefusedLeavesUnknown(id: string, cls: StrategyClass, name: string, description: string,
                             params: ParamMap, kind: string, defaultSymbols: Option<seq<string>>)
    requires !cls.isStrategy
    ensures Register(map[], id, cls, name, description, params, kind, defaultSymbols).Failure?
    ensures GetInfo(map[], id).Failure?
  {
  }

  // ---------------------------------------------------------------------
  // The start-up registrations

  const MaParams: ParamMap := map["fast_period" := 20.0, "slow_period" := 50.0]
  const RsiParams: ParamMap := map["period" := 14.0, "oversold" := 30.0, "overbought" := 70.0]
  const MacdParams: ParamMap := map["fast_period" := 12.0, "slow_period" := 26.0, "signal_period" := 9.0]
  const BollingerParams: ParamMap := map["period" := 20.0, "std_dev" := 2.0]
  const MeanReversionParams: ParamMap := map["period" := 20.0, "entry_threshold" := 2.0, "exit_threshold" := 0.0]
  const MultiIndicatorParams: ParamMap := map[
    "rsi_period" := 14.0, "rsi_oversold" := 30.0, "rsi_overbought" := 70.0,
    "macd_fast" := 12.0, "macd_slow" := 26.0, "macd_signal" := 9.0, "volume_period" := 20.0]
  const PairParams: ParamMap := map[
    "window" := 20.0, "entry_threshold" := 2.0, "exit_threshold" := 0.5,
    "hedge_ratio" := 1.0, "use_dynamic_hedge" := 0.0]

  /** The arguments of one `register` call. */
  datatype Registration = Registration(
    id: string,
    cls: StrategyClass,
    name: string,
    description: string,
    params: ParamMap,
    kind: string,
    defaultSymbols: Option<seq<string>>)

  function EntryOf(g: Registration): Entry {
    Entry(g.cls, g.name, g.description, g.params, g.kind, g.defaultSymbols.GetOr([]))
  }

  function Ids(gs: seq<Registration>): set<string> {
    set i | 0 <= i < |gs| :: gs[i].id
  }

  /** The registrations applied one after the other; the first refusal stops the sequence. */
  function RegisterAll(reg: Registry, gs: seq<Registration>): (r: Result<Registry, string>)
    ensures r.Success? <==> forall i :: 0 <= i < |gs| ==> gs[i].cls.isStrategy
    ensures r.Success? ==> r.value.Keys == reg.Keys + Ids(gs)
    decreases |gs|
  {
    if |gs| == 0 then Success(reg)
    else
      var g := gs[0];
      var next :- Register(reg, g.id, g.cls, g.name, g.description, g.params, g.kind, g.defaultSymbols);
      var r := RegisterAll(next, gs[1..]);
      assert Ids(gs) == {g.id} + Ids(gs[1..]) by {
        forall x | x in Ids(gs) ensures x in {g.id} + Ids(gs[1..]) {
          var i :| 0 <= i < |gs| && gs[i].id == x;
          if i > 0 { assert gs[1..][i - 1] == gs[i]; }
        }
        forall x | x in Ids(gs[1..]) ensures x in Ids(gs) {
          var i :| 0 <= i < |gs[1..]| && gs[1..][i].id == x;
          assert gs[i + 1] == gs[1..][i];
        }
      }
      assert r.Success? <==> forall i :: 0 <= i < |gs| ==> gs[i].cls.isStrategy by {
        assert forall i :: 1 <= i < |gs| ==> gs[i] == gs[1..][i - 1];
      }
      r
  }

  /** With pairwise different ids, each registration's entry is what ends up stored under its id. */
  lemma {:induction false} RegisterAllStores(reg: Registry, gs: seq<Registration>, i: nat)
    requires forall j :: 0 <= j < |gs| ==> gs[j].cls.isStrategy
    requires forall a, b :: 0 <= a < b < |gs| ==> gs[a].id != gs[b].id
    requires i < |gs|
    ensures RegisterAll(reg, gs).value[gs[i].id] == EntryOf(gs[i])
    decreases |gs|
  {
    var g := gs[0];
    var next := Register(reg, g.id, g.cls, g.name, g.description, g.params, g.kind, g.defaultSymbols).value;
    assert RegisterAll(reg, gs) == RegisterAll(next, gs[1..]);
    if i == 0 {
      RegisterAllKeeps(next, gs[1..], g.id);
    } else {
      assert gs[1..][i - 1] == gs[i];
      RegisterAllStores(next, gs[1..], i - 1);
    }
  }

  /** An id no registration mentions keeps its entry. */
  lemma {:induction false} RegisterAllKeeps(reg: Registry, gs: seq<Registration>, id: string)
    requires forall j :: 0 <= j < |gs| ==> gs[j].cls.isStrategy && gs[j].id != id
    requires id in reg
    ensures id in RegisterAll(reg, gs).value && RegisterAll(reg, gs).value[id] == reg[id]
    decreases |gs|
  {
    if |gs| > 0 {
      var g := gs[0];
      var next := Register(reg, g.id, g.cls, g.name, g.description, g.params, g.kind, g.defaultSymbols).value;
      assert RegisterAll(reg, gs) == RegisterAll(next, gs[1..]);
      RegisterAllKeeps(next, gs[1..], id);
    }
  }

  const PairSymbols: seq<string> := ["BTC/USDT", "ETH/USDT"]

  /** The seven start-up registrations, in source order. */
  const DefaultRegistrations: seq<Registration> := [
    Registration("ma_crossover", StrategyClass("MovingAverageCrossover", true), "MA Crossover",
      "Moving Average Crossover - Buy when fast MA crosses above slow MA", MaParams, SingleSymbol, None),
    Registration("rsi", StrategyClass("RSIStrategy", true), "RSI Strategy",
      "RSI-based mean reversion - Buy oversold, sell overbought", RsiParams, SingleSymbol, None),
    Registration("macd", StrategyClass("MACDStrategy", true), "MACD Strategy",
      "MACD momentum strategy - Buy on bullish crossover", MacdParams, SingleSymbol, None),
    Registration("bollinger_bands", StrategyClass("BollingerBandsStrategy", true), "Bollinger Bands",
      "Volatility-based strategy - Buy at lower band, sell at upper", BollingerParams, SingleSymbol, None),
    Registration("mean_reversion", StrategyClass("MeanReversionStrategy", true), "Mean Reversion",
      "Z-score based mean reversion", MeanReversionParams, SingleSymbol, None),
    Registration("multi_indicator", StrategyClass("MultiIndicatorStrategy", true), "Multi-Indicator",
      "Combines RSI + MACD + Volume for confirmation", MultiIndicatorParams, SingleSymbol, None),
    Registration("pair_trading", StrategyClass("PairTradingStrategy", true), "Pair Trading",
      "Statistical arbitrage between two correlated assets", PairParams, MultiSymbolKind, Some(PairSymbols))
  ]

  /** `register_default_strategies` */
  function RegisterDefaults(reg: Registry): (r: Registry)
    ensures r.Keys == reg.Keys + Ids(DefaultRegistrations)
  {
    RegisterAll(reg, DefaultRegistrations).value
  }

  const DefaultIds: set<string> :=
    {"ma_crossover", "rsi", "macd", "bollinger_bands", "mean_reversion", "multi_indicator", "pair_trading"}

  lemma DefaultIdsDistinct()
    ensures forall a, b :: 0 <= a < b < |DefaultRegistrations| ==> DefaultRegistrations[a].id != DefaultRegistrations[b].id
    ensures forall j :: 0 <= j < |DefaultRegistrations| ==> DefaultRegistrations[j].cls.isStrategy
    ensures Ids(DefaultRegistrations) == DefaultIds
    ensures forall j :: 0 <= j < |DefaultRegistrations| ==> (DefaultRegistrations[j].id == "pair_trading" <==> j == 6)
  {
    var gs := DefaultRegistrations;
    assert gs[0].id == "ma_crossover" && gs[1].id == "rsi" && gs[2].id == "macd" && gs[3].id == "bollinger_bands";
    assert gs[4].id == "mean_reversion" && gs[5].id == "multi_indicator" && gs[6].id == "pair_trading";
  }

  lemma DefaultIdCount()
    ensures |DefaultIds| == 7
  {
  }

  /** Only the last default registration is multi-symbol, and only it names default symbols. */
  lemma DefaultKinds()
    ensures forall j :: 0 <= j < |DefaultRegistrations| ==>
      && (EntryOf(DefaultRegistrations[j]).kind == MultiSymbolKind <==> j == 6)
      && (EntryOf(DefaultRegistrations[j]).defaultSymbols != [] <==> j == 6)
  {
    var gs := DefaultRegistrations;
    assert gs[0].kind == SingleSymbol && gs[0].defaultSymbols == None;
    assert gs[1].kind == SingleSymbol && gs[1].defaultSymbols == None;
    assert gs[2].kind == SingleSymbol && gs[2].defaultSymbols == None;
    assert gs[3].kind == SingleSymbol && gs[3].defaultSymbols == None;
    assert gs[4].kind == SingleSymbol && gs[4].defaultSymbols == None;
    assert gs[5].kind == SingleSymbol && gs[5].defaultSymbols == None;
    assert gs[6].kind == MultiSymbolKind && gs[6].defaultSymbols == Some(PairSymbols);
  }

  /** Each default registration's entry is what the start-up registry stores under its id. */
  lemma DefaultEntries(i: nat)
    requires i < |DefaultRegistrations|
    ensures RegisterDefaults(map[]).Keys == DefaultIds
    ensures RegisterDefaults(map[])[DefaultRegistrations[i].id] == EntryOf(DefaultRegistrations[i])
  {
    DefaultIdsDistinct();
    RegisterAllStores(map[], DefaultRegistrations, i);
  }

  /**
   * Started from an empty registry, the defaults hold exactly seven ids;
   * pair trading is the only multi-symbol one and the only one with
   * default symbols.
   */
  lemma DefaultRegistry(id: string)
    requires id in RegisterDefaults(map[])
    ensures |RegisterDefaults(map[])| == 7
    ensures RegisterDefaults(map[])[id].kind == MultiSymbolKind <==> id == "pair_trading"
    ensures RegisterDefaults(map[])[id].defaultSymbols != [] <==> id == "pair_trading"
  {
    var gs := DefaultRegistrations;
    DefaultIdsDistinct();
    DefaultIdCount();
    DefaultKinds();
    var i :| 0 <= i < |gs| && gs[i].id == id;
    DefaultEntries(i);
  }

  /** Pair trading is registered with BTC/USDT and ETH/USDT as its default symbols. */
  lemma PairDefaultSymbols()
    ensures "pair_trading" in RegisterDefaults(map[])
    ensures RegisterDefaults(map[])["pair_trading"].defaultSymbols == ["BTC/USDT", "ETH/USDT"]
  {
    DefaultEntries(6);
  }

  /** The params the start-up registry stores under each default id. */
  lemma StoredParams()
    ensures var r := RegisterDefaults(map[]);
      && "ma_crossover" in r && r["ma_crossover"].params == MaParams
      && "rsi" in r && r["rsi"].params == RsiParams
      && "macd" in r && r["macd"].params == MacdParams
      && "bollinger_bands" in r && r["bollinger_bands"].params == BollingerParams
      && "mean_reversion" in r && r["mean_reversion"].params == MeanReversionParams
      && "multi_indicator" in r && r["multi_indicator"].params == MultiIndicatorParams
      && "pair_trading" in r && r["pair_trading"].params == PairParams
  {
    DefaultEntries(0);
    DefaultEntries(1);
    DefaultEntries(2);
    DefaultEntries(3);
    DefaultEntries(4);
    DefaultEntries(5);
    DefaultEntries(6);
  }

  /**
   * The registered defaults are the strategies' own defaults for MA
   * crossover, RSI, Bollinger bands, multi-indicator and pair trading.
   */
  lemma RegisteredDefaultsAgree()
    ensures var r := RegisterDefaults(map[]);
      && "ma_crossover" in r && r["ma_crossover"].params == MaCrossover.Defaults
      && "rsi" in r && r["rsi"].params == RsiStrategy.Defaults
      && "bollinger_bands" in r && r["bollinger_bands"].params == BollingerBands.Defaults
      && "multi_indicator" in r && r["multi_indicator"].params == MultiIndicator.Defaults
      && "pair_trading" in r && r["pair_trading"].params == PairTrading.Defaults
  {
    StoredParams();
  }

  /**
   * The MACD entry registers `fast_period`, `slow_period` and
   * `signal_period`, none of which the strategy reads: merged over its own
   * defaults, they leave every MACD period at the strategy's default.
   */
  lemma MacdDefaultsDiverge()
    ensures "macd" in RegisterDefaults(map[])
    ensures var p := RegisterDefaults(map[])["macd"].params;
      && p.Keys !! MacdStrategy.Defaults.Keys
      && forall k :: k in MacdStrategy.Defaults ==> MacdStrategy.Configure(p)[k] == MacdStrategy.Defaults[k]
  {
    StoredParams();
    MacdKeysDisjoint();
  }

  lemma MacdKeysDisjoint()
    ensures MacdParams.Keys !! MacdStrategy.Defaults.Keys
    ensures forall k :: k in MacdStrategy.Defaults ==> MacdStrategy.Configure(MacdParams)[k] == MacdStrategy.Defaults[k]
  {
    assert MacdStrategy.Defaults.Keys == {"fast", "slow", "signal"};
    assert MacdParams.Keys == {"fast_period", "slow_period", "signal_period"};
    MergeDisjoint(MacdStrategy.Defaults, MacdParams);
  }

  /**
   * The mean-reversion entry registers `period` where the strategy reads
   * `lookback_period`, so the look-back stays at the strategy's default;
   * its exit threshold of 0 does reach the strategy and replaces 0.5.
   */
  lemma MeanReversionDefaultsDiverge()
    ensures "mean_reversion" in RegisterDefaults(map[])
    ensures var c := MeanReversion.Configure(RegisterDefaults(map[])["mean_reversion"].params);
      && c["lookback_period"] == MeanReversion.Defaults["lookback_period"]
      && c["exit_threshold"] == 0.0 != MeanReversion.Defaults["exit_threshold"]
  {
    StoredParams();
    MeanReversionKeys();
  }

  lemma MeanReversionKeys()
    ensures var c := MeanReversion.Configure(MeanReversionParams);
      && c["lookback_period"] == MeanReversion.Defaults["lookback_period"]
      && c["exit_threshold"] == 0.0 != MeanReversion.Defaults["exit_threshold"]
  {
    assert "lookback_period" !in MeanReversionParams;
  }
}
