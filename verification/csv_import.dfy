/**
 * Importing downloaded CSV price files into the market-data table: which
 * files are picked up, how a symbol is read from a file name, and how rows
 * already in the table are skipped. The table is a map keyed by symbol and
 * timestamp; reading the file and listing directories are parameters.
 */
module CsvImport {
  import opened Wrappers

  // ---------------------------------------------------------------------
  // File names

  predicate EndsWith(s: string, suffix: string) {
    |suffix| <= |s| && s[|s| - |suffix|..] == suffix
  }

  predicate StartsWith(s: string, prefix: string) {
    |prefix| <= |s| && s[..|prefix|] == prefix
  }

  const Extension := ".csv"

  /** `s.replace(pat, "")`: occurrences removed left to right, without rescanning what was removed. */
  function RemoveAll(s: string, pat: string): (r: string)
    requires |pat| > 0
    ensures |r| <= |s|
    decreases |s|
  {
    if |s| == 0 then []
    else if StartsWith(s, pat) then RemoveAll(s[|pat|..], pat)
    else [s[0]] + RemoveAll(s[1..], pat)
  }

  /** A text without a dot is untouched by the removal. */
  lemma {:induction false} RemoveAllNoDot(s: string)
    requires '.' !in s
    ensures RemoveAll(s, Extension) == s
    decreases |s|
  {
    if |s| > 0 {
      assert s[0] in s;
      assert |Extension| <= |s| ==> s[..|Extension|][0] == s[0];
      assert !StartsWith(s, Extension);
      RemoveAllNoDot(s[1..]);
      assert s == [s[0]] + s[1..];
    }
  }

  /** A stem without a dot followed by the extension loses exactly the extension. */
  lemma {:induction false} RemoveExtension(stem: string)
    requires '.' !in stem
    ensures RemoveAll(stem + Extension, Extension) == stem
    decreases |stem|
  {
    var s := stem + Extension;
    if |stem| == 0 {
      assert s == Extension;
      assert StartsWith(s, Extension);
      assert s[|Extension|..] == [];
    } else {
      assert s[0] == stem[0] && stem[0] in stem;
      assert |Extension| <= |s| ==> s[..|Extension|][0] == s[0];
      assert !StartsWith(s, Extension);
      assert s[1..] == stem[1..] + Extension;
      RemoveExtension(stem[1..]);
      assert stem == [stem[0]] + stem[1..];
    }
  }

  /** `s.split(sep)`: the pieces between separators, empty ones included. */
  function Split(s: string, sep: char): (r: seq<string>)
    ensures |r| >= 1
    ensures forall i :: 0 <= i < |r| ==> sep !in r[i]
    decreases |s|
  {
    if |s| == 0 then [""]
    else
      var rest := Split(s[1..], sep);
      if s[0] == sep then [""] + rest
      else
        assert forall i :: 1 <= i < |rest| ==> sep !in rest[i];
        [[s[0]] + rest[0]] + rest[1..]
  }

  /** `sep.join(parts)` */
  function Join(parts: seq<string>, sep: char): string
    requires |parts| >= 1
    decreases |parts|
  {
    if |parts| == 1 then parts[0] else parts[0] + [sep] + Join(parts[1..], sep)
  }

  /** Splitting and joining back gives the text again. */
  lemma {:induction false} JoinSplit(s: string, sep: char)
    ensures Join(Split(s, sep), sep) == s
    decreases |s|
  {
    if |s| > 0 {
      var rest := Split(s[1..], sep);
      JoinSplit(s[1..], sep);
      if s[0] == sep {
        var r := [""] + rest;
        assert r[1..] == rest;
        assert s == [sep] + s[1..];
      } else {
        var r := [[s[0]] + rest[0]] + rest[1..];
        if |rest| == 1 {
          assert s == [s[0]] + rest[0];
        } else {
          assert r[1..] == rest[1..];
          assert Join(rest, sep) == rest[0] + [sep] + Join(rest[1..], sep);
          assert s == [s[0]] + s[1..];
        }
      }
    }
  }

  /** Joining pieces free of the separator and splitting again gives the pieces back. */
  lemma {:induction false} SplitJoin(parts: seq<string>, sep: char)
    requires |parts| >= 1
    requires forall i :: 0 <= i < |parts| ==> sep !in parts[i]
    ensures Split(Join(parts, sep), sep) == parts
    decreases |parts|, |parts[0]|
  {
    var p := parts[0];
    if |p| == 0 {
      if |parts| > 1 {
        SplitJoin(parts[1..], sep);
        var s := Join(parts, sep);
        assert s == [sep] + Join(parts[1..], sep);
        assert s[1..] == Join(parts[1..], sep);
        assert parts == [""] + parts[1..];
      }
    } else {
      var tail := [p[1..]] + parts[1..];
      assert forall i :: 1 <= i < |tail| ==> tail[i] == parts[i];
      assert sep !in p[1..] by {
        assert forall k :: 0 <= k < |p| - 1 ==> p[1..][k] == p[k + 1];
      }
      SplitJoin(tail, sep);
      var s := Join(parts, sep);
      assert s[0] == p[0] && p[0] != sep;
      assert s[1..] == Join(tail, sep) by {
        if |parts| == 1 {
          assert s == p;
        } else {
          assert tail[1..] == parts[1..];
          assert s == p + [sep] + Join(parts[1..], sep);
          assert Join(tail, sep) == p[1..] + [sep] + Join(parts[1..], sep);
        }
      }
      var rest := Split(s[1..], sep);
      assert rest == tail;
      assert [[s[0]] + rest[0]] + rest[1..] == parts by {
        assert [s[0]] + p[1..] == p;
        assert rest[1..] == parts[1..];
      }
    }
  }

  /**
   * The symbol in a file name: crypto files are
   * `exchange_BASE_QUOTE_timeframe.csv` and give `BASE/QUOTE`; other
   * files are `source_SYMBOL_...csv` and give `SYMBOL`. Too few pieces:
   * the file is skipped.
   */
  function SymbolOf(file: string, assetType: string): (r: Option<string>)
    ensures var parts := Split(RemoveAll(file, Extension), '_');
      && (assetType == "crypto" ==> (r.Some? <==> |parts| >= 3) && (r.Some? ==> r.value == parts[1] + "/" + parts[2]))
      && (assetType != "crypto" ==> (r.Some? <==> |parts| >= 2) && (r.Some? ==> r.value == parts[1]))
  {
    var parts := Split(RemoveAll(file, Extension), '_');
    if assetType == "crypto" then (if |parts| >= 3 then Some(parts[1] + "/" + parts[2]) else None)
    else if |parts| >= 2 then Some(parts[1]) else None
  }

  predicate Plain(s: string) {
    '_' !in s && '.' !in s
  }

  /** A file named the crypto way gives back its base and quote. */
  lemma CryptoFileSymbol(exchange: string, base: string, quote: string, timeframe: string)
    requires Plain(exchange) && Plain(base) && Plain(quote) && Plain(timeframe)
    ensures SymbolOf(exchange + "_" + base + "_" + quote + "_" + timeframe + ".csv", "crypto") == Some(base + "/" + quote)
  {
    var parts := [exchange, base, quote, timeframe];
    var stem := exchange + "_" + base + "_" + quote + "_" + timeframe;
    assert Join(parts, '_') == stem by {
      assert parts[1..][1..][1..] == [timeframe];
      assert parts[1..][1..] == [quote, timeframe];
      assert parts[1..] == [base, quote, timeframe];
      assert Join([timeframe], '_') == timeframe;
      assert Join([quote, timeframe], '_') == quote + "_" + timeframe;
      assert Join([base, quote, timeframe], '_') == base + "_" + (quote + "_" + timeframe);
      assert Join(parts, '_') == exchange + "_" + (base + "_" + (quote + "_" + timeframe));
    }
    assert '.' !in stem;
    RemoveExtension(stem);
    SplitJoin(parts, '_');
  }

  /** A file named the stock way gives back its symbol. */
  lemma StockFileSymbol(source: string, symbol: string, rest: string, assetType: string)
    requires assetType != "crypto"
    requires Plain(source) && Plain(symbol) && Plain(rest)
    ensures SymbolOf(source + "_" + symbol + "_" + rest + ".csv", assetType) == Some(symbol)
  {
    var parts := [source, symbol, rest];
    var stem := source + "_" + symbol + "_" + rest;
    assert Join(parts, '_') == stem by {
      assert parts[1..][1..] == [rest];
      assert parts[1..] == [symbol, rest];
      assert Join([rest], '_') == rest;
      assert Join([symbol, rest], '_') == symbol + "_" + rest;
      assert Join(parts, '_') == source + "_" + (symbol + "_" + rest);
    }
    assert '.' !in stem;
    RemoveExtension(stem);
    SplitJoin(parts, '_');
  }

  /** One import to run: the file and the symbol read from its name. */
  datatype Job = Job(file: string, symbol: string)

  /**
   * The files of one directory that `import_all_csv_files` imports, in
   * listing order: CSV files whose name yields a symbol.
   */
  function Jobs(files: seq<string>, assetType: string): (r: seq<Job>)
    ensures |r| <= |files|
    ensures forall j :: j in r ==> j.file in files && EndsWith(j.file, Extension) && SymbolOf(j.file, assetType) == Some(j.symbol)
    ensures forall f :: f in files && EndsWith(f, Extension) && SymbolOf(f, assetType).Some? ==>
              Job(f, SymbolOf(f, assetType).value) in r
  {
    if |files| == 0 then []
    else
      var f := files[0];
      var rest := Jobs(files[1..], assetType);
      if EndsWith(f, Extension) && SymbolOf(f, assetType).Some? then [Job(f, SymbolOf(f, assetType).value)] + rest
      else rest
  }

  /** The directories scanned and the asset type each one's rows are stored with. */
  const Directories: seq<(string, string)> := [("data/crypto", "crypto"), ("data/stocks", "stock"), ("data/indices", "index")]

  // ---------------------------------------------------------------------
  // Rows

  /** One CSV row after parsing; the index column is the timestamp. */
  datatype CsvRow = CsvRow(timestamp: int, open: real, high: real, low: real, close: real, volume: real)

  /** A parsed CSV file: its column names and rows. */
  datatype CsvFile = CsvFile(columns: set<string>, rows: seq<CsvRow>)

  datatype MarketRecord = MarketRecord(open: real, high: real, low: real, close: real, volume: real, assetType: string)

  type MarketTable = map<(string, int), MarketRecord>

  const RequiredColumns: set<string> := {"open", "high", "low", "close", "volume"}

  function RecordOf(row: CsvRow, assetType: string): MarketRecord {
    MarketRecord(row.open, row.high, row.low, row.close, row.volume, assetType)
  }

  /**
   * The rows inserted one after the other, each skipped when its symbol
   * and timestamp are already in the table, including a row added
   * earlier in the same import.
   */
  function Insert(table: MarketTable, symbol: string, assetType: string, rows: seq<CsvRow>): (r: MarketTable)
    decreases |rows|
  {
    if |rows| == 0 then table
    else
      var key := (symbol, rows[0].timestamp);
      var next := if key in table then table else table[key := RecordOf(rows[0], assetType)];
      Insert(next, symbol, assetType, rows[1..])
  }

  function TimestampKeys(symbol: string, rows: seq<CsvRow>): set<(string, int)> {
    set i | 0 <= i < |rows| :: (symbol, rows[i].timestamp)
  }

  /**
   * Inserting adds exactly the keys of the rows and never overwrites: a key
   * already present keeps its record, and a new key gets the first row with
   * that timestamp.
   */
  lemma {:induction false} InsertKeys(table: MarketTable, symbol: string, assetType: string, rows: seq<CsvRow>)
    ensures Insert(table, symbol, assetType, rows).Keys == table.Keys + TimestampKeys(symbol, rows)
    ensures forall k :: k in table ==> Insert(table, symbol, assetType, rows)[k] == table[k]
    decreases |rows|
  {
    if |rows| > 0 {
      var key := (symbol, rows[0].timestamp);
      var next := if key in table then table else table[key := RecordOf(rows[0], assetType)];
      InsertKeys(next, symbol, assetType, rows[1..]);
      assert TimestampKeys(symbol, rows) == {key} + TimestampKeys(symbol, rows[1..]) by {
        forall k | k in TimestampKeys(symbol, rows) ensures k in {key} + TimestampKeys(symbol, rows[1..]) {
          var i :| 0 <= i < |rows| && k == (symbol, rows[i].timestamp);
          if i > 0 { assert rows[1..][i - 1] == rows[i]; }
        }
        forall k | k in TimestampKeys(symbol, rows[1..]) ensures k in TimestampKeys(symbol, rows) {
          var i :| 0 <= i < |rows[1..]| && k == (symbol, rows[1..][i].timestamp);
          assert rows[i + 1] == rows[1..][i];
        }
      }
    }
  }

  /** The first row with a new timestamp is the one stored. */
  lemma {:induction false} InsertFirstWins(table: MarketTable, symbol: string, assetType: string, rows: seq<CsvRow>, i: nat)
    requires i < |rows|
    requires (symbol, rows[i].timestamp) !in table
    requires forall j :: 0 <= j < i ==> rows[j].timestamp != rows[i].timestamp
    ensures (symbol, rows[i].timestamp) in Insert(table, symbol, assetType, rows)
    ensures Insert(table, symbol, assetType, rows)[(symbol, rows[i].timestamp)] == RecordOf(rows[i], assetType)
    decreases |rows|
  {
    var key := (symbol, rows[0].timestamp);
    var next := if key in table then table else table[key := RecordOf(rows[0], assetType)];
    if i == 0 {
      InsertKeys(next, symbol, assetType, rows[1..]);
    } else {
      assert rows[1..][i - 1] == rows[i];
      assert forall j :: 0 <= j < i - 1 ==> rows[1..][j] == rows[j + 1];
      InsertFirstWins(next, symbol, assetType, rows[1..], i - 1);
    }
  }

  /** Inserting from row i on is inserting row i, then the rows after it. */
  lemma InsertStep(store: MarketTable, symbol: string, assetType: string, rows: seq<CsvRow>, i: nat)
    requires i < |rows|
    ensures var key := (symbol, rows[i].timestamp);
      var next := if key in store then store else store[key := RecordOf(rows[i], assetType)];
      Insert(store, symbol, assetType, rows[i..]) == Insert(next, symbol, assetType, rows[i + 1..])
  {
    assert rows[i..][0] == rows[i];
    assert rows[i..][1..] == rows[i + 1..];
  }

  /** Adding a key the store lacks adds one key to those the import has added. */
  lemma AddedGrows(store: MarketTable, table: MarketTable, key: (string, int), v: MarketRecord)
    requires table.Keys <= store.Keys && key !in store
    ensures store[key := v].Keys - table.Keys == (store.Keys - table.Keys) + {key}
    ensures |store[key := v].Keys - table.Keys| == |store.Keys - table.Keys| + 1
  {
  }

  /**
   * `import_csv_to_db`: an unreadable file or one missing a required
   * column imports nothing; otherwise every row whose symbol and timestamp
   * are new is inserted, and the count is the number of rows inserted.
   */
  method ImportCsv(file: Option<CsvFile>, symbol: string, assetType: string, table: MarketTable)
    returns (store: MarketTable, count: nat)
    ensures file.None? || !(RequiredColumns <= file.value.columns) ==> store == table && count == 0
    ensures file.Some? && RequiredColumns <= file.value.columns ==>
              store == Insert(table, symbol, assetType, file.value.rows)
    ensures table.Keys <= store.Keys
    ensures count == |store.Keys - table.Keys|
  {
    if file.None? || !(RequiredColumns <= file.value.columns) {
      return table, 0;
    }
    var rows := file.value.rows;
    store, count := table, 0;
    var i := 0;
    while i < |rows|
      invariant 0 <= i <= |rows|
      invariant Insert(store, symbol, assetType, rows[i..]) == Insert(table, symbol, assetType, rows)
      invariant table.Keys <= store.Keys
      invariant count == |store.Keys - table.Keys|
    {
      var key := (symbol, rows[i].timestamp);
      InsertStep(store, symbol, assetType, rows, i);
      if key !in store {
        AddedGrows(store, table, key, RecordOf(rows[i], assetType));
        store := store[key := RecordOf(rows[i], assetType)];
        count := count + 1;
      }
      i := i + 1;
    }
    assert rows[i..] == [];
  }

  /** The count is the number of distinct new timestamps in the file. */
  lemma ImportCount(table: MarketTable, symbol: string, assetType: string, rows: seq<CsvRow>)
    ensures var store := Insert(table, symbol, assetType, rows);
      store.Keys - table.Keys == TimestampKeys(symbol, rows) - table.Keys
  {
    InsertKeys(table, symbol, assetType, rows);
  }
}
