/**
 * The OHLCV quality check run on fetched market data: a frame is valid
 * unless it is missing, empty, lacks a required column, holds a negative
 * value, breaks the high/low ordering, or repeats a timestamp. Nulls,
 * extreme moves and time gaps are reported as warnings only.
 */
module DataQuality {
  import opened Wrappers
  import opened Numeric
  import opened Series

  /** One row; `None` is a NaN cell. Timestamps are in seconds. */
  datatype Candle = Candle(time: int, open: Option<real>, high: Option<real>, low: Option<real>,
                           close: Option<real>, volume: Option<real>)

  /** A frame: the names of its columns and its rows in index order. */
  datatype OhlcvFrame = OhlcvFrame(columns: set<string>, rows: seq<Candle>)

  const Required: seq<string> := ["open", "high", "low", "close", "volume"]

  /** A gap is a step between consecutive timestamps of more than two days. */
  const GapSeconds: int := 2 * 86400

  datatype Issue =
    | EmptyFrame
    | MissingColumns(names: seq<string>)
    | NullValues
    | NegativeValues(column: string, count: nat)
    | InvalidOhlc(count: nat)
    | ExtremeMoves(count: nat)
    | TimeGaps(count: nat)
    | DuplicateTimestamps(count: nat)

  /** The validation result; `totalRecords` is absent when the check stopped early. */
  datatype Validation = Validation(isValid: bool, errors: seq<Issue>, warnings: seq<Issue>, totalRecords: Option<nat>)

  /** The cell of a required column. */
  function Cell(c: Candle, column: string): Option<real> {
    match column
    case "open" => c.open
    case "high" => c.high
    case "low" => c.low
    case "close" => c.close
    case _ => c.volume
  }

  /** The required columns the frame lacks, in the order they are listed. */
  function Missing(columns: set<string>): (r: seq<string>)
    ensures forall x :: x in r <==> x in Required && x !in columns
  {
    MissingFrom(Required, columns)
  }

  function MissingFrom(names: seq<string>, columns: set<string>): (r: seq<string>)
    ensures forall x :: x in r <==> x in names && x !in columns
  {
    if |names| == 0 then []
    else (if names[0] in columns then [] else [names[0]]) + MissingFrom(names[1..], columns)
  }

  predicate HasNull(c: Candle) {
    c.open.None? || c.high.None? || c.low.None? || c.close.None? || c.volume.None?
  }

  /** `df[col] < 0`; NaN compares false. */
  predicate NegativeAt(rows: seq<Candle>, column: string, i: int) {
    0 <= i < |rows| && Lt(Cell(rows[i], column), Some(0.0))
  }

  /** The high is below another price, or the low above one; NaN compares false. */
  predicate BadOhlc(c: Candle) {
    Lt(c.high, c.low) || Lt(c.high, c.open) || Lt(c.high, c.close) || Gt(c.low, c.open) || Gt(c.low, c.close)
  }

  predicate BadOhlcAt(rows: seq<Candle>, i: int) {
    0 <= i < |rows| && BadOhlc(rows[i])
  }

  /**
   * `close.pct_change().abs() > 0.5` at row i: a move of more than half
   * the previous close; from a zero close any move is infinite and a
   * non-move is NaN.
   */
  predicate ExtremeAt(rows: seq<Candle>, i: int) {
    && 0 < i < |rows|
    && rows[i - 1].close.Some? && rows[i].close.Some?
    && var prev := rows[i - 1].close.value;
       var cur := rows[i].close.value;
       if prev == 0.0 then cur != 0.0 else Abs(cur / prev - 1.0) > 0.5
  }

  predicate GapAt(rows: seq<Candle>, i: int) {
    0 < i < |rows| && rows[i].time - rows[i - 1].time > GapSeconds
  }

  /** `index.duplicated()`: the timestamp already appeared earlier. */
  predicate DuplicateAt(rows: seq<Candle>, i: int) {
    0 <= i < |rows| && exists j :: 0 <= j < i && rows[j].time == rows[i].time
  }

  function NegativeIssues(rows: seq<Candle>, columns: seq<string>): (r: seq<Issue>)
    ensures |r| <= |columns|
    ensures r == [] <==> forall k, i :: 0 <= k < |columns| && 0 <= i < |rows| ==> !NegativeAt(rows, columns[k], i)
    ensures forall x :: x in r ==> x.NegativeValues? && x.count > 0
  {
    if |columns| == 0 then []
    else
      var n := |set i | 0 <= i < |rows| && NegativeAt(rows, columns[0], i)|;
      var rest := NegativeIssues(rows, columns[1..]);
      assert forall k :: 1 <= k < |columns| ==> columns[k] == columns[1..][k - 1];
      assert n > 0 <==> exists i :: 0 <= i < |rows| && NegativeAt(rows, columns[0], i) by {
        var hits := set i | 0 <= i < |rows| && NegativeAt(rows, columns[0], i);
        if exists i :: 0 <= i < |rows| && NegativeAt(rows, columns[0], i) {
          var i :| 0 <= i < |rows| && NegativeAt(rows, columns[0], i);
          assert i in hits;
        }
        if n > 0 {
          var i :| i in hits;
        }
      }
      var head := if n > 0 then [NegativeValues(columns[0], n)] else [];
      assert head + rest == [] <==> head == [] && rest == [] by {
        if head + rest == [] {
          assert |head + rest| == |head| + |rest|;
        }
      }
      head + rest
  }

  /** The error checks on a frame that has every column. */
  function ErrorIssues(rows: seq<Candle>): (r: seq<Issue>)
    ensures r == [] <==> NoErrors(rows)
  {
    var bad := |set i | 0 <= i < |rows| && BadOhlcAt(rows, i)|;
    var dup := |set i | 0 <= i < |rows| && DuplicateAt(rows, i)|;
    assert bad > 0 <==> exists i :: 0 <= i < |rows| && BadOhlcAt(rows, i) by {
      var hits := set i | 0 <= i < |rows| && BadOhlcAt(rows, i);
      if exists i :: 0 <= i < |rows| && BadOhlcAt(rows, i) {
        var i :| 0 <= i < |rows| && BadOhlcAt(rows, i);
        assert i in hits;
      }
      if bad > 0 {
        var i :| i in hits;
      }
    }
    assert dup > 0 <==> exists i :: 0 <= i < |rows| && DuplicateAt(rows, i) by {
      var hits := set i | 0 <= i < |rows| && DuplicateAt(rows, i);
      if exists i :: 0 <= i < |rows| && DuplicateAt(rows, i) {
        var i :| 0 <= i < |rows| && DuplicateAt(rows, i);
        assert i in hits;
      }
      if dup > 0 {
        var i :| i in hits;
      }
    }
    var neg := NegativeIssues(rows, Required);
    var ohlc := if bad > 0 then [InvalidOhlc(bad)] else [];
    var dups := if dup > 0 then [DuplicateTimestamps(dup)] else [];
    assert |neg + ohlc + dups| == |neg| + |ohlc| + |dups|;
    neg + ohlc + dups
  }

  /** No negative value, no broken OHLC row, no repeated timestamp. */
  predicate NoErrors(rows: seq<Candle>) {
    && (forall k, i :: 0 <= k < |Required| && 0 <= i < |rows| ==> !NegativeAt(rows, Required[k], i))
    && (forall i :: 0 <= i < |rows| ==> !BadOhlcAt(rows, i))
    && (forall i :: 0 <= i < |rows| ==> !DuplicateAt(rows, i))
  }

  /** The warning checks on a frame that has every column. */
  function WarningIssues(rows: seq<Candle>): seq<Issue> {
    var extreme := |set i | 0 <= i < |rows| && ExtremeAt(rows, i)|;
    var gaps := |set i | 0 <= i < |rows| && GapAt(rows, i)|;
    (if exists i :: 0 <= i < |rows| && HasNull(rows[i]) then [NullValues] else [])
      + (if |rows| > 1 && extreme > 0 then [ExtremeMoves(extreme)] else [])
      + (if gaps > 0 then [TimeGaps(gaps)] else [])
  }

  /** `df.empty`: a frame is empty when it has no rows or no columns. */
  predicate IsEmpty(f: OhlcvFrame) {
    |f.rows| == 0 || f.columns == {}
  }

  /** `validate_data_quality` */
  function Validate(df: Option<OhlcvFrame>): (r: Validation)
    ensures r.isValid <==> r.errors == []
    ensures df.None? || IsEmpty(df.value) ==> r == Validation(false, [EmptyFrame], [], None)
    ensures df.Some? && !IsEmpty(df.value) && |Missing(df.value.columns)| > 0 ==>
              r == Validation(false, [MissingColumns(Missing(df.value.columns))], [], None)
    ensures df.Some? && |df.value.rows| > 0 && |Missing(df.value.columns)| == 0 ==>
              r.isValid == NoErrors(df.value.rows) && r.totalRecords == Some(|df.value.rows|)
  {
    match df
    case None => Validation(false, [EmptyFrame], [], None)
    case Some(f) =>
      if IsEmpty(f) then Validation(false, [EmptyFrame], [], None)
      else
        var missing := Missing(f.columns);
        if |missing| > 0 then Validation(false, [MissingColumns(missing)], [], None)
        else
          var errors := ErrorIssues(f.rows);
          Validation(errors == [], errors, WarningIssues(f.rows), Some(|f.rows|))
  }

  /** A complete frame is one that has rows and every required column. */
  predicate Complete(f: OhlcvFrame) {
    |f.rows| > 0 && forall k :: 0 <= k < |Required| ==> Required[k] in f.columns
  }

  lemma CompleteHasNoMissing(f: OhlcvFrame)
    ensures Complete(f) <==> |f.rows| > 0 && |Missing(f.columns)| == 0
  {
    if |Missing(f.columns)| > 0 {
      assert Missing(f.columns)[0] in Missing(f.columns);
    }
  }

  /**
   * Warnings never decide validity: a complete frame that passes the error
   * checks is valid, whatever nulls, extreme moves or gaps it holds.
   */
  lemma WarningsDoNotInvalidate(f: OhlcvFrame)
    requires Complete(f)
    requires NoErrors(f.rows)
    ensures Validate(Some(f)).isValid
    ensures Validate(Some(f)).errors == []
  {
    CompleteHasNoMissing(f);
  }

  /** A negative cell in any required column makes a complete frame invalid. */
  lemma NegativeInvalidates(f: OhlcvFrame, k: nat, i: nat)
    requires Complete(f) && k < |Required| && i < |f.rows|
    requires Lt(Cell(f.rows[i], Required[k]), Some(0.0))
    ensures !Validate(Some(f)).isValid
  {
    CompleteHasNoMissing(f);
    assert NegativeAt(f.rows, Required[k], i);
  }

  /** A row whose high is below its low makes a complete frame invalid. */
  lemma InvertedRangeInvalidates(f: OhlcvFrame, i: nat)
    requires Complete(f) && i < |f.rows|
    requires Lt(f.rows[i].high, f.rows[i].low)
    ensures !Validate(Some(f)).isValid
  {
    CompleteHasNoMissing(f);
    assert BadOhlcAt(f.rows, i);
  }

  /** A repeated timestamp makes a complete frame invalid. */
  lemma DuplicateInvalidates(f: OhlcvFrame, i: nat, j: nat)
    requires Complete(f) && j < i < |f.rows|
    requires f.rows[i].time == f.rows[j].time
    ensures !Validate(Some(f)).isValid
  {
    CompleteHasNoMissing(f);
    assert DuplicateAt(f.rows, i);
  }
}
