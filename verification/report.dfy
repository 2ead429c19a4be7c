/** Running a report (`useReport`, and its inline predecessor in
    `report_backup`): the query guard, the request, the column filter and the
    formatting of every cell. */
module Report {
  import opened Wrappers
  import opened Text
  import opened JsValues
  import opened Sequences
  import opened ReportConstants

  /* --------------------------- trimming zeros ---------------------------- */

  /** The text from `p` on matches `/\.?0+$/`: an optional dot and at least one
      zero, up to the end. */
  predicate MatchesAt(s: string, p: nat)
    requires p <= |s|
  {
    || (p < |s| && s[p] == '.' && p + 1 < |s| && forall k :: p + 1 <= k < |s| ==> s[k] == '0')
    || (p < |s| && forall k :: p <= k < |s| ==> s[k] == '0')
  }

  /** The leftmost start, at `from` or later, where the pattern matches; `|s|`
      when it matches nowhere. */
  function FirstMatch(s: string, from: nat): (p: nat)
    requires from <= |s|
    ensures from <= p <= |s|
    ensures p < |s| ==> MatchesAt(s, p)
    ensures forall q :: from <= q < p ==> !MatchesAt(s, q)
    decreases |s| - from
  {
    if from == |s| then |s|
    else if MatchesAt(s, from) then from
    else FirstMatch(s, from + 1)
  }

  /** `s.replace(/\.?0+$/, '')`: the leftmost match is removed. */
  function TrimZeros(s: string): (r: string)
    ensures r <= s
  {
    s[..FirstMatch(s, 0)]
  }

  /** The number of zeros `s` ends with. */
  function TrailingZeros(s: string): (z: nat)
    ensures z <= |s|
    ensures forall k :: |s| - z <= k < |s| ==> s[k] == '0'
    ensures z < |s| ==> s[|s| - z - 1] != '0'
  {
    if |s| == 0 || s[|s| - 1] != '0' then 0 else 1 + TrailingZeros(s[..|s| - 1])
  }

  /** Reference reading of the trim: drop the trailing run of zeros, and the dot
      right before it if there is one; a string not ending in zero is kept. */
  function StripZeros(s: string): string
  {
    var z := TrailingZeros(s);
    var q := |s| - z;
    if z == 0 then s
    else if q > 0 && s[q - 1] == '.' then s[..q - 1]
    else s[..q]
  }

  /** The regular-expression replacement is the reference trim. */
  lemma TrimZerosIsStrip(s: string)
    ensures TrimZeros(s) == StripZeros(s)
  {
    var z := TrailingZeros(s);
    var q := |s| - z;
    var p := FirstMatch(s, 0);
    if z == 0 {
    } else if q > 0 && s[q - 1] == '.' {
      assert MatchesAt(s, q - 1);
    } else {
      assert MatchesAt(s, q);
    }
  }

  /** The shape of `x.toFixed(4)`: an integer part without a dot (sign and
      digits), a dot, and four digits. */
  predicate FourDecimals(s: string, intPart: string, frac: string)
  {
    s == intPart + "." + frac && '.' !in intPart && |frac| == 4 && AllDigits(frac)
  }

  /** Trimming a four-decimal rendering keeps its integer part, never leaves a
      dangling dot, and leaves no trailing zero after a dot. */
  lemma TrimFourDecimals(s: string, intPart: string, frac: string)
    requires FourDecimals(s, intPart, frac)
    ensures var r := TrimZeros(s);
      && intPart <= r
      && (|r| > 0 ==> r[|r| - 1] != '.')
      && ('.' in r ==> r[|r| - 1] != '0')
  {
    TrimZerosIsStrip(s);
    var r := TrimZeros(s);
    var z := TrailingZeros(s);
    var q := |s| - z;
    var dot := |intPart|;
    assert s[dot] == '.';
    assert forall k :: 0 <= k < dot ==> s[k] == intPart[k];
    if z == 4 {
      assert r == s[..dot];
      assert r == intPart;
    } else if z > 0 {
      assert s[q - 1] != '.';
      assert r == s[..q];
    }
  }

  /** The fraction `0000` is removed with its dot, leaving the integer part. */
  lemma TrimWholeNumber(intPart: string)
    requires '.' !in intPart
    ensures TrimZeros(intPart + ".0000") == intPart
  {
    var s := intPart + ".0000";
    TrimZerosIsStrip(s);
    var z := TrailingZeros(s);
    assert s[|s| - 5] == '.';
    assert s[..|s| - 5] == intPart;
  }

  /* ------------------------------ cells ---------------------------------- */

  /** `isNumeric(v)`: a number other than NaN. */
  predicate IsNumeric(v: Json)
  {
    v.Number? && v.n.Finite?
  }

  /** `formatValue(key, val)`. `stamp(val)` is the `YYYY-MM-DD HH:mm:ss`
      rendering of a valid date, `None` for an invalid one. A timestamp column
      shows the rendering, or the raw value when it is no date; a number shows
      its four-decimal text with trailing zeros trimmed; anything else shows
      `String(val)`. */
  function FormatValue(key: string, val: Json, stamp: Json -> Option<string>): (r: Json)
    ensures key == "timestamp" && stamp(val).Some? ==> r == Str(stamp(val).value)
    ensures key == "timestamp" && stamp(val).None? ==> r == val
    ensures key != "timestamp" && IsNumeric(val) ==> r == Str(TrimZeros(Fixed4(val.n)))
    ensures key != "timestamp" && !IsNumeric(val) ==> r == Str(ToStr(val))
  {
    if key == "timestamp" then
      match stamp(val)
      case Some(t) => Str(t)
      case None => val
    else if IsNumeric(val) then Str(TrimZeros(Fixed4(val.n)))
    else Str(ToStr(val))
  }

  /** A whole number shows without decimals in a report. */
  lemma WholeNumberCell(key: string, i: int, stamp: Json -> Option<string>)
    requires key != "timestamp"
    ensures FormatValue(key, Number(IntNum(i)), stamp) == Str(IntToString(i))
  {
    var t := IntToString(i);
    assert '.' !in t by {
      if i < 0 {
        assert t == "-" + NatToString(-i);
      }
    }
    TrimWholeNumber(t);
  }

  /* ----------------------------- columns --------------------------------- */

  /** A column is shown unless it is an undesired field or starts with `_`. */
  predicate Wanted(k: string)
  {
    k !in UndesiredFields() && !("_" <= k)
  }

  /** Three of the four undesired fields already start with `_`: the filter
      only ever removes `topic` beyond the `_` prefix rule. */
  lemma WantedMeans(k: string)
    ensures Wanted(k) <==> k != "topic" && !("_" <= k)
  {
  }

  /** The columns: the keys of the first row, in order, that are wanted. */
  function Columns(first: Entries<Json>): (cols: seq<string>)
    ensures forall i :: 0 <= i < |cols| ==> Wanted(cols[i])
  {
    Filter(KeysOf(first), Wanted)
  }

  /** A key is a column exactly when it is a key of the first row and wanted. */
  lemma ColumnsMembership(first: Entries<Json>, k: string)
    ensures k in Columns(first) <==> k in KeysOf(first) && Wanted(k)
  {
    FilterMembership(KeysOf(first), Wanted, k);
  }

  /** The columns keep the first row's key order: the `c`-th column is the key
      at the `c`-th wanted position. */
  lemma ColumnsInOrder(first: Entries<Json>)
    ensures var cols := Columns(first);
      var ps := Positions(KeysOf(first), Wanted, 0);
      |cols| == |ps| && forall c :: 0 <= c < |ps| ==> cols[c] == first[ps[c]].0
  {
    FilterAtPositions(KeysOf(first), Wanted, 0);
    assert KeysOf(first)[0..] == KeysOf(first);
  }

  /** The value of `r[k]`; a missing key reads as `undefined`. */
  function Field(r: Entries<Json>, k: string): Json
  {
    match Get(r, k)
    case Some(v) => v
    case None => Undefined
  }

  /** One formatted row: exactly the columns, in column order, each holding the
      formatted value of that field of the raw row. */
  function FormatRow(cols: seq<string>, r: Entries<Json>, stamp: Json -> Option<string>): (out: Entries<Json>)
    ensures KeysOf(out) == cols
    ensures forall i :: 0 <= i < |cols| ==> out[i].1 == FormatValue(cols[i], Field(r, cols[i]), stamp)
  {
    seq(|cols|, i requires 0 <= i < |cols| => (cols[i], FormatValue(cols[i], Field(r, cols[i]), stamp)))
  }

  /* ------------------------------ the query ------------------------------ */

  /** The body of the report request. */
  datatype ReportQuery = ReportQuery(start: string, stop: string, location: string, sensorId: string, aggWindow: string)

  /** What the endpoint answers: something other than an array, or rows. */
  datatype Reply = NotArray | Rows(raw: seq<Entries<Json>>)

  /** The hook's state. */
  datatype ReportState = ReportState(
    range: TimeRange, aggWindow: string, busy: bool, err: Option<string>,
    rows: seq<Entries<Json>>, cols: seq<string>, open: bool)

  /** The initial state: the default range and window, nothing shown. */
  function InitialReport(): ReportState
  {
    ReportState(DefaultTimeRange(), DefaultAggWindow(), false, None, [], [], false)
  }

  /** The message for an empty answer. */
  const NoData := "No data returned."

  /** `runQuery(location, sensor)`. `stop` is the current instant, `startOf(r)`
      the instant `r` before it (both ISO strings), `post` answers the request
      and `stamp` renders dates. Returns the new state and the requests sent. */
  function RunQuery(st: ReportState, location: string, sensor: string, stop: string,
                    startOf: TimeRange -> string, post: ReportQuery -> Result<Reply, string>,
                    stamp: Json -> Option<string>): (out: (ReportState, seq<ReportQuery>))
    ensures location == "" || sensor == "" ==> out == (st, [])
    ensures location != "" && sensor != "" ==>
      && out.1 == [ReportQuery(startOf(st.range), stop, location, sensor, st.aggWindow)]
      && !out.0.busy
      && out.0.range == st.range && out.0.aggWindow == st.aggWindow
  {
    if location == "" || sensor == "" then (st, [])
    else
      var query := ReportQuery(startOf(st.range), stop, location, sensor, st.aggWindow);
      var sent := st.(busy := true, err := None);
      var after := match post(query)
        case Err(msg) => sent.(err := Some(msg))
        case Ok(NotArray) => sent.(err := Some(NoData), rows := [], cols := [])
        case Ok(Rows(raw)) =>
          if |raw| == 0 then sent.(err := Some(NoData), rows := [], cols := [])
          else
            var cols := Columns(raw[0]);
            sent.(cols := cols, rows := Map(raw, r => FormatRow(cols, r, stamp)), open := true);
      (after.(busy := false), [query])
  }

  /** An answer without rows reports `No data returned.`, clears the table and
      leaves the modal as it was. */
  lemma NoDataClears(st: ReportState, location: string, sensor: string, stop: string,
                     startOf: TimeRange -> string, post: ReportQuery -> Result<Reply, string>,
                     stamp: Json -> Option<string>)
    requires location != "" && sensor != ""
    requires var q := ReportQuery(startOf(st.range), stop, location, sensor, st.aggWindow);
      post(q) == Ok(NotArray) || post(q) == Ok(Rows([]))
    ensures var s := RunQuery(st, location, sensor, stop, startOf, post, stamp).0;
      s.err == Some(NoData) && s.rows == [] && s.cols == [] && s.open == st.open && !s.busy
  {
  }

  /** A failed request only records its message: the previous table stays. */
  lemma FailureKeepsTable(st: ReportState, location: string, sensor: string, stop: string,
                          startOf: TimeRange -> string, post: ReportQuery -> Result<Reply, string>,
                          stamp: Json -> Option<string>)
    requires location != "" && sensor != ""
    requires post(ReportQuery(startOf(st.range), stop, location, sensor, st.aggWindow)).Err?
    ensures var s := RunQuery(st, location, sensor, stop, startOf, post, stamp).0;
      && s.err == Some(post(ReportQuery(startOf(st.range), stop, location, sensor, st.aggWindow)).error)
      && s.rows == st.rows && s.cols == st.cols && s.open == st.open && !s.busy
  {
  }

  /** Rows open the modal: the columns come from the first row, and there is
      one formatted row per raw row, in order, each with exactly the columns. */
  lemma RowsOpen(st: ReportState, location: string, sensor: string, stop: string,
                 startOf: TimeRange -> string, post: ReportQuery -> Result<Reply, string>,
                 stamp: Json -> Option<string>)
    requires location != "" && sensor != ""
    requires var q := ReportQuery(startOf(st.range), stop, location, sensor, st.aggWindow);
      post(q).Ok? && post(q).value.Rows? && |post(q).value.raw| > 0
    ensures var raw := post(ReportQuery(startOf(st.range), stop, location, sensor, st.aggWindow)).value.raw;
      var s := RunQuery(st, location, sensor, stop, startOf, post, stamp).0;
      && s.err.None? && s.open && !s.busy
      && s.cols == Columns(raw[0])
      && |s.rows| == |raw|
      && forall j :: 0 <= j < |raw| ==>
           KeysOf(s.rows[j]) == s.cols
           && forall c :: 0 <= c < |s.cols| ==>
                s.rows[j][c].1 == FormatValue(s.cols[c], Field(raw[j], s.cols[c]), stamp)
  {
  }

  /* ------------------------ the inline predecessor ------------------------ */

  /** The undesired set written out inline in `report_backup`. */
  function BackupUndesired(): set<string>
  {
    {"_start", "_stop", "_measurement", "topic"}
  }

  /** The inline set is the shared constant, so the two column filters agree. */
  lemma BackupFilterAgrees(k: string)
    ensures (k !in BackupUndesired() && !("_" <= k)) <==> Wanted(k)
  {
  }
}
