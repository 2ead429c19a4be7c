/** The live view of one sensor (`useLiveData`): turning the probes of
    `GET /sensor/{id}/details` into display rows, the meta text, and the
    poll interval read from storage when the view opens. */
module LiveRows {
  import opened Wrappers
  import opened Text
  import opened JsValues
  import opened DashboardTypes
  import opened DashboardConstants

  /* ------------------------------- labels -------------------------------- */

  /** `name.replace(/^readings_/, '')`. */
  function StripReadings(name: string): (r: string)
    ensures "readings_" <= name ==> name == "readings_" + r
    ensures !("readings_" <= name) ==> r == name
  {
    if "readings_" <= name then name[9..] else name
  }

  /** The label of a probe without a configured one: the prefix `readings_`
      dropped and every `_` shown as a space. */
  function FallbackLabel(name: string): string
  {
    ReplaceAll(StripReadings(name), '_', " ")
  }

  /** The fallback label has the length of the stripped name, no `_`, and
      keeps every other character in place. */
  lemma FallbackLabelShape(name: string)
    ensures var base := StripReadings(name);
      var r := FallbackLabel(name);
      && |r| == |base|
      && '_' !in r
      && (forall i :: 0 <= i < |base| ==> r[i] == (if base[i] == '_' then ' ' else base[i]))
  {
    ReplaceCharPointwise(StripReadings(name), '_', ' ');
  }

  /** The configured label, when `labels` has a non-empty one (`FIELD_LABELS[p.name] || …`). */
  function ConfiguredLabel(labels: Entries<string>, name: string): Option<string>
  {
    match Get(labels, name)
    case Some(l) => if l != "" then Some(l) else None
    case None => None
  }

  /** The label of a row: the configured one, else the fallback. */
  function Label(labels: Entries<string>, name: string): (r: string)
    ensures ConfiguredLabel(labels, name).Some? ==> r == ConfiguredLabel(labels, name).value
    ensures ConfiguredLabel(labels, name).None? ==> r == FallbackLabel(name)
  {
    match ConfiguredLabel(labels, name)
    case Some(l) => l
    case None => FallbackLabel(name)
  }

  /* -------------------------------- units -------------------------------- */

  /** `/\((.*)\)$/` can match from position `i`: a `(` there, a `)` as the last
      character, and no line terminator in between (`.` does not match one). */
  predicate OpensUnit(title: string, i: int)
  {
    && 0 <= i && i + 2 <= |title|
    && title[i] == '('
    && title[|title| - 1] == ')'
    && forall k :: i < k < |title| - 1 ==> !IsLineTerminator(title[k])
  }

  /** The leftmost match position at or after `from`. */
  function FirstOpen(title: string, from: nat): (r: Option<nat>)
    requires from <= |title|
    ensures r.Some? ==> from <= r.value && OpensUnit(title, r.value)
    ensures r.Some? ==> forall j :: from <= j < r.value ==> !OpensUnit(title, j)
    ensures r.None? ==> forall j :: from <= j ==> !OpensUnit(title, j)
    decreases |title| - from
  {
    if from + 2 > |title| then None
    else if OpensUnit(title, from) then Some(from)
    else FirstOpen(title, from + 1)
  }

  /** `label.match(/\((.*)\)$/)?.[1] || ''`: the text inside the trailing
      parentheses, taken from the leftmost `(` that can start a match. */
  function UnitOf(title: string): (r: string)
    ensures r != "" ==> exists i :: (OpensUnit(title, i) && r == title[i + 1..|title| - 1]
      && forall j :: 0 <= j < i ==> !OpensUnit(title, j))
    ensures r == "" ==> forall i :: OpensUnit(title, i) ==> i == |title| - 2
  {
    match FirstOpen(title, 0)
    case None => ""
    case Some(i) => title[i + 1..|title| - 1]
  }

  /** A label written `name (unit)`, with no `(` in the name and no line
      terminator in the unit, has that unit. */
  lemma UnitOfParenthesised(name: string, unit: string)
    requires '(' !in name
    requires forall k :: 0 <= k < |unit| ==> !IsLineTerminator(unit[k])
    ensures UnitOf(name + " (" + unit + ")") == unit
  {
    var title := name + " (" + unit + ")";
    var i := |name| + 1;
    assert title[i] == '(';
    assert forall k :: i < k < |title| - 1 ==> title[k] == unit[k - i - 1];
    assert OpensUnit(title, i);
    forall j | 0 <= j < i
      ensures !OpensUnit(title, j)
    {
      if j < |name| {
        assert title[j] == name[j];
      } else {
        assert title[j] == ' ';
      }
    }
    assert title[i + 1..|title| - 1] == unit;
  }

  /** A label without trailing parentheses has no unit. */
  lemma UnitOfPlain(title: string)
    requires |title| == 0 || title[|title| - 1] != ')'
    ensures UnitOf(title) == ""
  {
  }

  /* --------------------------------- rows -------------------------------- */

  /** The row of one probe. A numeric value with a configured label is shown
      with two decimals and the label's unit; anything else as `String(value)`. */
  function ToRow(labels: Entries<string>, p: Probe): (row: DataRow)
    ensures row.key == p.name && row.name == Label(labels, p.name)
    ensures row.breached == p.breached && row.min == p.thresholdMin && row.max == p.thresholdMax
    ensures row.num.Some? <==> p.value.Number?
    ensures p.value.Number? ==> row.num.value == p.value.n
  {
    var isNum := p.value.Number?;
    var data :=
      if isNum && ConfiguredLabel(labels, p.name).Some? then
        Fixed2(p.value.n) + " " + UnitOf(ConfiguredLabel(labels, p.name).value)
      else ToStr(p.value);
    DataRow(p.name, Label(labels, p.name), data, if isNum then Some(p.value.n) else None,
            p.breached, p.thresholdMin, p.thresholdMax)
  }

  /** The shown text: a numeric reading with a label `name (unit)` reads
      `<value to two decimals> <unit>`; a reading that is not a number, or has no
      label, is its `String()` form. */
  lemma RowData(labels: Entries<string>, p: Probe, name: string, unit: string)
    requires '(' !in name
    requires forall k :: 0 <= k < |unit| ==> !IsLineTerminator(unit[k])
    ensures p.value.Number? && Get(labels, p.name) == Some(name + " (" + unit + ")") ==>
      ToRow(labels, p).data == Fixed2(p.value.n) + " " + unit
    ensures !p.value.Number? || Get(labels, p.name).None? ==> ToRow(labels, p).data == ToStr(p.value)
  {
    UnitOfParenthesised(name, unit);
  }

  /** `(data.latest_probes || []).map(…)`: one row per probe, in order. */
  function Rows(labels: Entries<string>, probes: seq<Probe>): (rows: seq<DataRow>)
    ensures |rows| == |probes|
    ensures forall i :: 0 <= i < |probes| ==> rows[i] == ToRow(labels, probes[i])
  {
    seq(|probes|, i requires 0 <= i < |probes| => ToRow(labels, probes[i]))
  }

  /* ----------------------------- fetchLatest ----------------------------- */

  /** The part of the details response the live view reads. A `status` that is
      not a string makes `toUpperCase` throw, which is a failed fetch here. */
  datatype Details = Details(location: Json, sensorId: Json, status: string, probes: Option<seq<Probe>>)

  /** The live view's state. */
  datatype LiveView = LiveView(rows: seq<DataRow>, metaTxt: string, busy: bool)

  /** The request path of `fetchLatest`. */
  function DetailsPath(sensor: string): string
  {
    "/sensor/" + sensor + "/details?utc=false"
  }

  /** The meta text on success. `upper` is `toUpperCase`; `format` is the
      `YYYY-MM-DD HH:mm:ss` rendering of a timestamp. */
  function MetaText(d: Details, upper: string -> string, format: string -> string): string
  {
    var probes := d.probes.GetOr([]);
    "Location: " + ToStr(d.location) + "\n"
      + "Sensor:   " + ToStr(d.sensorId) + "\n"
      + "Status:   " + upper(d.status) + "\n"
      + (if |probes| > 0 then "Time: " + format(probes[0].timestamp) else "")
  }

  /** `fetchLatest`, with `fetch` answering the request. Without a sensor
      nothing happens; otherwise the view ends not busy, showing either one row
      per probe or no rows and an error text. */
  function FetchLatest(st: LiveView, sensor: string, fetch: string -> Result<Details, string>,
                       upper: string -> string, format: string -> string): (r: LiveView)
    ensures sensor == "" ==> r == st
    ensures sensor != "" ==> !r.busy
    ensures sensor != "" && fetch(DetailsPath(sensor)).Err? ==>
      r.rows == [] && r.metaTxt == "Error: " + fetch(DetailsPath(sensor)).error
    ensures sensor != "" && fetch(DetailsPath(sensor)).Ok? ==>
      var probes := fetch(DetailsPath(sensor)).value.probes.GetOr([]);
      && |r.rows| == |probes|
      && (forall i :: 0 <= i < |probes| ==> r.rows[i] == ToRow(FieldLabels(), probes[i]) && r.rows[i].key == probes[i].name)
      && "Location: " <= r.metaTxt
  {
    if sensor == "" then st
    else
      match fetch(DetailsPath(sensor))
      case Ok(d) => LiveView(Rows(FieldLabels(), d.probes.GetOr([])), MetaText(d, upper, format), false)
      case Err(msg) => LiveView([], "Error: " + msg, false)
  }

  /* ---------------------------- poll interval ---------------------------- */

  /** The storage key of a view's poll interval. */
  function PollKey(loc: string, sensor: string): string
  {
    "pollInterval:" + loc + ":" + sensor
  }

  /** `AsyncStorage.getItem(key)` on a storage map. */
  function Lookup(store: map<string, string>, key: string): Option<string>
  {
    if key in store then Some(store[key]) else None
  }

  /** `v ? +v : POLL_OPTIONS[0].value`: a stored non-empty string is read as a
      number, anything else falls back to the first poll option. */
  function StoredInterval(v: Option<string>): (n: Num)
    ensures (v.None? || v == Some("")) ==> n == IntNum(10000)
    ensures v.Some? && v.value != "" ==> n == JsNumber(v.value)
  {
    match v
    case Some(s) => if s != "" then JsNumber(s) else IntNum(DefaultPollInterval())
    case None => IntNum(DefaultPollInterval())
  }

  /** An interval stored as `String(ms)` under the view's key reads back as
      `ms`, whatever else the storage holds. */
  lemma IntervalRoundTrip(store: map<string, string>, loc: string, sensor: string, ms: int)
    ensures StoredInterval(Lookup(store[PollKey(loc, sensor) := IntToString(ms)], PollKey(loc, sensor))) == IntNum(ms)
  {
    JsNumberRoundTrip(ms);
    assert IntToString(ms) != "" by {
      if ms < 0 { assert |IntToString(ms)| > 0; } else { assert |NatToString(ms)| > 0; }
    }
  }

  /** Without a stored interval the view polls every ten seconds. */
  lemma IntervalDefault(store: map<string, string>, loc: string, sensor: string)
    requires PollKey(loc, sensor) !in store
    ensures StoredInterval(Lookup(store, PollKey(loc, sensor))) == IntNum(PollOptions()[0].value)
  {
  }
}
