/** The live view of the two InfluxDB-backed dashboard screens
    (`utils/firebaseworking.tsx`, `utils/threshholdswrokingfine.tsx`): the
    reading cards built from the latest record, their colour against the
    thresholds, the meta text, the per-location sensor counts, the storage keys
    of a view, and saving thresholds locally and to InfluxDB. */
module LegacyReadings {
  import opened Wrappers
  import opened Text
  import opened JsValues
  import opened KeyOrder
  import opened Sequences
  import opened LiveRows
  import opened LegacyCsv
  import opened LineProtocol

  /* ------------------------------- numbers -------------------------------- */

  /** `Number(v)`. Integer numerals and blank strings are read exactly;
      `decimal` stands for the reading of every other string (fractions,
      exponents, and the NaN of text that is no numeral). */
  function ReadNumber(v: string, decimal: string -> Num): (n: Num)
    ensures Trim(v) == "" ==> n == IntNum(0)
    ensures JsNumber(v).Finite? ==> n == JsNumber(v)
  {
    if JsNumber(v).Finite? then JsNumber(v) else decimal(v)
  }

  /** `fmtNum(v)`: an integer as `String(v)`, anything else to two decimals. */
  function FmtNum(n: Num): (r: string)
    ensures n.Finite? && n.value == n.value.Floor as real ==> r == NumText(n)
    ensures !(n.Finite? && n.value == n.value.Floor as real) ==> r == Fixed2(n)
  {
    if n.Finite? && n.value == n.value.Floor as real then NumText(n) else Fixed2(n)
  }

  /** An integer is written without decimals. */
  lemma FmtNumOfInt(i: int)
    ensures FmtNum(IntNum(i)) == IntToString(i)
  {
  }

  /* -------------------------------- cards --------------------------------- */

  /** One reading card. `num` is `None` for a value that is not a number. */
  datatype Reading = Reading(key: string, name: string, data: string, num: Option<Num>)

  /** An entry of the record that becomes a card. */
  predicate IsReadingEntry(e: (string, string))
  {
    "readings_" <= e.0
  }

  /** `FIELD_LABELS[k] || k.replace(/^readings_/, '')`. */
  function ReadingLabel(labels: Entries<string>, k: string): (r: string)
    ensures ConfiguredLabel(labels, k).Some? ==> r == ConfiguredLabel(labels, k).value
    ensures ConfiguredLabel(labels, k).None? && "readings_" <= k ==> k == "readings_" + r
  {
    match ConfiguredLabel(labels, k)
    case Some(l) => l
    case None => StripReadings(k)
  }

  /** `FIELD_LABELS[k]?.match(/\((.*)\)$/)?.[1] || ''`. */
  function ReadingUnit(labels: Entries<string>, k: string): string
  {
    match Get(labels, k)
    case Some(t) => UnitOf(t)
    case None => ""
  }

  /** The card of `utils/firebaseworking.tsx`: a number to two decimals with
      the unit, anything else as it came. */
  function FirebaseCard(labels: Entries<string>, decimal: string -> Num, e: (string, string)): (c: Reading)
    ensures c.key == e.0 && c.name == ReadingLabel(labels, e.0)
    ensures c.num.None? <==> ReadNumber(e.1, decimal).NaN?
    ensures c.num.Some? ==> c.num.value == ReadNumber(e.1, decimal) && c.data == Fixed2(c.num.value) + ReadingUnit(labels, e.0)
    ensures c.num.None? ==> c.data == e.1
  {
    var n := ReadNumber(e.1, decimal);
    if n.NaN? then Reading(e.0, ReadingLabel(labels, e.0), e.1, None)
    else Reading(e.0, ReadingLabel(labels, e.0), Fixed2(n) + ReadingUnit(labels, e.0), Some(n))
  }

  /** The card of `utils/threshholdswrokingfine.tsx` as written: a number with
      `fmtNum` and the unit, anything else as it came or `'—'` when blank. */
  function ThresholdsCardAsWritten(labels: Entries<string>, decimal: string -> Num, e: (string, string)): Reading
  {
    var n := ReadNumber(e.1, decimal);
    if n.NaN? then Reading(e.0, ReadingLabel(labels, e.0), if e.1 != "" then e.1 else "—", None)
    else Reading(e.0, ReadingLabel(labels, e.0), FmtNum(n) + ReadingUnit(labels, e.0), Some(n))
  }

  /** As written, a blank reading is a number: `Number('')` is 0, so the card
      shows `0` and the unit, and the `'—'` meant for it never appears. */
  lemma BlankReadingShowsZero(labels: Entries<string>, decimal: string -> Num, k: string)
    ensures ThresholdsCardAsWritten(labels, decimal, (k, "")).data == "0" + ReadingUnit(labels, k)
    ensures ThresholdsCardAsWritten(labels, decimal, (k, "")).num == Some(IntNum(0))
    ensures forall v :: ReadNumber(v, decimal).NaN? ==>
      (ThresholdsCardAsWritten(labels, decimal, (k, v)).data == "—" <==> v == "—")
  {
    assert Trim("") == "";
    assert IntToString(0) == "0";
  }

  /** The card with a blank reading shown as `'—'` and not counted as a
      number; every other reading as before. */
  function ThresholdsCard(labels: Entries<string>, decimal: string -> Num, e: (string, string)): (c: Reading)
    ensures c.key == e.0 && c.name == ReadingLabel(labels, e.0)
    ensures Trim(e.1) == "" ==> c.data == "—" && c.num.None?
    ensures Trim(e.1) != "" ==> c == ThresholdsCardAsWritten(labels, decimal, e)
  {
    if Trim(e.1) == "" then Reading(e.0, ReadingLabel(labels, e.0), "—", None)
    else ThresholdsCardAsWritten(labels, decimal, e)
  }

  /** The corrected card departs from the card as written only on a blank
      reading: it shows `—` and no number where the program shows `0` with the
      unit; any other reading gets the program's card. */
  lemma ThresholdsCardData(labels: Entries<string>, decimal: string -> Num, e: (string, string))
    ensures var c := ThresholdsCard(labels, decimal, e);
      var w := ThresholdsCardAsWritten(labels, decimal, e);
      && (Trim(e.1) == "" ==>
            c.data == "—" && c.num.None? && w.data == "0" + ReadingUnit(labels, e.0) && w.num == Some(IntNum(0)))
      && (Trim(e.1) != "" ==> c == w)
  {
    assert IntToString(0) == "0";
  }

  /** `Object.entries(rec).flatMap(…)`: a card for each `readings_` entry, in
      record order, through `card`. */
  function Cards(rec: Entries<string>, card: ((string, string)) -> Reading): seq<Reading>
  {
    Map(Filter(rec, IsReadingEntry), card)
  }

  /** The `k`-th card is that of the `k`-th `readings_` entry, and every such
      entry has a card. */
  lemma CardsInOrder(rec: Entries<string>, card: ((string, string)) -> Reading)
    ensures var ps := Positions(rec, IsReadingEntry, 0);
      && |Cards(rec, card)| == |ps|
      && (forall k :: 0 <= k < |ps| ==> Cards(rec, card)[k] == card(rec[ps[k]]) && "readings_" <= rec[ps[k]].0)
      && (forall i :: 0 <= i < |rec| && "readings_" <= rec[i].0 ==> i in ps)
  {
    FilterAtPositions(rec, IsReadingEntry, 0);
    assert rec[0..] == rec;
  }

  /** Where no reading is blank, the corrected cards are exactly the cards
      the program shows. */
  lemma ThresholdsCardsAsWritten(rec: Entries<string>, labels: Entries<string>, decimal: string -> Num)
    requires forall i :: 0 <= i < |rec| && IsReadingEntry(rec[i]) ==> Trim(rec[i].1) != ""
    ensures Cards(rec, e => ThresholdsCard(labels, decimal, e)) == Cards(rec, e => ThresholdsCardAsWritten(labels, decimal, e))
  {
    var kept := Filter(rec, IsReadingEntry);
    forall k | 0 <= k < |kept|
      ensures ThresholdsCard(labels, decimal, kept[k]) == ThresholdsCardAsWritten(labels, decimal, kept[k])
    {
      FilterMembership(rec, IsReadingEntry, kept[k]);
    }
  }

  /** A `readings_` key starts with a letter, so it is never an array index. */
  lemma ReadingKeyIsNamed(x: (string, string))
    ensures IsReadingEntry(x) ==> NamedEntry(x)
  {
    if IsReadingEntry(x) {
      assert x.0[0] == 'r';
    }
  }

  /** The program takes the cards from `Object.entries(rec)`, which puts
      array-index keys first; since no `readings_` key is one, the cards come
      out as the model lists them, in the order the record was built. */
  lemma CardsFollowEntries(rec: Entries<string>, card: ((string, string)) -> Reading)
    ensures Map(Filter(Enumerated(rec), IsReadingEntry), card) == Cards(rec, card)
  {
    var sorted := SortIndex(Filter(rec, IndexEntry));
    var named := Filter(rec, NamedEntry);
    FilterAppend(sorted, named, IsReadingEntry);
    forall i | 0 <= i < |sorted|
      ensures !IsReadingEntry(sorted[i])
    {
      ReadingKeyIsNamed(sorted[i]);
    }
    FilterNone(sorted, IsReadingEntry);
    forall x: (string, string)
      ensures IsReadingEntry(x) == (NamedEntry(x) && IsReadingEntry(x))
    {
      ReadingKeyIsNamed(x);
    }
    FilterFilter(rec, NamedEntry, IsReadingEntry, IsReadingEntry);
  }

  /* -------------------------------- colour -------------------------------- */

  /** The colour of a card's value. */
  datatype Colour = Green | Red | Neutral

  /** Green when the reading is at most its threshold, red when above, neutral
      when either is missing. */
  function CardColour(num: Option<Num>, threshold: Option<Num>): (c: Colour)
    ensures c == Neutral <==> num.None? || threshold.None?
    ensures c == Green <==> num.Some? && threshold.Some? && NumLe(num.value, threshold.value)
  {
    if num.Some? && threshold.Some? then
      (if NumLe(num.value, threshold.value) then Green else Red)
    else Neutral
  }

  /** Raising a threshold never turns a green card red. */
  lemma RaisingThresholdKeepsGreen(num: Option<Num>, t1: Num, t2: Num)
    requires CardColour(num, Some(t1)) == Green && NumLe(t1, t2)
    ensures CardColour(num, Some(t2)) == Green
  {
  }

  /** A blank reading is green against any threshold that is not negative as
      written, and neutral once corrected. */
  lemma BlankReadingColour(labels: Entries<string>, decimal: string -> Num, k: string, t: Num)
    requires t.Finite? && t.value >= 0.0
    ensures CardColour(ThresholdsCardAsWritten(labels, decimal, (k, "")).num, Some(t)) == Green
    ensures CardColour(ThresholdsCard(labels, decimal, (k, "")).num, Some(t)) == Neutral
  {
    BlankReadingShowsZero(labels, decimal, k);
    assert Trim("") == "";
  }

  /* ------------------------------- meta text ------------------------------ */

  /** `rec[k] || '—'`. */
  function OrDash(rec: Entries<string>, k: string): (r: string)
    ensures r == "—" <==> Get(rec, k).None? || Get(rec, k).value == "" || Get(rec, k).value == "—"
  {
    match Get(rec, k)
    case Some(v) => if v != "" then v else "—"
    case None => "—"
  }

  /** `ts ? fmtTime(ts) : ''`: the formatted `_time` of a record, empty when
      the record has none. */
  function ShownTime(rec: Entries<string>, format: string -> string): (t: string)
    ensures Get(rec, "_time").None? || Get(rec, "_time").value == "" ==> t == ""
    ensures Get(rec, "_time").Some? && Get(rec, "_time").value != "" ==> t == format(Get(rec, "_time").value)
  {
    match Get(rec, "_time")
    case Some(v) => if v != "" then format(v) else ""
    case None => ""
  }

  /** Three lines joined by line breaks. */
  function ThreeLineText(a: string, b: string, c: string): string
  {
    a + "\n" + b + "\n" + c
  }

  /** Three lines joined by line breaks split back into those lines. */
  lemma ThreeLines(a: string, b: string, c: string)
    requires '\n' !in a && '\n' !in b && '\n' !in c
    ensures Split(ThreeLineText(a, b, c), '\n') == [a, b, c]
  {
    var bc := b + "\n" + c;
    assert "\n" == ['\n'];
    SplitTwo(b, '\n', c);
    SplitAt(a, '\n', bc);
    assert ThreeLineText(a, b, c) == a + "\n" + bc by {
      Assoc(a + "\n" + b, "\n", c);
      Assoc(a + "\n", b, "\n" + c);
      Assoc(b, "\n", c);
    }
  }

  /** The meta text of `utils/firebaseworking.tsx` is three lines: the
      location, the sensor, and the formatted `_time` when the record has a
      non-empty one (the line is empty otherwise). */
  function FirebaseMeta(rec: Entries<string>, format: string -> string): (m: string)
    ensures var time := if Get(rec, "_time").Some? && Get(rec, "_time").value != "" then "Time: " + format(Get(rec, "_time").value) else "";
      '\n' !in OrDash(rec, "location") && '\n' !in OrDash(rec, "sensor_id") && '\n' !in time ==>
      Split(m, '\n') == ["Location: " + OrDash(rec, "location"), "Sensor:   " + OrDash(rec, "sensor_id"), time]
  {
    var time := if Get(rec, "_time").Some? && Get(rec, "_time").value != "" then "Time: " + format(Get(rec, "_time").value) else "";
    var a := "Location: " + OrDash(rec, "location");
    var b := "Sensor:   " + OrDash(rec, "sensor_id");
    assert '\n' !in OrDash(rec, "location") && '\n' !in OrDash(rec, "sensor_id") && '\n' !in time ==> Split(ThreeLineText(a, b, time), '\n') == [a, b, time] by {
      if '\n' !in OrDash(rec, "location") && '\n' !in OrDash(rec, "sensor_id") && '\n' !in time {
        assert '\n' !in "Location: " && '\n' !in "Sensor:   ";
        ThreeLines(a, b, time);
      }
    }
    ThreeLineText(a, b, time)
  }

  /** The meta text of `utils/threshholdswrokingfine.tsx` is three lines: the
      location, the sensor, and the time when there is a formatted time to show
      (the line is empty otherwise). */
  function ThresholdsMeta(rec: Entries<string>, format: string -> string): (m: string)
    ensures var time := if ShownTime(rec, format) != "" then "Time: " + ShownTime(rec, format) else "";
      '\n' !in OrDash(rec, "location") && '\n' !in OrDash(rec, "sensor_id") && '\n' !in time ==>
      Split(m, '\n') == ["Location: " + OrDash(rec, "location"), "Sensor ID: " + OrDash(rec, "sensor_id"), time]
  {
    var time := if ShownTime(rec, format) != "" then "Time: " + ShownTime(rec, format) else "";
    var a := "Location: " + OrDash(rec, "location");
    var b := "Sensor ID: " + OrDash(rec, "sensor_id");
    assert '\n' !in OrDash(rec, "location") && '\n' !in OrDash(rec, "sensor_id") && '\n' !in time ==> Split(ThreeLineText(a, b, time), '\n') == [a, b, time] by {
      if '\n' !in OrDash(rec, "location") && '\n' !in OrDash(rec, "sensor_id") && '\n' !in time {
        assert '\n' !in "Location: " && '\n' !in "Sensor ID: ";
        ThreeLines(a, b, time);
      }
    }
    ThreeLineText(a, b, time)
  }

  /* ------------------------------ fetchLatest ----------------------------- */

  /** The live view: meta text, cards, busy flag. */
  datatype View = View(meta: string, cards: seq<Reading>, busy: bool)

  /** `fetchLatest` of `utils/firebaseworking.tsx`, with `answer` the CSV of the
      query or its failure. */
  function FirebaseFetchLatest(answer: Result<string, string>, labels: Entries<string>,
                               decimal: string -> Num, format: string -> string): (v: View)
    ensures !v.busy
    ensures answer.Err? ==> v.meta == "Error: " + answer.error && v.cards == []
    ensures answer.Ok? && |ContentLines(answer.value)| < 2 ==> v.meta == "—" && v.cards == []
    ensures answer.Ok? && |ContentLines(answer.value)| >= 2 ==>
      var rec := LatestRecord(answer.value, CleanQuoted).value;
      v.cards == Cards(rec, e => FirebaseCard(labels, decimal, e)) && v.meta == FirebaseMeta(rec, format)
  {
    match answer
    case Err(msg) => View("Error: " + msg, [], false)
    case Ok(csv) =>
      match LatestRecord(csv, CleanQuoted)
      case None => View("—", [], false)
      case Some(rec) => View(FirebaseMeta(rec, format), Cards(rec, e => FirebaseCard(labels, decimal, e)), false)
  }

  /** `fetchLatest` of `utils/threshholdswrokingfine.tsx`, with blank readings
      shown as `'—'`. */
  function ThresholdsFetchLatest(answer: Result<string, string>, labels: Entries<string>,
                                 decimal: string -> Num, format: string -> string): (v: View)
    ensures !v.busy
    ensures answer.Err? ==> v.meta == "Error: " + answer.error && v.cards == []
    ensures answer.Ok? && |ContentLines(answer.value)| < 2 ==> v.meta == "—" && v.cards == []
    ensures answer.Ok? && |ContentLines(answer.value)| >= 2 ==>
      var rec := LatestRecord(answer.value, CleanTrimmed).value;
      v.cards == Cards(rec, e => ThresholdsCard(labels, decimal, e)) && v.meta == ThresholdsMeta(rec, format)
  {
    match answer
    case Err(msg) => View("Error: " + msg, [], false)
    case Ok(csv) =>
      match LatestRecord(csv, CleanTrimmed)
      case None => View("—", [], false)
      case Some(rec) => View(ThresholdsMeta(rec, format), Cards(rec, e => ThresholdsCard(labels, decimal, e)), false)
  }

  /* ---------------------------- location counts --------------------------- */

  /** A location and the number of its sensors. */
  datatype LocationCount = LocationCount(name: string, count: nat)

  /** The location grid: its entries and the error text. */
  datatype Grid = Grid(locs: seq<LocationCount>, err: Option<string>)

  /** The first failing query, in location order. */
  function FirstFailure(locs: seq<string>, sensorsAt: string -> Result<string, string>): (r: Option<string>)
    ensures r.None? <==> forall i :: 0 <= i < |locs| ==> sensorsAt(locs[i]).Ok?
    ensures r.Some? ==> exists i :: 0 <= i < |locs| && sensorsAt(locs[i]) == Err(r.value)
  {
    if |locs| == 0 then None
    else match sensorsAt(locs[0])
      case Err(msg) => Some(msg)
      case Ok(_) =>
        var rest := FirstFailure(locs[1..], sensorsAt);
        assert forall i :: 1 <= i < |locs| ==> locs[i] == locs[1..][i - 1];
        if rest.Some? then
          var j :| 0 <= j < |locs[1..]| && sensorsAt(locs[1..][j]) == Err(rest.value);
          assert sensorsAt(locs[j + 1]) == Err(rest.value);
          rest
        else rest
  }

  /** `fetchLocations` of `utils/firebaseworking.tsx`: the locations are the
      tag values of `answer`, each counted by the tag values of its own sensor
      query (`sensorsAt`). A failure keeps the previous grid and records one
      of the failures (the one that settles first; here, the first in order). */
  function FetchLocations(st: Grid, answer: Result<string, string>,
                          sensorsAt: string -> Result<string, string>): (r: Grid)
    ensures answer.Err? ==> r == Grid(st.locs, Some(answer.error))
    ensures answer.Ok? && (forall i :: 0 <= i < |TagValues(answer.value)| ==> sensorsAt(TagValues(answer.value)[i]).Ok?) ==>
      var names := TagValues(answer.value);
      && r.err.None?
      && |r.locs| == |names|
      && forall i :: 0 <= i < |names| ==>
           r.locs[i] == LocationCount(names[i], |TagValues(sensorsAt(names[i]).value)|)
    ensures answer.Ok? && !(forall i :: 0 <= i < |TagValues(answer.value)| ==> sensorsAt(TagValues(answer.value)[i]).Ok?) ==>
      r.locs == st.locs && r.err.Some? &&
      exists i :: 0 <= i < |TagValues(answer.value)| && sensorsAt(TagValues(answer.value)[i]) == Err(r.err.value)
  {
    match answer
    case Err(msg) => Grid(st.locs, Some(msg))
    case Ok(csv) =>
      var names := TagValues(csv);
      match FirstFailure(names, sensorsAt)
      case Some(msg) => Grid(st.locs, Some(msg))
      case None =>
        Grid(seq(|names|, i requires 0 <= i < |names| => LocationCount(names[i], |TagValues(sensorsAt(names[i]).value)|)), None)
  }

  /* -------------------------------- storage ------------------------------- */

  /** The storage key of a view's thresholds. */
  function ThresholdsKey(loc: string, sensor: string): string
  {
    "thresholds:" + loc + ":" + sensor
  }

  /** The interval key and the thresholds key of any two views differ, so
      writing one never changes what the other reads. */
  lemma KeysNeverCollide(l1: string, s1: string, l2: string, s2: string)
    ensures PollKey(l1, s1) != ThresholdsKey(l2, s2)
  {
    assert PollKey(l1, s1)[0] == 'p';
    assert ThresholdsKey(l2, s2)[0] == 't';
  }

  /** `v ? parseInt(v, 10) : POLL_OPTIONS[0].value` (`None` is NaN). */
  function ParsedInterval(v: Option<string>): (r: Option<int>)
    ensures v.None? || v == Some("") ==> r == Some(10000)
    ensures v.Some? && v.value != "" ==> r == ParseInt(v.value)
  {
    match v
    case Some(s) => if s != "" then ParseInt(s) else Some(10000)
    case None => Some(10000)
  }

  /** `onIntervalChange(value)` writes `value.toString()` under the view's key;
      opening the view again reads back the same value, and the thresholds
      stored for any view are untouched. */
  lemma ChosenIntervalReadsBack(store: map<string, string>, loc: string, sensor: string, ms: int)
    ensures var after := store[PollKey(loc, sensor) := IntToString(ms)];
      && ParsedInterval(Lookup(after, PollKey(loc, sensor))) == Some(ms)
      && forall l, s :: Lookup(after, ThresholdsKey(l, s)) == Lookup(store, ThresholdsKey(l, s))
  {
    ParseIntRoundTrip(ms);
    assert IntToString(ms) != "" by {
      if ms < 0 { assert |IntToString(ms)| > 0; } else { assert |NatToString(ms)| > 0; }
    }
    forall l, s
      ensures Lookup(store[PollKey(loc, sensor) := IntToString(ms)], ThresholdsKey(l, s)) == Lookup(store, ThresholdsKey(l, s))
    {
      KeysNeverCollide(loc, sensor, l, s);
    }
  }

  /** Loading thresholds: the parse of the stored text when there is a
      non-empty one, the defaults otherwise. */
  function LoadThresholds<T>(v: Option<string>, parse: string -> T, defaults: T): (r: T)
    ensures v.None? || v == Some("") ==> r == defaults
    ensures v.Some? && v.value != "" ==> r == parse(v.value)
  {
    match v
    case Some(s) => if s != "" then parse(s) else defaults
    case None => defaults
  }

  /* ---------------------------- saving thresholds ------------------------- */

  /** What saving does, in order. */
  datatype Effect = StoreWrite(key: string, value: string) | Post(line: string)

  /** The outcome of saving: the effects in order, how many remote writes
      failed, the message shown, and whether the panel stays open. */
  datatype Saved = Saved(effects: seq<Effect>, failures: nat, message: string, panelOpen: bool)

  /** The line written for one field: scope `sensor_id`, level `critical`,
      minimum 0, the field's value as maximum, and a description. */
  function FieldLine(sensor: string, field: string, maxVal: Num): string
  {
    ThresholdLine(field, ScopeName(SensorId), sensor, "critical", IntNum(0), maxVal, Some("Threshold for " + field))
  }

  /** The remote writes of the loop, one per entry in order. */
  function FieldPosts(sensor: string, entries: Entries<Num>): (posts: seq<Effect>)
    ensures |posts| == |entries|
    ensures forall i {:trigger posts[i]} :: 0 <= i < |entries| ==> posts[i] == Post(FieldLine(sensor, entries[i].0, entries[i].1))
  {
    if |entries| == 0 then []
    else [Post(FieldLine(sensor, entries[0].0, entries[0].1))] + FieldPosts(sensor, entries[1..])
  }

  /** The loop itself: every entry is written whatever became of the earlier
      writes, and a failing write is counted. */
  function PostAll(sensor: string, entries: Entries<Num>, respond: string -> (int, string)): (r: (seq<Effect>, nat))
    ensures r.0 == FieldPosts(sensor, entries)
    ensures r.1 <= |entries|
  {
    if |entries| == 0 then ([], 0)
    else
      var line := FieldLine(sensor, entries[0].0, entries[0].1);
      var (rest, failed) := PostAll(sensor, entries[1..], respond);
      var status := respond(line).0;
      ([Post(line)] + rest, failed + (if 200 <= status <= 299 then 0 else 1))
  }

  /** The message after a save when alerts are switched on. */
  const SavedWithAlerts := "Thresholds saved to InfluxDB. Alerts will fire based on your configured tasks."

  /** The message after a save when alerts are switched off. */
  const SavedWithoutAlerts := "Thresholds saved locally and to InfluxDB."

  /** `saveThresholds` of `utils/firebaseworking.tsx`: the thresholds are stored
      locally first (rendered by `render`, for `JSON.stringify`), then every
      field is written to InfluxDB whatever became of the earlier writes, a
      message is shown and the panel closes. */
  function SaveThresholds(loc: string, sensor: string, thresholds: Entries<Num>, alertsEnabled: bool,
                          render: Entries<Num> -> string, respond: string -> (int, string)): (r: Saved)
    ensures |r.effects| == |thresholds| + 1
    ensures r.effects[0] == StoreWrite(ThresholdsKey(loc, sensor), render(thresholds))
    ensures r.effects == [StoreWrite(ThresholdsKey(loc, sensor), render(thresholds))] + FieldPosts(sensor, thresholds)
    ensures r.failures <= |thresholds|
    ensures !r.panelOpen
    ensures r.message == if alertsEnabled then SavedWithAlerts else SavedWithoutAlerts
  {
    var (posts, failed) := PostAll(sensor, thresholds, respond);
    var msg := if alertsEnabled then SavedWithAlerts else SavedWithoutAlerts;
    Saved([StoreWrite(ThresholdsKey(loc, sensor), render(thresholds))] + posts, failed, msg, false)
  }

  /** Each field's line names the field and the sensor as tags, in that order,
      and carries the description `Threshold for <field>`. */
  lemma FieldLineReadsBack(sensor: string, field: string, maxVal: Num)
    requires '\\' !in sensor && '\\' !in field
    ensures var line := FieldLine(sensor, field, maxVal);
      && Measurement + "," <= line
      && ReadTags(line[|Measurement| + 1..], 4)
           == Some(([("metric_name", field), ("scope_type", "sensor_id"), ("scope_value", sensor), ("level", "critical")],
                    " " + FieldSet(IntNum(0), maxVal, Some("Threshold for " + field))))
  {
    assert '\\' !in ScopeName(SensorId);
    ThresholdLineRoundTrip(field, ScopeName(SensorId), sensor, "critical", IntNum(0), maxVal, Some("Threshold for " + field));
  }

  /** The `utils/threshholdswrokingfine.tsx` save: only the local write, then
      the panel closes. */
  function SaveLocally(loc: string, sensor: string, thresholds: Entries<Num>,
                       render: Entries<Num> -> string): (r: Saved)
    ensures r.effects == [StoreWrite(ThresholdsKey(loc, sensor), render(thresholds))]
    ensures !r.panelOpen && r.failures == 0
  {
    Saved([StoreWrite(ThresholdsKey(loc, sensor), render(thresholds))], 0, "", false)
  }
}
