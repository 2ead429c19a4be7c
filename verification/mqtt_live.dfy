/** The MQTT live view of the earlier dashboard screens
    (`utils/mqttworkingfine.tsx`, `assets/bkp3.tsx`): the topic a sensor
    publishes on, the rule that the screen keeps at most one connected client,
    and how a message becomes the meta text and the reading rows. The MQTT
    transport is left out; a client is what the screen created and whether it
    has been disconnected since. */
module MqttLive {
  import opened Wrappers
  import opened Text
  import opened JsValues
  import opened Sequences
  import opened Uptime
  import opened LegacyReadings

  /* --------------------------------- topic -------------------------------- */

  /** `` `iot/${loc}/${sensor}/${sensor}/data` ``. */
  function Topic(loc: string, sensor: string): string
  {
    "iot/" + loc + "/" + sensor + "/" + sensor + "/data"
  }

  /** The topic is the five segments `iot`, the location, the sensor twice and
      `data`, joined by `/`. */
  lemma TopicIsJoin(loc: string, sensor: string)
    ensures Topic(loc, sensor) == Join(["iot", loc, sensor, sensor, "data"], "/")
  {
    var parts := ["iot", loc, sensor, sensor, "data"];
    assert Join(parts[4..], "/") == "data";
    assert Join(parts[3..], "/") == sensor + "/" + "data" by { assert parts[3..][1..] == parts[4..]; }
    assert Join(parts[2..], "/") == sensor + "/" + (sensor + "/" + "data") by { assert parts[2..][1..] == parts[3..]; }
    assert Join(parts[1..], "/") == loc + "/" + (sensor + "/" + (sensor + "/" + "data")) by { assert parts[1..][1..] == parts[2..]; }
    assert Join(parts, "/") == "iot" + "/" + (loc + "/" + (sensor + "/" + (sensor + "/" + "data")));
  }

  /** For names without `/`, the topic splits back into its segments, so two
      views share a topic only when they show the same sensor at the same
      location. */
  lemma TopicSegments(loc: string, sensor: string)
    requires '/' !in loc && '/' !in sensor
    ensures Split(Topic(loc, sensor), '/') == ["iot", loc, sensor, sensor, "data"]
  {
    TopicIsJoin(loc, sensor);
    var parts := ["iot", loc, sensor, sensor, "data"];
    assert forall i :: 0 <= i < |parts| ==> '/' !in parts[i];
    JoinSplit(parts, '/');
  }

  /** Distinct views subscribe to distinct topics. */
  lemma TopicInjective(l1: string, s1: string, l2: string, s2: string)
    requires '/' !in l1 && '/' !in s1 && '/' !in l2 && '/' !in s2
    requires Topic(l1, s1) == Topic(l2, s2)
    ensures l1 == l2 && s1 == s2
  {
    TopicSegments(l1, s1);
    TopicSegments(l2, s2);
  }

  /* ------------------------------- session -------------------------------- */

  /** A client the screen created: its topic, and whether it is still
      connected (it has not been disconnected since). */
  datatype Client = Client(topic: string, connected: bool)

  /** A row of the live view. */
  datatype Row = Row(name: string, data: string)

  /** The live view: every client created so far, the one `mqttRef` holds,
      whether the view is open and busy, the sensor shown, the meta text and
      the rows. */
  datatype Session = Session(clients: seq<Client>, current: Option<nat>, open: bool, busy: bool,
                             sensor: string, meta: string, rows: seq<Row>)

  /** `mqttRef` points at a created client, and only that client can still be
      connected. */
  predicate Valid(s: Session)
  {
    && (s.current.Some? ==> s.current.value < |s.clients|)
    && forall i :: 0 <= i < |s.clients| && s.clients[i].connected ==> s.current == Some(i)
  }

  /** The screen before any view was opened. */
  function Initial(): (s: Session)
    ensures Valid(s) && s.clients == [] && !s.open
  {
    Session([], None, false, false, "", "", [])
  }

  /** Under the invariant at most one client is connected. */
  lemma AtMostOneConnected(s: Session, i: int, j: int)
    requires Valid(s)
    requires 0 <= i < |s.clients| && 0 <= j < |s.clients|
    requires s.clients[i].connected && s.clients[j].connected
    ensures i == j
  {
  }

  /** `mqttRef.current?.disconnect()`: the referenced client, if any, is
      disconnected; every other client is left as it was. */
  function DisconnectCurrent(s: Session): (r: Session)
    ensures |r.clients| == |s.clients| && r.current == s.current
    ensures forall i :: 0 <= i < |s.clients| ==>
      r.clients[i].topic == s.clients[i].topic &&
      r.clients[i].connected == (s.clients[i].connected && s.current != Some(i))
    ensures Valid(s) ==> forall i :: 0 <= i < |r.clients| ==> !r.clients[i].connected
  {
    match s.current
    case Some(c) =>
      if c < |s.clients| then s.(clients := s.clients[c := s.clients[c].(connected := false)])
      else s
    case None => s
  }

  /** `openLive(sensor)`: the previous client is disconnected before a new one
      is created for the sensor's topic and stored in `mqttRef`; the view opens
      busy and without rows. */
  function OpenLive(s: Session, loc: string, sensor: string): (r: Session)
    ensures Valid(s) ==> Valid(r)
    ensures |r.clients| == |s.clients| + 1 && r.clients[|s.clients|] == Client(Topic(loc, sensor), true)
    ensures r.current == Some(|s.clients|)
    ensures Valid(s) ==> forall i :: 0 <= i < |s.clients| ==> !r.clients[i].connected
    ensures r.open && r.busy && r.rows == [] && r.sensor == sensor && r.meta == s.meta
  {
    var d := DisconnectCurrent(s);
    Session(d.clients + [Client(Topic(loc, sensor), true)], Some(|s.clients|), true, true, sensor, s.meta, [])
  }

  /** `openLive` of `utils/mqttworkingfine.tsx`, which also clears the meta
      text. */
  function OpenLiveClearing(s: Session, loc: string, sensor: string): (r: Session)
    ensures Valid(s) ==> Valid(r)
    ensures r.meta == "" && r.clients == OpenLive(s, loc, sensor).clients && r.current == Some(|s.clients|)
  {
    OpenLive(s, loc, sensor).(meta := "")
  }

  /** Closing the view disconnects the referenced client; afterwards no client
      is connected. */
  function CloseLive(s: Session): (r: Session)
    ensures Valid(s) ==> Valid(r) && forall i :: 0 <= i < |r.clients| ==> !r.clients[i].connected
    ensures !r.open && r.rows == s.rows && r.meta == s.meta
  {
    DisconnectCurrent(s).(open := false)
  }

  /** `onFailure` of the connection: the view stops being busy. */
  function ConnectFailed(s: Session): (r: Session)
    ensures !r.busy && r.clients == s.clients && r.current == s.current
  {
    s.(busy := false)
  }

  /* ------------------------- a message, first screen ---------------------- */

  /** A parsed message of `utils/mqttworkingfine.tsx`: the top-level fields,
      the entries of `status` and those of `readings` (empty when the message
      has none), each in `Object.entries` order. */
  datatype Telemetry = Telemetry(fields: Entries<Json>, status: Entries<Json>, readings: Entries<Json>)

  /** `obj[k]`: `undefined` for a missing key. */
  function Field(e: Entries<Json>, k: string): (v: Json)
    ensures k !in KeysOf(e) ==> v == Undefined
    ensures k in KeysOf(e) ==> Get(e, k) == Some(v)
  {
    match Get(e, k)
    case Some(v) => v
    case None => Undefined
  }

  /** `UNITS`. */
  function Units(): Entries<string>
  {
    [("temperature", "°C"), ("humidity", "%"), ("voltage", "V"),
     ("temperature_dht", "°C"), ("humidity_dht", "%"), ("voltage_ads", "V"),
     ("pzem_voltage", "V"), ("pzem_current", "A"), ("pzem_power", "W"),
     ("pzem_energy", "kWh"), ("pzem_frequency", "Hz"), ("pzem_power_factor", "")]
  }

  /** `UNITS[k] || ''` (and `UNITS[k] ?? ''`, the same here, since the only
      falsy unit is `''`). */
  function UnitFor(k: string): string
  {
    match Get(Units(), k)
    case Some(u) => u
    case None => ""
  }

  /** `v || '—'` for a value shown with `String`. */
  function ShownOrDash(v: Json): (r: string)
    ensures Truthy(v) ==> r == ToStr(v)
    ensures !Truthy(v) ==> r == "—"
  {
    if Truthy(v) then ToStr(v) else "—"
  }

  /** `x && `${title}${x}``: the line when `x` is truthy, nothing otherwise. */
  function Optional(v: Json, title: string): (r: string)
    ensures Truthy(v) ==> r == title + ToStr(v)
    ensures !Truthy(v) ==> r == ""
  {
    if Truthy(v) then title + ToStr(v) else ""
  }

  /** `fmtUptime(obj.status.uptime_sec)` for a whole number of seconds; any
      other value is rendered by `other`. */
  function UptimeText(v: Json, other: Json -> string): (r: string)
    ensures v.Number? && v.n.Finite? && v.n.value == v.n.value.Floor as real ==> r == FmtUptime(v.n.value.Floor)
  {
    if v.Number? && v.n.Finite? && v.n.value == v.n.value.Floor as real then FmtUptime(v.n.value.Floor) else other(v)
  }

  /** `${title}${x || '—'}`: a line that is always shown, under its title. */
  function ShownLine(title: string, v: Json): (r: string)
    ensures |r| >= |title| && r[..|title|] == title
    ensures r[|title|..] == ShownOrDash(v)
  {
    title + ShownOrDash(v)
  }

  /** `ts && `Time: ${ts}``, with `ts` the formatted `obj.timestamp` or `''`. */
  function TimePart(t: Telemetry, unix: Json -> string): (r: string)
    ensures |r| > 0 ==> r[0] == 'T'
  {
    var ts := if Truthy(Field(t.fields, "timestamp")) then unix(Field(t.fields, "timestamp")) else "";
    if |ts| > 0 then "Time: " + ts else ""
  }

  /** `obj.status?.uptime_sec && `Uptime: ${fmtUptime(…)}``. */
  function UptimePart(t: Telemetry, other: Json -> string): (r: string)
    ensures |r| > 0 ==> r[0] == 'U'
  {
    var up := Field(t.status, "uptime_sec");
    if Truthy(up) then "Uptime: " + UptimeText(up, other) else ""
  }

  /** The candidate meta lines in order; an empty string stands for a part
      that is dropped. `unix` formats `obj.timestamp` as seconds. */
  function MetaParts(t: Telemetry, unix: Json -> string, other: Json -> string): (p: seq<string>)
    ensures |p| == 7
    ensures p[0] == ShownLine("Location: ", Field(t.fields, "location"))
    ensures p[1] == ShownLine("Sensor ID: ", Field(t.fields, "sensor_id"))
    ensures p[3] == Optional(Field(t.status, "ip"), "IP: ")
  {
    [ShownLine("Location: ", Field(t.fields, "location")),
     ShownLine("Sensor ID: ", Field(t.fields, "sensor_id")),
     TimePart(t, unix),
     Optional(Field(t.status, "ip"), "IP: "),
     Optional(Field(t.status, "mac"), "MAC: "),
     Optional(Field(t.status, "net_status"), "Network: "),
     UptimePart(t, other)]
  }

  /** Only the IP part can start with `I`: every other present part starts
      with its own title. */
  lemma MetaPartsInitials(t: Telemetry, unix: Json -> string, other: Json -> string)
    ensures var p := MetaParts(t, unix, other);
      forall k :: 0 <= k < 7 && k != 3 && |p[k]| > 0 ==> p[k][0] != 'I'
  {
    var p := MetaParts(t, unix, other);
    forall k | 0 <= k < 7 && k != 3 && |p[k]| > 0
      ensures p[k][0] != 'I'
    {
      if k == 0 {
        assert p[k][0] == 'L';
      } else if k == 1 {
        assert p[k][0] == 'S';
      } else if k == 2 {
        assert p[k][0] == 'T';
      } else if k == 4 {
        assert p[k][0] == 'M';
      } else if k == 5 {
        assert p[k][0] == 'N';
      } else {
        assert p[k][0] == 'U';
      }
    }
  }

  /** A part that is present. */
  predicate Present(p: string)
  {
    |p| > 0
  }

  /** `[…].filter(Boolean).join('\n')`: the lines are the parts present, in
      order, and the location and sensor lines always come first. */
  function MqttMeta(t: Telemetry, unix: Json -> string, other: Json -> string): (m: string)
    ensures var parts := MetaParts(t, unix, other);
      (forall i :: 0 <= i < |parts| ==> '\n' !in parts[i]) ==>
      Split(m, '\n') == Filter(parts, Present) && |Split(m, '\n')| >= 2 &&
      Split(m, '\n')[0] == parts[0] && Split(m, '\n')[1] == parts[1]
  {
    var parts := MetaParts(t, unix, other);
    assert |parts[0]| > 0 && |parts[1]| > 0;
    PresentLinesSplit(parts);
    Join(Filter(parts, Present), "\n")
  }

  /** Two present parts in front stay in front of the filtered rest. */
  lemma PresentFirstTwo(parts: seq<string>)
    requires |parts| >= 2 && Present(parts[0]) && Present(parts[1])
    ensures Filter(parts, Present) == [parts[0], parts[1]] + Filter(parts[2..], Present)
  {
    assert parts == [parts[0]] + ([parts[1]] + parts[2..]);
    FilterAppend([parts[0]], [parts[1]] + parts[2..], Present);
    FilterAppend([parts[1]], parts[2..], Present);
  }

  /** Joining the present parts with newlines and splitting again gives them
      back, the first two leading when those two are present. */
  lemma PresentLinesSplit(parts: seq<string>)
    requires |parts| >= 2 && Present(parts[0]) && Present(parts[1])
    ensures var lines := Filter(parts, Present);
      && |lines| >= 2 && lines[0] == parts[0] && lines[1] == parts[1]
      && ((forall i :: 0 <= i < |parts| ==> '\n' !in parts[i]) ==> Split(Join(lines, "\n"), '\n') == lines)
  {
    var lines := Filter(parts, Present);
    PresentFirstTwo(parts);
    if forall i :: 0 <= i < |parts| ==> '\n' !in parts[i] {
      forall i | 0 <= i < |lines|
        ensures '\n' !in lines[i]
      {
        FilterMembership(parts, Present, lines[i]);
      }
      JoinSplit(lines, '\n');
    }
  }

  /** The IP line shows exactly when the status has a truthy `ip`. */
  lemma IpLineShown(t: Telemetry, unix: Json -> string, other: Json -> string)
    requires forall i :: 0 <= i < 7 ==> '\n' !in MetaParts(t, unix, other)[i]
    ensures var ip := Field(t.status, "ip");
      Truthy(ip) <==> "IP: " + ToStr(ip) in Split(MqttMeta(t, unix, other), '\n')
  {
    var parts := MetaParts(t, unix, other);
    var line := "IP: " + ToStr(Field(t.status, "ip"));
    FilterMembership(parts, Present, line);
    MetaPartsInitials(t, unix, other);
    if line in parts {
      var k :| 0 <= k < 7 && parts[k] == line;
      assert line[0] == 'I';
    }
  }

  /** `data` of one readings entry: `—` for null, a number with `fmtNum` and
      its unit, anything else with `String`. */
  function ReadingData(k: string, v: Json): (d: string)
    ensures v.Null? || v.Undefined? ==> d == "—"
    ensures v.Number? ==> d == FmtNum(v.n) + UnitFor(k)
    ensures !(v.Null? || v.Undefined? || v.Number?) ==> d == ToStr(v)
  {
    match v
    case Null => "—"
    case Undefined => "—"
    case Number(n) => FmtNum(n) + UnitFor(k)
    case _ => ToStr(v)
  }

  /** `Object.entries(obj.readings || {}).map(…)`: one row per readings entry,
      in order, named by its key. */
  function MqttRows(t: Telemetry): (rows: seq<Row>)
    ensures |rows| == |t.readings|
    ensures forall i :: 0 <= i < |rows| ==>
      rows[i] == Row(t.readings[i].0, ReadingData(t.readings[i].0, t.readings[i].1))
  {
    seq(|t.readings|, i requires 0 <= i < |t.readings| => Row(t.readings[i].0, ReadingData(t.readings[i].0, t.readings[i].1)))
  }

  /** A number without a unit is shown bare: `pzem_power_factor` and every
      key missing from the unit table. */
  lemma UnitlessNumber(k: string, n: Num)
    requires k == "pzem_power_factor" || k !in KeysOf(Units())
    ensures ReadingData(k, Number(n)) == FmtNum(n)
  {
    assert UnitFor(k) == "" by {
      if k == "pzem_power_factor" {
        GetEntry(Units(), 11);
      }
    }
  }

  /** `onMessageArrived` of `utils/mqttworkingfine.tsx`, with `parse` for
      `JSON.parse` (`None` when it throws). A message that does not parse
      leaves the view as it was; either way the view stops being busy. */
  function MqttMessage(s: Session, payload: string, parse: string -> Option<Telemetry>,
                       unix: Json -> string, other: Json -> string): (r: Session)
    ensures !r.busy && r.clients == s.clients && r.current == s.current && r.open == s.open
    ensures parse(payload).None? ==> r.meta == s.meta && r.rows == s.rows
    ensures parse(payload).Some? ==>
      r.meta == MqttMeta(parse(payload).value, unix, other) && r.rows == MqttRows(parse(payload).value)
  {
    match parse(payload)
    case None => s.(busy := false)
    case Some(t) => s.(meta := MqttMeta(t, unix, other), rows := MqttRows(t), busy := false)
  }

  /* ------------------------- a message, second screen --------------------- */

  /** `if (o && o.payload) raw = o.payload`: an object message with a truthy
      `payload` is replaced by it (parsed again as `String(payload)`).
      `parse` stands for `JSON.parse` followed by "is an object". */
  function Unwrap(raw: string, parse: string -> Option<Entries<Json>>): (r: string)
    ensures parse(raw).Some? && Truthy(Field(parse(raw).value, "payload")) ==>
      r == ToStr(Field(parse(raw).value, "payload"))
    ensures parse(raw).None? || !Truthy(Field(parse(raw).value, "payload")) ==> r == raw
  {
    match parse(raw)
    case Some(o) => if Truthy(Field(o, "payload")) then ToStr(Field(o, "payload")) else raw
    case None => raw
  }

  /** `String(v)` for a number `fmtNum(v)` with its unit, for anything else
      `String(v)`. */
  function BkpData(k: string, v: Json): (d: string)
    ensures v.Number? ==> d == FmtNum(v.n) + UnitFor(k)
    ensures !v.Number? ==> d == ToStr(v)
  {
    if v.Number? then FmtNum(v.n) + UnitFor(k) else ToStr(v)
  }

  /** An entry that is not the timestamp. */
  predicate NotTimestamp(e: (string, Json))
  {
    e.0 != "timestamp"
  }

  /** No entry left after dropping the timestamp is keyed `timestamp`. */
  lemma NoTimestampLeft(o: Entries<Json>)
    ensures var rest := Filter(o, NotTimestamp);
      forall i :: 0 <= i < |rest| ==> rest[i].0 != "timestamp"
  {
    var rest := Filter(o, NotTimestamp);
    forall i | 0 <= i < |rest|
      ensures rest[i].0 != "timestamp"
    {
      FilterMembership(o, NotTimestamp, rest[i]);
    }
  }

  /** The rows of `assets/bkp3.tsx`: a `Time` row first when the message has a
      `timestamp` key, then a row for every other key in order. */
  function BkpRows(o: Entries<Json>, unix: Json -> string): (rows: seq<Row>)
    ensures var rest := Filter(o, NotTimestamp);
      && ("timestamp" in KeysOf(o) ==> |rows| == |rest| + 1 && rows[0] == Row("Time", unix(Field(o, "timestamp"))))
      && ("timestamp" !in KeysOf(o) ==> |rows| == |rest|)
      && var off := if "timestamp" in KeysOf(o) then 1 else 0;
         forall i :: 0 <= i < |rest| ==> rows[i + off] == Row(rest[i].0, BkpData(rest[i].0, rest[i].1))
    ensures forall i :: 0 <= i < |rows| ==> rows[i].name != "timestamp"
  {
    var rest := Filter(o, NotTimestamp);
    var others := seq(|rest|, i requires 0 <= i < |rest| => Row(rest[i].0, BkpData(rest[i].0, rest[i].1)));
    NoTimestampLeft(o);
    if "timestamp" in KeysOf(o) then [Row("Time", unix(Field(o, "timestamp")))] + others else others
  }

  /** With the distinct keys `JSON.parse` produces, there is exactly one row
      per key: the timestamp's row is the `Time` row. */
  lemma BkpRowCount(o: Entries<Json>, unix: Json -> string)
    requires DistinctKeys(o)
    ensures |BkpRows(o, unix)| == |o|
  {
    DropOnce(o);
  }

  /** Dropping one key from entries with distinct keys removes at most one
      entry: exactly one when the key is present. */
  lemma {:induction false} DropOnce(o: Entries<Json>)
    requires DistinctKeys(o)
    ensures |Filter(o, NotTimestamp)| == |o| - (if "timestamp" in KeysOf(o) then 1 else 0)
    decreases |o|
  {
    if |o| > 0 {
      assert DistinctKeys(o[1..]) by {
        forall i, j | 0 <= i < j < |o[1..]|
          ensures o[1..][i].0 != o[1..][j].0
        {
          assert o[1..][i] == o[i + 1] && o[1..][j] == o[j + 1];
        }
      }
      DropOnce(o[1..]);
      assert KeysOf(o) == [o[0].0] + KeysOf(o[1..]);
    }
  }

  /** `onMessageArrived` of `assets/bkp3.tsx`: unwrap, then parse again; a
      message that does not parse leaves the rows as they were, and either way
      the view stops being busy. */
  function BkpMessage(s: Session, payload: string, parse: string -> Option<Entries<Json>>,
                      unix: Json -> string): (r: Session)
    ensures !r.busy && r.clients == s.clients && r.current == s.current && r.meta == s.meta
    ensures parse(Unwrap(payload, parse)).None? ==> r.rows == s.rows
    ensures parse(Unwrap(payload, parse)).Some? ==> r.rows == BkpRows(parse(Unwrap(payload, parse)).value, unix)
  {
    match parse(Unwrap(payload, parse))
    case None => s.(busy := false)
    case Some(o) => s.(rows := BkpRows(o, unix), busy := false)
  }

  /* ----------------------------- event traces ----------------------------- */

  /** What can happen to the live view. */
  datatype Event =
    | Open(loc: string, sensor: string)
    | Close
    | Failed
    | Message(client: nat, payload: string)

  /** A message reaches a client only while it is connected; the handler of
      `utils/mqttworkingfine.tsx` runs on it. */
  function Step(s: Session, e: Event, parse: string -> Option<Telemetry>,
                unix: Json -> string, other: Json -> string): (r: Session)
    ensures Valid(s) ==> Valid(r)
  {
    match e
    case Open(loc, sensor) => OpenLiveClearing(s, loc, sensor)
    case Close => CloseLive(s)
    case Failed => ConnectFailed(s)
    case Message(c, payload) =>
      if c < |s.clients| && s.clients[c].connected then MqttMessage(s, payload, parse, unix, other) else s
  }

  /** The state after a sequence of events. */
  function Run(s: Session, es: seq<Event>, parse: string -> Option<Telemetry>,
               unix: Json -> string, other: Json -> string): Session
    decreases |es|
  {
    if |es| == 0 then s else Run(Step(s, es[0], parse, unix, other), es[1..], parse, unix, other)
  }

  /** Whatever happens, at most one client is connected, and it is the one
      `mqttRef` holds. */
  lemma {:induction false} RunKeepsOneClient(s: Session, es: seq<Event>, parse: string -> Option<Telemetry>,
                                             unix: Json -> string, other: Json -> string)
    requires Valid(s)
    ensures Valid(Run(s, es, parse, unix, other))
    decreases |es|
  {
    if |es| > 0 {
      RunKeepsOneClient(Step(s, es[0], parse, unix, other), es[1..], parse, unix, other);
    }
  }

  /** Only the client of the latest view receives messages: a message for
      any earlier client changes nothing. */
  lemma StaleClientIgnored(s: Session, c: nat, payload: string, parse: string -> Option<Telemetry>,
                           unix: Json -> string, other: Json -> string)
    requires Valid(s) && s.current.Some? && c != s.current.value
    ensures Step(s, Message(c, payload), parse, unix, other) == s
  {
  }
}
