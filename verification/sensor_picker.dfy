/** The location and sensor pickers of the report screen (`useSensorData`,
    and the same code inline in `report_backup`): the sorted location list
    without duplicates, the sensors of the chosen location, and the default
    choices. */
module SensorPicker {
  import opened Wrappers
  import opened Sequences

  /** One entry of `/sensors`: where a sensor is. */
  datatype Tag = Tag(location: string, sensorId: string)

  /* ------------------- UTF-16 code-unit order on strings ------------------- */

  /** The UTF-16 code units of one character: the character itself below
      U+10000, otherwise its surrogate pair. */
  function Units(c: char): (u: seq<int>)
    ensures 1 <= |u| <= 2
    ensures |u| == 1 <==> (c as int) < 0x10000
    ensures |u| == 1 ==> u[0] == c as int
    ensures |u| == 2 <==> 0xD800 <= u[0] < 0xDC00
  {
    if (c as int) < 0x10000 then [c as int]
    else
      var v := c as int - 0x10000;
      [0xD800 + v / 0x400, 0xDC00 + v % 0x400]
  }

  /** Different characters have different code units. */
  lemma UnitsInjective(a: char, b: char)
    requires Units(a) == Units(b)
    ensures a == b
  {
    if (a as int) >= 0x10000 {
      var va := a as int - 0x10000;
      var vb := b as int - 0x10000;
      assert va == 0x400 * (va / 0x400) + va % 0x400;
      assert vb == 0x400 * (vb / 0x400) + vb % 0x400;
    }
  }

  /** A string as JavaScript holds it: the code units of its characters. */
  function Utf16(s: string): seq<int>
  {
    if |s| == 0 then [] else Units(s[0]) + Utf16(s[1..])
  }

  /** Two strings have the same code units exactly when they are equal: the
      first unit of a character says whether a second one follows. */
  lemma {:induction false} Utf16Injective(a: string, b: string)
    ensures Utf16(a) == Utf16(b) <==> a == b
    decreases |a|
  {
    if Utf16(a) == Utf16(b) {
      if |a| == 0 {
        assert |Utf16(b)| == 0;
      } else {
        assert |Utf16(a)| > 0;
        var ua, ub := Units(a[0]), Units(b[0]);
        var w := Utf16(a);
        assert w == ua + Utf16(a[1..]) && w == ub + Utf16(b[1..]);
        assert ua[0] == w[0] == ub[0];
        assert ua == w[..|ua|] == ub;
        UnitsInjective(a[0], b[0]);
        assert Utf16(a[1..]) == w[|ua|..] == Utf16(b[1..]);
        Utf16Injective(a[1..], b[1..]);
        assert a == [a[0]] + a[1..] && b == [b[0]] + b[1..];
      }
    }
  }

  /** Code-unit sequences compared unit by unit, a proper prefix first. */
  predicate UnitsLess(a: seq<int>, b: seq<int>)
    decreases |a|
  {
    if |b| == 0 then false
    else if |a| == 0 then true
    else if a[0] != b[0] then a[0] < b[0]
    else UnitsLess(a[1..], b[1..])
  }

  lemma {:induction false} UnitsLessIrreflexive(a: seq<int>)
    ensures !UnitsLess(a, a)
    decreases |a|
  {
    if |a| > 0 {
      UnitsLessIrreflexive(a[1..]);
    }
  }

  lemma {:induction false} UnitsLessTransitive(a: seq<int>, b: seq<int>, c: seq<int>)
    requires UnitsLess(a, b) && UnitsLess(b, c)
    ensures UnitsLess(a, c)
    decreases |a|
  {
    if |a| > 0 && a[0] == b[0] && b[0] == c[0] {
      UnitsLessTransitive(a[1..], b[1..], c[1..]);
    }
  }

  lemma {:induction false} UnitsLessTotal(a: seq<int>, b: seq<int>)
    requires a != b
    ensures UnitsLess(a, b) || UnitsLess(b, a)
    decreases |a|
  {
    if |a| > 0 && |b| > 0 && a[0] == b[0] {
      assert a == [a[0]] + a[1..] && b == [b[0]] + b[1..];
      UnitsLessTotal(a[1..], b[1..]);
    }
  }

  /** The order of `Array.prototype.sort` without a comparator: the UTF-16
      code units compared one by one, a proper prefix first. */
  predicate Less(a: string, b: string)
  {
    UnitsLess(Utf16(a), Utf16(b))
  }

  lemma LessIrreflexive(a: string)
    ensures !Less(a, a)
  {
    UnitsLessIrreflexive(Utf16(a));
  }

  lemma LessTransitive(a: string, b: string, c: string)
    requires Less(a, b) && Less(b, c)
    ensures Less(a, c)
  {
    UnitsLessTransitive(Utf16(a), Utf16(b), Utf16(c));
  }

  /** Two different strings are ordered one way or the other. */
  lemma LessTotal(a: string, b: string)
    requires a != b
    ensures Less(a, b) || Less(b, a)
  {
    Utf16Injective(a, b);
    UnitsLessTotal(Utf16(a), Utf16(b));
  }

  /** The order is not that of code points: U+1F600 is written with the
      surrogate 0xD83D first, so it sorts before U+FF00. */
  lemma SurrogatesSortFirst()
    ensures Less("\U{1F600}", "\U{FF00}") && !Less("\U{FF00}", "\U{1F600}")
    ensures '\U{FF00}' < '\U{1F600}'
  {
    assert Utf16("\U{1F600}") == [0xD83D, 0xDE00];
    assert Utf16("\U{FF00}") == [0xFF00];
  }

  /** Increasing without repetition. */
  predicate StrictlySorted(s: seq<string>)
  {
    forall i, j :: 0 <= i < j < |s| ==> Less(s[i], s[j])
  }

  /** A strictly sorted list holds no duplicates. */
  lemma SortedDistinct(s: seq<string>)
    requires StrictlySorted(s)
    ensures forall i, j :: 0 <= i < j < |s| ==> s[i] != s[j]
  {
    forall i, j | 0 <= i < j < |s|
      ensures s[i] != s[j]
    {
      LessIrreflexive(s[i]);
    }
  }

  /* ------------------------------ locations -------------------------------- */

  /** The strings a list holds. */
  function Elems(s: seq<string>): set<string>
  {
    set k | k in s
  }

  /** The locations the entries name. */
  function LocationSet(data: seq<Tag>): set<string>
  {
    set i | 0 <= i < |data| :: data[i].location
  }

  /** Adds `x` to a strictly sorted list, at its place, unless it is there. */
  function Insert(s: seq<string>, x: string): (r: seq<string>)
    requires StrictlySorted(s)
    ensures StrictlySorted(r)
    ensures Elems(r) == Elems(s) + {x}
    decreases |s|
  {
    if |s| == 0 then [x]
    else if x == s[0] then s
    else if Less(x, s[0]) then
      InsertFront(s, x);
      [x] + s
    else
      LessTotal(x, s[0]);
      var rest := Insert(s[1..], x);
      InsertBehind(s, x, rest);
      assert s == [s[0]] + s[1..];
      assert Elems(s) == {s[0]} + Elems(s[1..]);
      assert Elems([s[0]] + rest) == {s[0]} + Elems(rest);
      [s[0]] + rest
  }

  /** Putting a smaller element in front keeps the order. */
  lemma InsertFront(s: seq<string>, x: string)
    requires StrictlySorted(s) && |s| > 0 && Less(x, s[0])
    ensures StrictlySorted([x] + s)
  {
    forall j | 0 < j < |s|
      ensures Less(x, s[j])
    {
      LessTransitive(x, s[0], s[j]);
    }
  }

  /** Keeping the head in front of the tail with `x` inserted keeps the order. */
  lemma InsertBehind(s: seq<string>, x: string, rest: seq<string>)
    requires StrictlySorted(s) && |s| > 0 && Less(s[0], x)
    requires StrictlySorted(rest)
    requires Elems(rest) == Elems(s[1..]) + {x}
    ensures StrictlySorted([s[0]] + rest)
  {
    forall j | 0 <= j < |rest|
      ensures Less(s[0], rest[j])
    {
      assert rest[j] in Elems(rest);
    }
  }

  /** `[...new Set(data.map(d => d.location))].sort()`: each location once,
      in increasing UTF-16 code-unit order. */
  function Locations(data: seq<Tag>): (locs: seq<string>)
    ensures StrictlySorted(locs)
    ensures Elems(locs) == LocationSet(data)
    decreases |data|
  {
    if |data| == 0 then []
    else
      var prev := Locations(data[..|data| - 1]);
      var r := Insert(prev, data[|data| - 1].location);
      assert LocationSet(data) == LocationSet(data[..|data| - 1]) + {data[|data| - 1].location};
      r
  }

  /** The location list has no duplicates and names exactly the input
      locations. */
  lemma LocationsExact(data: seq<Tag>, loc: string)
    ensures loc in Locations(data) <==> exists i :: 0 <= i < |data| && data[i].location == loc
    ensures forall i, j :: 0 <= i < j < |Locations(data)| ==> Locations(data)[i] != Locations(data)[j]
  {
    var locs := Locations(data);
    SortedDistinct(locs);
    if loc in locs {
      assert loc in Elems(locs);
    }
    if exists i :: 0 <= i < |data| && data[i].location == loc {
      var i :| 0 <= i < |data| && data[i].location == loc;
      assert loc in LocationSet(data);
    }
  }

  /** The first location is the least one. */
  lemma FirstIsLeast(data: seq<Tag>)
    requires |Locations(data)| > 0
    ensures forall i :: 0 <= i < |data| && data[i].location != Locations(data)[0] ==>
      Less(Locations(data)[0], data[i].location)
  {
    var locs := Locations(data);
    forall i | 0 <= i < |data| && data[i].location != locs[0]
      ensures Less(locs[0], data[i].location)
    {
      assert data[i].location in LocationSet(data);
      assert data[i].location in Elems(locs);
    }
  }

  /* ------------------------------- sensors --------------------------------- */

  /** `allSensors.filter(s => s.location === location).map(s => s.sensor_id)`. */
  function SensorsAt(all: seq<Tag>, location: string): seq<string>
  {
    Map(Filter(all, (t: Tag) => t.location == location), (t: Tag) => t.sensorId)
  }

  /** A sensor is listed exactly when some entry puts it at the location. */
  lemma SensorsAtMembership(all: seq<Tag>, location: string, id: string)
    ensures id in SensorsAt(all, location) <==> Tag(location, id) in all
  {
    var kept := Filter(all, (t: Tag) => t.location == location);
    FilterMembership(all, (t: Tag) => t.location == location, Tag(location, id));
    if id in SensorsAt(all, location) {
      var k :| 0 <= k < |kept| && kept[k].sensorId == id;
      assert kept[k] == Tag(location, id);
    }
  }

  /** The listed sensors keep the input order: the `k`-th listed sensor is that
      of the `k`-th entry at the location. */
  lemma SensorsAtInOrder(all: seq<Tag>, location: string)
    ensures var ps := Positions(all, (t: Tag) => t.location == location, 0);
      && |SensorsAt(all, location)| == |ps|
      && forall k :: 0 <= k < |ps| ==> SensorsAt(all, location)[k] == all[ps[k]].sensorId
  {
    FilterAtPositions(all, (t: Tag) => t.location == location, 0);
    assert all[0..] == all;
  }

  /* ------------------------------ the hook --------------------------------- */

  /** The hook's state. */
  datatype PickerState = PickerState(
    allSensors: seq<Tag>, locations: seq<string>, sensors: seq<string>,
    location: string, sensor: string, tagBusy: bool, tagErr: Option<string>)

  /** The state before loading: everything empty, loading. */
  function InitialPicker(): PickerState
  {
    PickerState([], [], [], "", "", true, None)
  }

  /** The effect on `[location, allSensors]`: the sensors of the chosen
      location, and the first of them (or `''`) chosen. */
  function SyncSensors(st: PickerState): (r: PickerState)
    ensures r.sensors == SensorsAt(st.allSensors, st.location)
    ensures r.sensor == FirstOr(r.sensors, "")
    ensures r.allSensors == st.allSensors && r.locations == st.locations && r.location == st.location
    ensures r.tagBusy == st.tagBusy && r.tagErr == st.tagErr
  {
    var list := SensorsAt(st.allSensors, st.location);
    st.(sensors := list, sensor := FirstOr(list, ""))
  }

  /** `loadSensors()` with the answer of `/sensors`, followed by the sensors
      effect it triggers (the new sensor array changes its dependencies). A
      failure records its message and changes nothing else, so the effect does
      not run again. */
  function Load(st: PickerState, answer: Result<seq<Tag>, string>): (r: PickerState)
    ensures !r.tagBusy
    ensures answer.Ok? ==>
      && r.allSensors == answer.value
      && r.locations == Locations(answer.value)
      && r.location == FirstOr(r.locations, "")
      && r.sensors == SensorsAt(answer.value, r.location)
      && r.sensor == FirstOr(r.sensors, "")
      && r.tagErr == st.tagErr
    ensures answer.Err? ==> r == st.(tagErr := Some(answer.error), tagBusy := false)
  {
    match answer
    case Ok(data) =>
      var locs := Locations(data);
      SyncSensors(st.(allSensors := data, locations := locs, location := FirstOr(locs, ""), tagBusy := false))
    case Err(msg) =>
      st.(tagErr := Some(msg), tagBusy := false)
  }

  /** `setLocation(value)`, followed by the sensors effect when it runs. React
      skips a state update to the value already held, so the effect on
      `[location, allSensors]` runs only for a different location: choosing
      the current one again keeps the chosen sensor. */
  function ChooseLocation(st: PickerState, location: string): (r: PickerState)
    ensures r.location == location
    ensures location == st.location ==> r == st
    ensures location != st.location ==>
      && r.sensors == SensorsAt(st.allSensors, location)
      && r.sensor == FirstOr(r.sensors, "")
    ensures r.locations == st.locations && r.allSensors == st.allSensors
    ensures r.tagBusy == st.tagBusy && r.tagErr == st.tagErr
  {
    if location == st.location then st else SyncSensors(st.(location := location))
  }

  /** The sensor list shows the chosen location's sensors. */
  predicate Synced(st: PickerState)
  {
    st.sensors == SensorsAt(st.allSensors, st.location)
  }

  /** A load leaves the picker in step, and so does every choice of location
      after it, whether the sensors effect runs or not. */
  lemma ChoiceKeepsSynced(st: PickerState, answer: Result<seq<Tag>, string>, location: string)
    ensures answer.Ok? || Synced(st) ==> Synced(Load(st, answer))
    ensures Synced(st) ==> Synced(ChooseLocation(st, location))
  {
  }

  /** After a successful load the chosen location is one of the data's, or
      `''` only when there is no data, and a chosen sensor is at that location. */
  lemma LoadedChoiceExists(st: PickerState, data: seq<Tag>)
    ensures var r := Load(st, Ok(data));
      && (|data| > 0 ==> exists i :: 0 <= i < |data| && data[i].location == r.location)
      && (|data| == 0 ==> r.location == "" && r.sensors == [] && r.sensor == "")
      && (r.sensor != "" ==> Tag(r.location, r.sensor) in data)
  {
    var r := Load(st, Ok(data));
    if |data| > 0 {
      LocationsExact(data, data[0].location);
      LocationsExact(data, r.location);
    }
    if r.sensor != "" {
      SensorsAtMembership(data, r.location, r.sensor);
    }
  }
}
