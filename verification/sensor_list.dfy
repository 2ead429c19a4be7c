/** The dashboard's location summaries (`useSensorList`): the flat sensor list
    is grouped by location, counting sensors, counting those that are up, and
    keeping the latest `last_seen`.

    The instant a `last_seen` string denotes (what `dayjs` parses) is the
    parameter `when`, `None` for a string `dayjs` reads as an Invalid Date;
    `isAfter` is `>` on two instants and false when either is invalid. Summaries come out in
    the order their location was first met; JavaScript lists integer-like
    object keys first, so no contract here claims an order. */
module SensorList {
  import opened Wrappers
  import opened DashboardTypes

  /* ----------------------- reference definitions ------------------------- */

  /** The number of sensors at `loc`. */
  function CountAt(data: seq<SensorInfo>, loc: string): nat
  {
    if |data| == 0 then 0
    else CountAt(data[..|data| - 1], loc) + (if data[|data| - 1].location == loc then 1 else 0)
  }

  /** The number of sensors at `loc` whose status is exactly `"up"`. */
  function UpAt(data: seq<SensorInfo>, loc: string): nat
  {
    if |data| == 0 then 0
    else
      var s := data[|data| - 1];
      UpAt(data[..|data| - 1], loc) + (if s.location == loc && s.status == "up" then 1 else 0)
  }

  /** The locations that occur in the list. */
  function Locations(data: seq<SensorInfo>): set<string>
  {
    if |data| == 0 then {} else Locations(data[..|data| - 1]) + {data[|data| - 1].location}
  }

  /** The non-empty `last_seen` strings of the sensors at `loc`. */
  function Stamps(data: seq<SensorInfo>, loc: string): set<string>
  {
    if |data| == 0 then {}
    else
      var s := data[|data| - 1];
      Stamps(data[..|data| - 1], loc) + (if s.location == loc && Seen(s) then {s.lastSeen.value} else {})
  }

  /** The sensor carries a truthy `last_seen`. */
  predicate Seen(s: SensorInfo)
  {
    s.lastSeen.Some? && s.lastSeen.value != ""
  }

  /** `dayjs(a).isAfter(b)`: both dates are valid and `a` is strictly later. */
  predicate After(a: string, b: string, when: string -> Option<int>)
  {
    when(a).Some? && when(b).Some? && when(a).value > when(b).value
  }

  /** Every stamp is a valid date. */
  predicate AllValid(stamps: set<string>, when: string -> Option<int>)
  {
    forall t :: t in stamps ==> when(t).Some?
  }

  /** `last` is absent exactly when there is no stamp, and otherwise is one of
      the stamps; when every stamp is a valid date, no stamp is later. */
  predicate LatestOf(last: Option<string>, stamps: set<string>, when: string -> Option<int>)
  {
    && (last.None? <==> stamps == {})
    && (last.Some? ==> last.value in stamps)
    && (last.Some? && AllValid(stamps, when) ==> forall t :: t in stamps ==> !After(t, last.value, when))
  }

  /** Sum of the `count` fields. */
  function SumCounts(locs: seq<LocationInfo>): nat
  {
    if |locs| == 0 then 0 else locs[0].count + SumCounts(locs[1..])
  }

  /** No two summaries share a location. */
  predicate Distinct(locs: seq<LocationInfo>)
  {
    forall i, j :: 0 <= i < j < |locs| ==> locs[i].name != locs[j].name
  }

  /** The summarised locations are exactly the locations of the list. */
  predicate Covers(locs: seq<LocationInfo>, data: seq<SensorInfo>)
  {
    && (forall i :: 0 <= i < |locs| ==> locs[i].name in Locations(data))
    && (forall loc :: loc in Locations(data) ==> exists i :: 0 <= i < |locs| && locs[i].name == loc)
  }

  /** Each summary's figures are those of the sensors at its location. */
  predicate Figures(locs: seq<LocationInfo>, data: seq<SensorInfo>, when: string -> Option<int>)
  {
    forall i :: 0 <= i < |locs| ==>
      && locs[i].count == CountAt(data, locs[i].name)
      && locs[i].up == UpAt(data, locs[i].name)
      && 1 <= locs[i].count
      && locs[i].up <= locs[i].count
      && LatestOf(locs[i].lastSeen, Stamps(data, locs[i].name), when)
  }

  /** What the summaries promise about the list they were computed from. */
  predicate Summarizes(locs: seq<LocationInfo>, data: seq<SensorInfo>, when: string -> Option<int>)
  {
    Distinct(locs) && Covers(locs, data) && Figures(locs, data, when) && SumCounts(locs) == |data|
  }

  /* --------------------------- the computation --------------------------- */

  /** Where the summary of `loc` sits, if there is one yet (`grouped[s.location]`). */
  function IndexOfLoc(locs: seq<LocationInfo>, loc: string): (r: Option<nat>)
    ensures r.Some? ==> r.value < |locs| && locs[r.value].name == loc
    ensures r.None? ==> forall i :: 0 <= i < |locs| ==> locs[i].name != loc
  {
    if |locs| == 0 then None
    else if locs[|locs| - 1].name == loc then Some(|locs| - 1)
    else IndexOfLoc(locs[..|locs| - 1], loc)
  }

  /** The `last` update: a truthy `last_seen` replaces `last` when there is none
      yet or when it is strictly after it. */
  function NextLast(last: Option<string>, s: SensorInfo, when: string -> Option<int>): Option<string>
  {
    if Seen(s) && (last.None? || After(s.lastSeen.value, last.value, when)) then s.lastSeen else last
  }

  /** One step of the `forEach` (lines 21-33). */
  function Visit(locs: seq<LocationInfo>, s: SensorInfo, when: string -> Option<int>): seq<LocationInfo>
  {
    var up := if s.status == "up" then 1 else 0;
    match IndexOfLoc(locs, s.location)
    case None => locs + [LocationInfo(s.location, 1, up, NextLast(None, s, when))]
    case Some(i) =>
      locs[i := LocationInfo(s.location, locs[i].count + 1, locs[i].up + up, NextLast(locs[i].lastSeen, s, when))]
  }

  /** The grouping of `fetchSensorList`: every location of the list has exactly
      one summary, whose counts and latest stamp are those of its sensors, and
      the counts add up to the length of the list. */
  function Group(data: seq<SensorInfo>, when: string -> Option<int>): (r: seq<LocationInfo>)
    ensures Summarizes(r, data, when)
  {
    if |data| == 0 then []
    else
      var prev := Group(data[..|data| - 1], when);
      VisitKeepsSummary(prev, data, when);
      Visit(prev, data[|data| - 1], when)
  }

  /* ------------------------------- proofs -------------------------------- */

  lemma {:induction false} SumAppend(locs: seq<LocationInfo>, x: LocationInfo)
    ensures SumCounts(locs + [x]) == SumCounts(locs) + x.count
  {
    if |locs| > 0 {
      SumAppend(locs[1..], x);
      assert (locs + [x])[1..] == locs[1..] + [x];
    }
  }

  lemma {:induction false} SumUpdate(locs: seq<LocationInfo>, i: nat, x: LocationInfo)
    requires i < |locs|
    ensures SumCounts(locs[i := x]) + locs[i].count == SumCounts(locs) + x.count
  {
    if i > 0 {
      SumUpdate(locs[1..], i - 1, x);
      assert locs[i := x][1..] == locs[1..][i - 1 := x];
    }
  }

  /** A location that does not occur has no sensors, no up sensors and no stamps. */
  lemma {:induction false} Absent(data: seq<SensorInfo>, loc: string)
    requires loc !in Locations(data)
    ensures CountAt(data, loc) == 0 && UpAt(data, loc) == 0 && Stamps(data, loc) == {}
  {
    if |data| > 0 {
      Absent(data[..|data| - 1], loc);
    }
  }

  /** The `last` update keeps `LatestOf` when the sensor's stamp joins the set. */
  lemma NextLastLatest(last: Option<string>, stamps: set<string>, s: SensorInfo, when: string -> Option<int>)
    requires LatestOf(last, stamps, when)
    ensures LatestOf(NextLast(last, s, when), stamps + (if Seen(s) then {s.lastSeen.value} else {}), when)
  {
  }

  /** An invalid date, once kept, is never replaced: no stamp is after it. */
  lemma InvalidLastSticks(last: Option<string>, s: SensorInfo, when: string -> Option<int>)
    ensures last.Some? && when(last.value).None? ==> NextLast(last, s, when) == last
  {
  }

  lemma VisitDistinct(locs: seq<LocationInfo>, s: SensorInfo, when: string -> Option<int>)
    requires Distinct(locs)
    ensures Distinct(Visit(locs, s, when))
  {
  }

  lemma VisitCovers(locs: seq<LocationInfo>, data: seq<SensorInfo>, when: string -> Option<int>)
    requires |data| > 0 && Covers(locs, data[..|data| - 1])
    ensures Covers(Visit(locs, data[|data| - 1], when), data)
  {
    var s := data[|data| - 1];
    var r := Visit(locs, s, when);
    assert Locations(data) == Locations(data[..|data| - 1]) + {s.location};
    forall loc | loc in Locations(data)
      ensures exists k :: 0 <= k < |r| && r[k].name == loc
    {
      if loc == s.location {
        match IndexOfLoc(locs, s.location)
        case None => assert r[|locs|].name == loc;
        case Some(i) => assert r[i].name == loc;
      } else {
        var k :| 0 <= k < |locs| && locs[k].name == loc;
        assert r[k].name == loc;
      }
    }
  }

  lemma VisitFigures(locs: seq<LocationInfo>, data: seq<SensorInfo>, when: string -> Option<int>)
    requires |data| > 0
    requires Distinct(locs) && Covers(locs, data[..|data| - 1]) && Figures(locs, data[..|data| - 1], when)
    ensures Figures(Visit(locs, data[|data| - 1], when), data, when)
  {
    var prefix := data[..|data| - 1];
    var s := data[|data| - 1];
    var r := Visit(locs, s, when);
    match IndexOfLoc(locs, s.location)
    case None =>
      Absent(prefix, s.location);
      NextLastLatest(None, {}, s, when);
      forall k | 0 <= k < |r|
        ensures r[k].count == CountAt(data, r[k].name)
        ensures r[k].up == UpAt(data, r[k].name)
        ensures 1 <= r[k].count && r[k].up <= r[k].count
        ensures LatestOf(r[k].lastSeen, Stamps(data, r[k].name), when)
      {
        if k < |locs| {
          assert r[k] == locs[k];
        }
      }
    case Some(i) =>
      NextLastLatest(locs[i].lastSeen, Stamps(prefix, s.location), s, when);
      forall k | 0 <= k < |r|
        ensures r[k].count == CountAt(data, r[k].name)
        ensures r[k].up == UpAt(data, r[k].name)
        ensures 1 <= r[k].count && r[k].up <= r[k].count
        ensures LatestOf(r[k].lastSeen, Stamps(data, r[k].name), when)
      {
        if k != i {
          assert r[k] == locs[k];
          assert locs[k].name != s.location;
        }
      }
  }

  lemma VisitSum(locs: seq<LocationInfo>, s: SensorInfo, when: string -> Option<int>)
    ensures SumCounts(Visit(locs, s, when)) == SumCounts(locs) + 1
  {
    var up := if s.status == "up" then 1 else 0;
    match IndexOfLoc(locs, s.location)
    case None =>
      SumAppend(locs, LocationInfo(s.location, 1, up, NextLast(None, s, when)));
    case Some(i) =>
      SumUpdate(locs, i, LocationInfo(s.location, locs[i].count + 1, locs[i].up + up, NextLast(locs[i].lastSeen, s, when)));
  }

  /** One step of the fold keeps the summary promise. */
  lemma VisitKeepsSummary(locs: seq<LocationInfo>, data: seq<SensorInfo>, when: string -> Option<int>)
    requires |data| > 0 && Summarizes(locs, data[..|data| - 1], when)
    ensures Summarizes(Visit(locs, data[|data| - 1], when), data, when)
  {
    VisitDistinct(locs, data[|data| - 1], when);
    VisitCovers(locs, data, when);
    VisitFigures(locs, data, when);
    VisitSum(locs, data[|data| - 1], when);
  }

  /* ------------------------------ the hook ------------------------------- */

  /** The state `useSensorList` exposes. */
  datatype ListState = ListState(allSensors: seq<SensorInfo>, locs: seq<LocationInfo>, err: Option<string>)

  /** `fetchSensorList` given the outcome of `GET /sensors`: on success the
      list is kept as received and summarised, and the error is cleared; on
      failure only the error changes. */
  function FetchSensorList(st: ListState, response: Result<seq<SensorInfo>, string>, when: string -> Option<int>): (r: ListState)
    ensures response.Ok? ==> r.allSensors == response.value && r.err.None? && Summarizes(r.locs, response.value, when)
    ensures response.Err? ==> r.allSensors == st.allSensors && r.locs == st.locs && r.err == Some(response.error)
  {
    match response
    case Ok(data) => ListState(data, Group(data, when), None)
    case Err(msg) => st.(err := Some(msg))
  }

  /** The "Down" figure of a card, `count - up`, is never negative, and the
      counts of all cards add up to the number of sensors received. */
  lemma DownIsNatural(st: ListState, data: seq<SensorInfo>, when: string -> Option<int>)
    ensures var r := FetchSensorList(st, Ok(data), when);
      && (forall i :: 0 <= i < |r.locs| ==> r.locs[i].count - r.locs[i].up >= 0)
      && SumCounts(r.locs) == |data|
  {
  }

  /** The grouping of a longer list is one more `forEach` step. */
  lemma GroupSnoc(data: seq<SensorInfo>, s: SensorInfo, when: string -> Option<int>)
    ensures Group(data + [s], when) == Visit(Group(data, when), s, when)
  {
    assert (data + [s])[..|data|] == data;
  }

  /** The grouping of two sensors, step by step. */
  lemma GroupTwo(a: SensorInfo, b: SensorInfo, when: string -> Option<int>)
    ensures Group([a, b], when) == Visit(Visit([], a, when), b, when)
  {
    GroupSnoc([], a, when);
    assert [] + [a] == [a];
    GroupSnoc([a], b, when);
    assert [a] + [b] == [a, b];
  }

  /** The grouping of three sensors, step by step. */
  lemma GroupThree(a: SensorInfo, b: SensorInfo, c: SensorInfo, when: string -> Option<int>)
    ensures Group([a, b, c], when) == Visit(Visit(Visit([], a, when), b, when), c, when)
  {
    var data := [a, b, c];
    assert data[..2] == [a, b];
    GroupTwo(a, b, when);
  }

  /** A worked example: two sensors at A (one up), one at B (up). */
  lemma Example(when: string -> Option<int>)
    ensures Group([SensorInfo("s1", "up", "A", None), SensorInfo("s2", "down", "A", None), SensorInfo("s3", "up", "B", None)], when)
      == [LocationInfo("A", 2, 1, None), LocationInfo("B", 1, 1, None)]
  {
    var a, b, c := SensorInfo("s1", "up", "A", None), SensorInfo("s2", "down", "A", None), SensorInfo("s3", "up", "B", None);
    GroupThree(a, b, c, when);
    var g1 := [LocationInfo("A", 1, 1, None)];
    var g2 := [LocationInfo("A", 2, 1, None)];
    assert Visit([], a, when) == g1;
    assert IndexOfLoc(g1, "A") == Some(0);
    assert Visit(g1, b, when) == g2;
    assert IndexOfLoc(g2, "B") == None;
  }

  /** So a location whose first stamp is invalid keeps that stamp, however
      late the valid ones after it. */
  lemma InvalidFirstStampKept(when: string -> Option<int>)
    requires when("x").None? && when("2024-01-01").Some?
    ensures Group([SensorInfo("s1", "up", "A", Some("x")), SensorInfo("s2", "up", "A", Some("2024-01-01"))], when)
      == [LocationInfo("A", 2, 2, Some("x"))]
  {
    var a, b := SensorInfo("s1", "up", "A", Some("x")), SensorInfo("s2", "up", "A", Some("2024-01-01"));
    GroupTwo(a, b, when);
    var g1 := [LocationInfo("A", 1, 1, Some("x"))];
    assert Visit([], a, when) == g1;
    assert IndexOfLoc(g1, "A") == Some(0);
  }
}
