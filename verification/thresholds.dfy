/** Saving the threshold configuration of one sensor (`useThresholds`):
    entries with numeric, not-all-zero ranges become one bulk request. */
module Thresholds {
  import opened Wrappers
  import opened JsValues
  import opened DashboardTypes
  import opened DashboardConstants

  /** One element of the request body; `string_match` is always null. */
  datatype ThresholdItem = ThresholdItem(sensorId: string, probeName: string, minValue: Num, maxValue: Num)

  /** A request the hook sends. */
  datatype Request = Post(path: string, body: seq<ThresholdItem>)

  /** The hook's state. */
  datatype ThresholdState = ThresholdState(thresholds: Entries<Range>, alertsEnabled: bool)

  /** The initial state: every range all-zero, alerts off. */
  function InitialState(): ThresholdState
  {
    ThresholdState(DefaultThresholds(), false)
  }

  /** A range worth sending: both bounds are numbers and not both are zero. */
  predicate Worth(r: Range)
  {
    r.min.Number? && r.max.Number? && !(IsZero(r.min.n) && IsZero(r.max.n))
  }

  /** The body item of a kept entry. */
  function ItemOf(sensor: string, e: (string, Range)): ThresholdItem
    requires Worth(e.1)
  {
    ThresholdItem(sensor, e.0, e.1.min.n, e.1.max.n)
  }

  /** The filter-then-map of `payloadArr`. */
  function Payload(thresholds: Entries<Range>, sensor: string): (r: seq<ThresholdItem>)
    ensures |r| <= |thresholds|
    ensures forall k :: 0 <= k < |r| ==> r[k].sensorId == sensor
  {
    if |thresholds| == 0 then []
    else
      var rest := Payload(thresholds[1..], sensor);
      if Worth(thresholds[0].1) then [ItemOf(sensor, thresholds[0])] + rest else rest
  }

  /* ------------------------- reference definition ------------------------ */

  /** The positions of the entries worth sending, in increasing order. */
  function KeptPositions(thresholds: Entries<Range>, from: nat): (ps: seq<nat>)
    requires from <= |thresholds|
    ensures forall k :: 0 <= k < |ps| ==> from <= ps[k] < |thresholds| && Worth(thresholds[ps[k]].1)
    ensures forall k, l :: 0 <= k < l < |ps| ==> ps[k] < ps[l]
    ensures forall i :: from <= i < |thresholds| && Worth(thresholds[i].1) ==> i in ps
    decreases |thresholds| - from
  {
    if from == |thresholds| then []
    else
      var rest := KeptPositions(thresholds, from + 1);
      if Worth(thresholds[from].1) then [from] + rest else rest
  }

  /** The payload holds, in entry order, exactly one item per entry whose range
      is worth sending: item `k` is built from the `k`-th such entry. */
  lemma {:induction false} PayloadIsFilter(thresholds: Entries<Range>, sensor: string, from: nat)
    requires from <= |thresholds|
    ensures var r := Payload(thresholds[from..], sensor);
      var ps := KeptPositions(thresholds, from);
      && |r| == |ps|
      && forall k :: 0 <= k < |ps| ==> r[k] == ItemOf(sensor, thresholds[ps[k]])
    decreases |thresholds| - from
  {
    if from < |thresholds| {
      PayloadIsFilter(thresholds, sensor, from + 1);
      var t := thresholds[from..];
      assert t[1..] == thresholds[from + 1..];
      assert t[0] == thresholds[from];
      var rest := Payload(thresholds[from + 1..], sensor);
      var later := KeptPositions(thresholds, from + 1);
      var r := Payload(t, sensor);
      var ps := KeptPositions(thresholds, from);
      if Worth(thresholds[from].1) {
        assert r == [ItemOf(sensor, thresholds[from])] + rest;
        assert ps == [from] + later;
        forall k | 0 <= k < |ps|
          ensures r[k] == ItemOf(sensor, thresholds[ps[k]])
        {
          if k > 0 {
            assert r[k] == rest[k - 1] && ps[k] == later[k - 1];
          }
        }
      } else {
        assert r == rest && ps == later;
      }
    }
  }

  /** Every item names its entry's probe and copies its bounds. */
  lemma PayloadItems(thresholds: Entries<Range>, sensor: string)
    ensures forall k :: 0 <= k < |Payload(thresholds, sensor)| ==>
      var item := Payload(thresholds, sensor)[k];
      exists i :: (0 <= i < |thresholds| && Worth(thresholds[i].1)
        && item == ThresholdItem(sensor, thresholds[i].0, thresholds[i].1.min.n, thresholds[i].1.max.n))
  {
    PayloadIsFilter(thresholds, sensor, 0);
    assert thresholds[0..] == thresholds;
    var r := Payload(thresholds, sensor);
    var ps := KeptPositions(thresholds, 0);
    forall k | 0 <= k < |r|
      ensures exists i :: (0 <= i < |thresholds| && Worth(thresholds[i].1)
        && r[k] == ThresholdItem(sensor, thresholds[i].0, thresholds[i].1.min.n, thresholds[i].1.max.n))
    {
      var i := ps[k];
      assert r[k] == ItemOf(sensor, thresholds[i]);
    }
  }

  /** The payload is empty exactly when no range is worth sending. */
  lemma PayloadEmpty(thresholds: Entries<Range>, sensor: string)
    ensures Payload(thresholds, sensor) == [] <==> forall i :: 0 <= i < |thresholds| ==> !Worth(thresholds[i].1)
  {
    PayloadIsFilter(thresholds, sensor, 0);
    assert thresholds[0..] == thresholds;
    var ps := KeptPositions(thresholds, 0);
    if ps != [] {
      assert Worth(thresholds[ps[0]].1);
    }
  }

  /* ------------------------------ the save ------------------------------- */

  /** The bulk endpoint of a sensor. */
  function ThresholdsPath(sensor: string): string
  {
    "/sensors/" + sensor + "/thresholds"
  }

  /** `saveThresholdsRemote(sensor)`, with `post` answering the request:
      nothing is sent when the payload is empty; otherwise exactly one POST
      carries the whole payload, and its failure is passed on to the caller.
      The state is never changed. */
  function SaveRemote(st: ThresholdState, sensor: string, post: Request -> Result<(), string>)
    : (out: (ThresholdState, seq<Request>, Result<(), string>))
    ensures out.0 == st
    ensures Payload(st.thresholds, sensor) == [] ==> out.1 == [] && out.2.Ok?
    ensures Payload(st.thresholds, sensor) != [] ==>
      && out.1 == [Post(ThresholdsPath(sensor), Payload(st.thresholds, sensor))]
      && out.2 == post(out.1[0])
  {
    var payload := Payload(st.thresholds, sensor);
    if |payload| == 0 then (st, [], Ok(()))
    else
      var req := Post(ThresholdsPath(sensor), payload);
      (st, [req], post(req))
  }

  /** Saving without edits sends nothing: every default range is all-zero. */
  lemma DefaultSendsNothing(sensor: string, post: Request -> Result<(), string>)
    ensures SaveRemote(InitialState(), sensor, post).1 == []
  {
    var th := DefaultThresholds();
    forall i | 0 <= i < |th|
      ensures !Worth(th[i].1)
    {
      assert th[i].1 == ZeroRange;
    }
    PayloadEmpty(th, sensor);
  }
}
