/** The polling lifecycle of the live view, as an event-driven state machine.

    Two effects of the screen take part. The load effect runs when the view is
    open and its `(open, location, sensor)` dependencies change; it starts the
    storage reads for that view. The polling effect runs when
    `(open, sensor, interval)` change, and in the older dashboard screens also
    when the location changes. Its cleanup clears `pollRef.current`; its body
    returns early when the view is closed or the interval is unknown, and
    otherwise clears the old timer, fetches once and installs one new
    interval timer whose callback fetches the view it was created for.

    Timers are named by the ids `setInterval` returns (counting up from 1, so
    always truthy). Time itself is not modelled: a `Tick` is one firing of a
    timer. */
module Polling {
  import opened Wrappers
  import opened JsValues

  /** The view a fetch is for. */
  datatype Target = Target(loc: string, sensor: string)

  datatype Poll = Poll(
    locDep: bool,               // the location is a dependency of the polling effect
    open: bool,                 // `liveOpen`
    loc: string,                // `modalLoc`
    sensor: string,             // `selSensor`
    interval: Option<Num>,      // `pollInterval` (null until loaded)
    ref: Option<nat>,           // `pollRef.current`
    live: map<nat, Target>,     // installed, not yet cleared timers and what they fetch
    armed: bool,                // the last run of the polling effect registered its cleanup
    next: nat)                  // the id the next `setInterval` returns

  datatype Event =
    | Show(open: bool)                     // the live view opens or closes
    | Select(loc: string, sensor: string)  // another location or sensor is selected
    | SetInterval(ms: Num)                 // `setPollInterval`: a stored value was read or a menu choice made
    | Tick(id: nat)                        // the timer `id` fires

  datatype Effect =
    | Load(target: Target)       // the storage reads of the load effect
    | Fetch(target: Target)      // one call of `fetchLatest`
    | Install(id: nat, ms: Num)  // `setInterval(fetchLatest, ms)` returned `id`
    | Clear(id: nat)             // `clearInterval(id)`

  /** The mounted hook with the view closed. */
  function Init(locDep: bool, loc: string, sensor: string): Poll
  {
    Poll(locDep, false, loc, sensor, None, None, map[], false, 1)
  }

  /** The dependencies of the load effect. */
  function LoadDeps(st: Poll): (bool, string, string)
  {
    (st.open, st.loc, st.sensor)
  }

  /** The dependencies of the polling effect. */
  function PollDeps(st: Poll): (bool, string, Option<Num>, string)
  {
    (st.open, st.sensor, st.interval, if st.locDep then st.loc else "")
  }

  /** `if (pollRef.current) clearInterval(pollRef.current)`. */
  function ClearRef(st: Poll): (Poll, seq<Effect>)
  {
    match st.ref
    case Some(id) => (st.(live := st.live - {id}), [Clear(id)])
    case None => (st, [])
  }

  /** The cleanup of the previous polling-effect run, if it registered one. */
  function Cleanup(st: Poll): (Poll, seq<Effect>)
  {
    if st.armed then ClearRef(st) else (st, [])
  }

  /** The body of the polling effect. */
  function Start(st: Poll): (Poll, seq<Effect>)
  {
    if !st.open || st.interval.None? then (st.(armed := false), [])
    else
      var (cleared, clears) := ClearRef(st);
      var id := cleared.next;
      var t := Target(st.loc, st.sensor);
      (cleared.(ref := Some(id), live := cleared.live[id := t], armed := true, next := id + 1),
       clears + [Fetch(t), Install(id, st.interval.value)])
  }

  /** A render after the state changed from `prev` to `cur`: the cleanups of
      the effects whose dependencies changed run first, then their bodies in
      declaration order. */
  function Render(prev: Poll, cur: Poll): (Poll, seq<Effect>)
  {
    var loads := if LoadDeps(prev) != LoadDeps(cur) && cur.open then [Load(Target(cur.loc, cur.sensor))] else [];
    if PollDeps(prev) == PollDeps(cur) then (cur, loads)
    else
      var (s1, e1) := Cleanup(cur);
      var (s2, e2) := Start(s1);
      (s2, e1 + loads + e2)
  }

  /** The state an event sets, before the render. */
  function Changed(st: Poll, ev: Event): Poll
  {
    match ev
    case Show(o) => st.(open := o)
    case Select(l, s) => st.(loc := l, sensor := s)
    case SetInterval(ms) => st.(interval := Some(ms))
    case Tick(_) => st
  }

  /** One event and the render it causes. A tick runs the timer's callback. */
  function Step(st: Poll, ev: Event): (Poll, seq<Effect>)
  {
    match ev
    case Tick(id) => (st, if id in st.live then [Fetch(st.live[id])] else [])
    case _ => Render(st, Changed(st, ev))
  }

  /** Unmounting runs the last registered cleanup. */
  function Unmount(st: Poll): (Poll, seq<Effect>)
  {
    var (s1, e1) := Cleanup(st);
    (s1.(armed := false), e1)
  }

  /* ------------------------------ invariant ------------------------------ */

  /** A timer fetches the view currently shown. */
  predicate Current(st: Poll, t: Target)
  {
    t.sensor == st.sensor && (st.locDep ==> t.loc == st.loc)
  }

  /** At most one timer is live: the one in `pollRef`, installed by the
      current run of the polling effect, fetching the current view. When no
      run registered a cleanup, no timer is live. */
  predicate Inv(st: Poll)
  {
    && st.next >= 1
    && (forall id :: id in st.live ==> 1 <= id < st.next)
    && (st.ref.Some? ==> 1 <= st.ref.value < st.next)
    && (st.armed ==>
          && st.open && st.interval.Some? && st.ref.Some?
          && st.live.Keys == {st.ref.value}
          && Current(st, st.live[st.ref.value]))
    && (!st.armed ==> st.live == map[])
  }

  lemma InitInv(locDep: bool, loc: string, sensor: string)
    ensures Inv(Init(locDep, loc, sensor))
  {
  }

  lemma StartInv(st: Poll)
    requires st.next >= 1
    requires forall id :: id in st.live ==> 1 <= id < st.next
    requires st.ref.Some? ==> 1 <= st.ref.value < st.next
    requires st.live == map[]
    ensures Inv(Start(st).0) && Start(st).0.locDep == st.locDep
  {
  }

  lemma RenderInv(prev: Poll, cur: Poll)
    requires Inv(prev)
    requires cur.locDep == prev.locDep && cur.ref == prev.ref && cur.live == prev.live
    requires cur.armed == prev.armed && cur.next == prev.next
    ensures Inv(Render(prev, cur).0)
  {
    if PollDeps(prev) != PollDeps(cur) {
      var (s1, _) := Cleanup(cur);
      assert s1.live == map[];
      StartInv(s1);
    }
  }

  /** Every event keeps the invariant. */
  lemma StepInv(st: Poll, ev: Event)
    requires Inv(st)
    ensures Inv(Step(st, ev).0)
    ensures Step(st, ev).0.locDep == st.locDep
  {
    if !ev.Tick? {
      RenderInv(st, Changed(st, ev));
    }
  }

  /* ------------------------------ properties ----------------------------- */

  /** At most one timer is ever live. */
  lemma AtMostOneTimer(st: Poll)
    requires Inv(st)
    ensures |st.live| <= 1
  {
    if st.armed {
      assert st.live.Keys == {st.ref.value};
    }
  }

  /** A closed view, or one whose interval is not known yet, has no timer. */
  lemma IdleHasNoTimer(st: Poll)
    requires Inv(st) && (!st.open || st.interval.None?)
    ensures st.live == map[]
  {
  }

  /** A tick changes nothing and fetches at most once, for the view shown. */
  lemma TickFetchesCurrent(st: Poll, id: nat)
    requires Inv(st)
    ensures Step(st, Tick(id)).0 == st
    ensures forall e :: e in Step(st, Tick(id)).1 ==> e.Fetch? && Current(st, e.target)
    ensures |Step(st, Tick(id)).1| <= 1
  {
  }

  /** The fetches among some effects, in order. */
  function Fetches(effects: seq<Effect>): seq<Target>
  {
    if |effects| == 0 then []
    else (if effects[0].Fetch? then [effects[0].target] else []) + Fetches(effects[1..])
  }

  /** The timers installed among some effects, in order. */
  function Installs(effects: seq<Effect>): seq<nat>
  {
    if |effects| == 0 then []
    else (if effects[0].Install? then [effects[0].id] else []) + Installs(effects[1..])
  }

  lemma {:induction false} FetchesAppend(a: seq<Effect>, b: seq<Effect>)
    ensures Fetches(a + b) == Fetches(a) + Fetches(b)
    ensures Installs(a + b) == Installs(a) + Installs(b)
  {
    FetchesOfAppend(a, b);
    InstallsOfAppend(a, b);
  }

  lemma {:induction false} FetchesOfAppend(a: seq<Effect>, b: seq<Effect>)
    ensures Fetches(a + b) == Fetches(a) + Fetches(b)
  {
    if |a| == 0 {
      assert a + b == b;
    } else {
      FetchesOfAppend(a[1..], b);
      assert (a + b)[1..] == a[1..] + b;
    }
  }

  lemma {:induction false} InstallsOfAppend(a: seq<Effect>, b: seq<Effect>)
    ensures Installs(a + b) == Installs(a) + Installs(b)
  {
    if |a| == 0 {
      assert a + b == b;
    } else {
      InstallsOfAppend(a[1..], b);
      assert (a + b)[1..] == a[1..] + b;
    }
  }

  /** Clears and loads are neither fetches nor installs. */
  lemma NoFetches(effects: seq<Effect>)
    requires forall e :: e in effects ==> e.Clear? || e.Load?
    ensures Fetches(effects) == [] && Installs(effects) == []
  {
    if |effects| > 0 {
      assert effects[0] in effects;
      NoFetches(effects[1..]);
    }
  }

  lemma FetchInstall(t: Target, id: nat, ms: Num)
    ensures Fetches([Fetch(t), Install(id, ms)]) == [t]
    ensures Installs([Fetch(t), Install(id, ms)]) == [id]
  {
    var tail := [Fetch(t), Install(id, ms)];
    assert tail[1..][1..] == [];
    assert Fetches(tail[1..]) == [] + Fetches(tail[1..][1..]) == [];
    assert Installs(tail[1..]) == [id] + Installs(tail[1..][1..]) == [id];
  }

  /** The body of the polling effect, entered with no live timer for an open
      view with a known interval. */
  lemma StartShape(s1: Poll)
    requires s1.live == map[] && s1.open && s1.interval.Some?
    ensures var (s, effects) := Start(s1);
      && (forall e :: e in effects[..|effects| - 2] ==> e.Clear?)
      && |effects| >= 2
      && effects[|effects| - 2..] == [Fetch(Target(s1.loc, s1.sensor)), Install(s1.next, s1.interval.value)]
      && s.live == map[s1.next := Target(s1.loc, s1.sensor)]
      && s.ref == Some(s1.next)
      && (s.open, s.loc, s.sensor, s.interval) == (s1.open, s1.loc, s1.sensor, s1.interval)
  {
    var (cleared, clears) := ClearRef(s1);
    assert cleared.live == map[];
    var t := Target(s1.loc, s1.sensor);
    var effects := clears + [Fetch(t), Install(s1.next, s1.interval.value)];
    assert Start(s1).1 == effects;
    assert effects[..|effects| - 2] == clears;
  }

  /** A (re)start of polling for an open view with a known interval clears the
      old timer, fetches exactly once for the view shown and installs exactly
      one new timer, which is then the only live one. */
  lemma RestartShape(st: Poll, ev: Event)
    requires Inv(st) && !ev.Tick?
    requires var cur := Changed(st, ev); PollDeps(st) != PollDeps(cur) && cur.open && cur.interval.Some?
    ensures var (s, effects) := Step(st, ev);
      && Fetches(effects) == [Target(s.loc, s.sensor)]
      && Installs(effects) == [st.next]
      && s.live == map[st.next := Target(s.loc, s.sensor)]
      && s.ref == Some(st.next)
  {
    var cur := Changed(st, ev);
    assert Step(st, ev) == Render(st, cur);
    var loads := if LoadDeps(st) != LoadDeps(cur) && cur.open then [Load(Target(cur.loc, cur.sensor))] else [];
    var (s1, e1) := Cleanup(cur);
    assert s1.live == map[] && s1.next == st.next;
    StartShape(s1);
    var (s2, e2) := Start(s1);
    assert forall e :: e in e1 + loads ==> e.Clear? || e.Load?;
    OneFetchOneInstall(e1 + loads, e2, Target(cur.loc, cur.sensor), st.next, cur.interval.value);
  }

  /** Cleanups and loads, then clears ending in one fetch and one install:
      the only fetch and the only install are those two. */
  lemma OneFetchOneInstall(before: seq<Effect>, e2: seq<Effect>, t: Target, id: nat, ms: Num)
    requires forall e :: e in before ==> e.Clear? || e.Load?
    requires |e2| >= 2 && forall e :: e in e2[..|e2| - 2] ==> e.Clear?
    requires e2[|e2| - 2..] == [Fetch(t), Install(id, ms)]
    ensures Fetches(before + e2) == [t] && Installs(before + e2) == [id]
  {
    var tail := [Fetch(t), Install(id, ms)];
    var head := before + e2[..|e2| - 2];
    assert before + e2 == head + tail by {
      assert e2 == e2[..|e2| - 2] + tail;
    }
    FetchInstall(t, id, ms);
    NoFetches(head);
    FetchesAppend(head, tail);
  }

  /** When the polling dependencies do not change, the timers are untouched
      and nothing is fetched. */
  lemma UnchangedDepsKeepTimer(st: Poll, ev: Event)
    requires !ev.Tick?
    requires PollDeps(st) == PollDeps(Changed(st, ev))
    ensures Step(st, ev).0.live == st.live && Step(st, ev).0.ref == st.ref
    ensures Fetches(Step(st, ev).1) == [] && Installs(Step(st, ev).1) == []
  {
    var cur := Changed(st, ev);
    assert Step(st, ev) == Render(st, cur);
    var loads := if LoadDeps(st) != LoadDeps(cur) && cur.open then [Load(Target(cur.loc, cur.sensor))] else [];
    assert Render(st, cur) == (cur, loads);
    NoFetches(loads);
  }

  /** Opening a closed view starts the storage reads for it. */
  lemma OpenLoads(st: Poll)
    requires !st.open
    ensures Load(Target(st.loc, st.sensor)) in Step(st, Show(true)).1
  {
  }

  /** Unmounting leaves no timer behind. */
  lemma UnmountClears(st: Poll)
    requires Inv(st)
    ensures Unmount(st).0.live == map[]
  {
  }

  /** A run of the view: open, interval read, a tick, close, a late tick. */
  lemma Trace(loc: string, sensor: string)
    ensures var s0 := Init(false, loc, sensor);
      var (s1, e1) := Step(s0, Show(true));
      var (s2, e2) := Step(s1, SetInterval(IntNum(10000)));
      var (s3, e3) := Step(s2, Tick(1));
      var (s4, e4) := Step(s3, Show(false));
      var (s5, e5) := Step(s4, Tick(1));
      && e1 == [Load(Target(loc, sensor))]
      && e2 == [Fetch(Target(loc, sensor)), Install(1, IntNum(10000))]
      && e3 == [Fetch(Target(loc, sensor))]
      && e4 == [Clear(1)]
      && s4.live == map[] && e5 == []
  {
    var s0 := Init(false, loc, sensor);
    var s1 := s0.(open := true);
    assert LoadDeps(s0) != LoadDeps(s1) && PollDeps(s0) != PollDeps(s1);
    assert Cleanup(s1) == (s1, []);
    assert Start(s1) == (s1, []);
    var none: seq<Effect> := [];
    assert none + [Load(Target(loc, sensor))] + none == [Load(Target(loc, sensor))];
    assert Render(s0, s1) == (s1, [Load(Target(loc, sensor))]);
    assert Step(s0, Show(true)) == (s1, [Load(Target(loc, sensor))]);
    var s2 := Poll(false, true, loc, sensor, Some(IntNum(10000)), Some(1), map[1 := Target(loc, sensor)], true, 2);
    var fi := [Fetch(Target(loc, sensor)), Install(1, IntNum(10000))];
    assert none + none + (none + fi) == fi;
    assert Step(s1, SetInterval(IntNum(10000))) == (s2, [Fetch(Target(loc, sensor)), Install(1, IntNum(10000))]);
    assert Step(s2, Tick(1)) == (s2, [Fetch(Target(loc, sensor))]);
    var s4 := s2.(open := false, live := map[], armed := false);
    assert s2.live - {1} == map[];
    assert [Clear(1)] + none + none == [Clear(1)];
    assert Step(s2, Show(false)) == (s4, [Clear(1)]);
  }
}
