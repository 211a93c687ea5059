/**
 * The three rate limiters of the hooks module: throttle, debounce and
 * animation-frame throttle.
 *
 * Each returned callback is a small state machine over its refs. Time is an
 * integer number of milliseconds passed in by the caller; the platform's
 * timer queue is modelled explicitly as the list of this hook's live timers
 * (each with an id, its due time and the arguments its closure captured), and
 * a timer or frame firing is an operation of its own. A callback invocation is
 * recorded by appending its arguments to `delivered`.
 */
module Throttle {
  import opened Wrappers

  /** A live `setTimeout` of a hook: its id, when it is due, and the arguments it will pass. */
  datatype Timer<A> = Timer(id: nat, fireAt: int, args: A)

  /** The live timers without the one whose id is `id` (`clearTimeout`; no-op if it already ran). */
  function Cancel<A>(timers: seq<Timer<A>>, id: nat): (r: seq<Timer<A>>)
    ensures |r| <= |timers|
    ensures forall k :: 0 <= k < |r| ==> r[k] in timers && r[k].id != id
    ensures forall k :: 0 <= k < |timers| && timers[k].id != id ==> timers[k] in r
  {
    if timers == [] then []
    else if timers[0].id == id then Cancel(timers[1..], id)
    else [timers[0]] + Cancel(timers[1..], id)
  }

  /** The live timers without the k-th, which has just run. */
  function RemoveAt<A>(timers: seq<Timer<A>>, k: nat): (r: seq<Timer<A>>)
    requires k < |timers|
    ensures |r| == |timers| - 1
  {
    timers[..k] + timers[k + 1..]
  }

  /**
   * At most one timer of the hook is live, `timeoutRef` names it, and every id
   * handed out is below `nextId`.
   */
  ghost predicate TimersOk<A>(timeoutRef: Option<nat>, timers: seq<Timer<A>>, nextId: nat)
  {
    && |timers| <= 1
    && (timers != [] ==> timeoutRef == Some(timers[0].id))
    && (forall k :: 0 <= k < |timers| ==> timers[k].id < nextId)
  }

  // ---------------------------------------------------------------------
  // useThrottle
  // ---------------------------------------------------------------------

  /** The refs of a throttled callback, the live timers and the invocations so far. */
  datatype ThrottleState<A> = ThrottleState(
    lastRun: int, timeoutRef: Option<nat>, timers: seq<Timer<A>>, nextId: nat, delivered: seq<A>)

  ghost predicate ThrottleOk<A>(s: ThrottleState<A>)
  {
    TimersOk(s.timeoutRef, s.timers, s.nextId)
  }

  /** `lastRun` starts at the creation time, not at minus infinity. */
  function ThrottleInit<A>(createdAt: int): (s: ThrottleState<A>)
    ensures ThrottleOk(s) && s.timers == [] && s.delivered == []
    ensures s.lastRun == createdAt
  {
    ThrottleState(createdAt, None, [], 0, [])
  }

  /**
   * A call at time `now`: runs the callback at once if `delay` has passed
   * since the last run; otherwise replaces the live timer, if any, by one due
   * at `lastRun + delay` carrying these arguments.
   */
  function ThrottleCall<A>(s: ThrottleState<A>, delay: int, now: int, args: A): (s': ThrottleState<A>)
    requires ThrottleOk(s)
    ensures ThrottleOk(s')
    ensures now - s.lastRun >= delay ==>
      s'.delivered == s.delivered + [args] && s'.lastRun == now && s'.timers == s.timers
    ensures now - s.lastRun < delay ==>
      && s'.delivered == s.delivered && s'.lastRun == s.lastRun
      && s'.timers == [Timer(s.nextId, s.lastRun + delay, args)]
  {
    var timeSinceLastRun := now - s.lastRun;
    if timeSinceLastRun >= delay then
      s.(delivered := s.delivered + [args], lastRun := now)
    else
      var live := if s.timeoutRef.Some? then Cancel(s.timers, s.timeoutRef.value) else s.timers;
      assert live == [];
      var timer := Timer(s.nextId, now + (delay - timeSinceLastRun), args);
      s.(timers := live + [timer], timeoutRef := Some(s.nextId), nextId := s.nextId + 1)
  }

  /** The live timer number `k` runs at time `now`: it calls back with its own arguments. */
  function ThrottleFire<A>(s: ThrottleState<A>, k: nat, now: int): (s': ThrottleState<A>)
    requires ThrottleOk(s)
    requires k < |s.timers| && now >= s.timers[k].fireAt
    ensures ThrottleOk(s')
    ensures s'.delivered == s.delivered + [s.timers[0].args]
    ensures s'.lastRun == now && s'.timers == []
  {
    s.(delivered := s.delivered + [s.timers[k].args], lastRun := now, timers := RemoveAt(s.timers, k))
  }

  /** A call made within `delay` of the hook's creation is deferred to creation time plus `delay`. */
  lemma EarlyCallDeferred<A>(createdAt: int, delay: int, now: int, args: A)
    requires now - createdAt < delay
    ensures ThrottleCall(ThrottleInit(createdAt), delay, now, args).delivered == []
    ensures ThrottleCall(ThrottleInit(createdAt), delay, now, args).timers == [Timer(0, createdAt + delay, args)]
  {
  }

  /**
   * As written, an immediate run leaves a live timer in place: a call deferred
   * at 50 and a call at 105 that runs at once are followed by the timer firing
   * at 106 with the OLDER arguments, so the callback's last invocation carries
   * stale arguments.
   */
  lemma StaleArgumentsAfterImmediateRun()
    ensures var s0 := ThrottleInit<int>(0);
            var s1 := ThrottleCall(s0, 100, 50, 50);
            var s2 := ThrottleCall(s1, 100, 105, 105);
            && s2.timers == [Timer(0, 100, 50)]
            && ThrottleFire(s2, 0, 106).delivered == [105, 50]
  {
  }

  /** The evidently intended throttle: an immediate run also cancels the live timer. */
  function ThrottleCallFixed<A>(s: ThrottleState<A>, delay: int, now: int, args: A): (s': ThrottleState<A>)
    requires ThrottleOk(s)
    ensures ThrottleOk(s')
    ensures now - s.lastRun >= delay ==>
      s'.delivered == s.delivered + [args] && s'.lastRun == now && s'.timers == []
    ensures now - s.lastRun < delay ==> s' == ThrottleCall(s, delay, now, args)
  {
    if now - s.lastRun >= delay then
      var live := if s.timeoutRef.Some? then Cancel(s.timers, s.timeoutRef.value) else s.timers;
      assert live == [];
      s.(delivered := s.delivered + [args], lastRun := now, timers := live)
    else ThrottleCall(s, delay, now, args)
  }

  /**
   * Calls tagged with their own (non-decreasing) call times: the callback is
   * invoked in call order, nothing delivered is later than the live timer's
   * arguments, and nothing delivered or pending is later than the present.
   */
  ghost predicate InCallOrder(s: ThrottleState<int>, now: int)
  {
    && ThrottleOk(s)
    && (forall i, j :: 0 <= i < j < |s.delivered| ==> s.delivered[i] <= s.delivered[j])
    && (forall i :: 0 <= i < |s.delivered| ==> s.delivered[i] <= now)
    && (forall k :: 0 <= k < |s.timers| ==> s.timers[k].args <= now)
    && (forall k, i :: 0 <= k < |s.timers| && 0 <= i < |s.delivered| ==> s.delivered[i] <= s.timers[k].args)
  }

  lemma FixedCallKeepsCallOrder(s: ThrottleState<int>, delay: int, before: int, now: int)
    requires InCallOrder(s, before) && before <= now
    ensures InCallOrder(ThrottleCallFixed(s, delay, now, now), now)
    ensures var r := ThrottleCallFixed(s, delay, now, now);
      forall k :: 0 <= k < |r.timers| ==> r.timers[k].args == now
  {
  }

  lemma FireKeepsCallOrder(s: ThrottleState<int>, k: nat, before: int, now: int)
    requires InCallOrder(s, before) && before <= now
    requires k < |s.timers| && now >= s.timers[k].fireAt
    ensures InCallOrder(ThrottleFire(s, k, now), now)
  {
  }

  /** A throttled callback: the refs of `useThrottle` and the live timers it has scheduled. */
  class ThrottledCallback<A> {
    const delay: int
    var lastRun: int
    var timeoutRef: Option<nat>
    var timers: seq<Timer<A>>
    var nextId: nat
    var delivered: seq<A>

    function State(): ThrottleState<A>
      reads this
    {
      ThrottleState(lastRun, timeoutRef, timers, nextId, delivered)
    }

    ghost predicate Valid()
      reads this
    {
      ThrottleOk(State())
    }

    constructor (delay: int, createdAt: int)
      ensures Valid() && this.delay == delay && State() == ThrottleInit(createdAt)
    {
      this.delay := delay;
      lastRun, timeoutRef, timers, nextId, delivered := createdAt, None, [], 0, [];
    }

    method Call(now: int, args: A)
      requires Valid()
      modifies this
      ensures Valid() && State() == ThrottleCall(old(State()), delay, now, args)
    {
      var timeSinceLastRun := now - lastRun;
      if timeSinceLastRun >= delay {
        delivered := delivered + [args];
        lastRun := now;
      } else {
        if timeoutRef.Some? {
          timers := Cancel(timers, timeoutRef.value);
        }
        timers := timers + [Timer(nextId, now + (delay - timeSinceLastRun), args)];
        timeoutRef := Some(nextId);
        nextId := nextId + 1;
      }
    }

    /** The platform runs live timer `k`, which is due. */
    method Fire(k: nat, now: int)
      requires Valid()
      requires k < |timers| && now >= timers[k].fireAt
      modifies this
      ensures Valid() && State() == ThrottleFire(old(State()), k, now)
    {
      var timer := timers[k];
      timers := RemoveAt(timers, k);
      delivered := delivered + [timer.args];
      lastRun := now;
    }
  }

  // ---------------------------------------------------------------------
  // useDebounce
  // ---------------------------------------------------------------------

  datatype DebounceState<A> = DebounceState(
    timeoutRef: Option<nat>, timers: seq<Timer<A>>, nextId: nat, delivered: seq<A>)

  ghost predicate DebounceOk<A>(s: DebounceState<A>)
  {
    TimersOk(s.timeoutRef, s.timers, s.nextId)
  }

  function DebounceInit<A>(): (s: DebounceState<A>)
    ensures DebounceOk(s) && s.timers == [] && s.delivered == []
  {
    DebounceState(None, [], 0, [])
  }

  /** Every call cancels the live timer and schedules a new one at `now + delay`. */
  function DebounceCall<A>(s: DebounceState<A>, delay: int, now: int, args: A): (s': DebounceState<A>)
    requires DebounceOk(s)
    ensures DebounceOk(s')
    ensures s'.timers == [Timer(s.nextId, now + delay, args)]
    ensures s'.delivered == s.delivered
  {
    var live := if s.timeoutRef.Some? then Cancel(s.timers, s.timeoutRef.value) else s.timers;
    assert live == [];
    s.(timers := live + [Timer(s.nextId, now + delay, args)], timeoutRef := Some(s.nextId), nextId := s.nextId + 1)
  }

  function DebounceFire<A>(s: DebounceState<A>, k: nat): (s': DebounceState<A>)
    requires DebounceOk(s)
    requires k < |s.timers|
    ensures DebounceOk(s')
    ensures s'.delivered == s.delivered + [s.timers[0].args] && s'.timers == []
  {
    s.(delivered := s.delivered + [s.timers[k].args], timers := RemoveAt(s.timers, k))
  }

  /** What happens to a debounced callback: a call, or the clock reaching a time at which due timers run. */
  datatype Event<A> = CallAt(time: int, args: A) | ClockAt(time: int)

  /** The events in order; at `ClockAt(t)` the live timer runs if it is due by `t`. */
  function DebounceRun<A>(delay: int, events: seq<Event<A>>): (s: DebounceState<A>)
    ensures DebounceOk(s)
  {
    if events == [] then DebounceInit()
    else
      var s := DebounceRun(delay, events[..|events| - 1]);
      match events[|events| - 1]
      case CallAt(t, a) => DebounceCall(s, delay, t, a)
      case ClockAt(t) => if s.timers != [] && t >= s.timers[0].fireAt then DebounceFire(s, 0) else s
  }

  /** The index of the last call among the events, if there is one. */
  function LastCall<A>(events: seq<Event<A>>): (r: Option<nat>)
    ensures r.Some? ==> r.value < |events| && events[r.value].CallAt?
    ensures r.Some? ==> forall m :: r.value < m < |events| ==> events[m].ClockAt?
    ensures r.None? ==> forall m :: 0 <= m < |events| ==> events[m].ClockAt?
  {
    if events == [] then None
    else if events[|events| - 1].CallAt? then Some(|events| - 1)
    else LastCall(events[..|events| - 1])
  }

  /** The live timer, if any, belongs to the last call and is due `delay` after it. */
  lemma {:induction false} DebouncePendingIsLastCall<A>(delay: int, events: seq<Event<A>>)
    ensures var s := DebounceRun(delay, events);
      s.timers != [] ==>
        && LastCall(events).Some?
        && s.timers[0].args == events[LastCall(events).value].args
        && s.timers[0].fireAt == events[LastCall(events).value].time + delay
  {
    if events != [] {
      DebouncePendingIsLastCall(delay, events[..|events| - 1]);
    }
  }

  /**
   * When the callback runs, it receives the arguments of the last call, and no
   * call has been made for at least `delay` ms.
   */
  lemma DebounceRunsAfterQuietPeriod<A>(delay: int, events: seq<Event<A>>, t: int)
    requires |DebounceRun(delay, events + [ClockAt(t)]).delivered| > |DebounceRun(delay, events).delivered|
    ensures LastCall(events).Some?
    ensures var c := events[LastCall(events).value];
      && DebounceRun(delay, events + [ClockAt(t)]).delivered == DebounceRun(delay, events).delivered + [c.args]
      && c.time + delay <= t
      && forall m :: LastCall(events).value < m < |events| ==> events[m].ClockAt?
  {
    var all := events + [ClockAt(t)];
    assert all[..|all| - 1] == events;
    DebouncePendingIsLastCall(delay, events);
  }

  /** A debounced callback: its timeout ref and the live timers it has scheduled. */
  class DebouncedCallback<A> {
    const delay: int
    var timeoutRef: Option<nat>
    var timers: seq<Timer<A>>
    var nextId: nat
    var delivered: seq<A>

    function State(): DebounceState<A>
      reads this
    {
      DebounceState(timeoutRef, timers, nextId, delivered)
    }

    ghost predicate Valid()
      reads this
    {
      DebounceOk(State())
    }

    constructor (delay: int)
      ensures Valid() && this.delay == delay && State() == DebounceInit()
    {
      this.delay := delay;
      timeoutRef, timers, nextId, delivered := None, [], 0, [];
    }

    method Call(now: int, args: A)
      requires Valid()
      modifies this
      ensures Valid() && State() == DebounceCall(old(State()), delay, now, args)
    {
      if timeoutRef.Some? {
        timers := Cancel(timers, timeoutRef.value);
      }
      timers := timers + [Timer(nextId, now + delay, args)];
      timeoutRef := Some(nextId);
      nextId := nextId + 1;
    }

    /** The platform runs live timer `k`, which is due. */
    method Fire(k: nat, now: int)
      requires Valid()
      requires k < |timers| && now >= timers[k].fireAt
      modifies this
      ensures Valid() && State() == DebounceFire(old(State()), k)
    {
      var timer := timers[k];
      timers := RemoveAt(timers, k);
      delivered := delivered + [timer.args];
    }
  }

  // ---------------------------------------------------------------------
  // useRAFThrottle
  // ---------------------------------------------------------------------

  /**
   * `rafRef` set, `argsRef`, the number of animation frames requested by the
   * hook that have not run yet, and the invocations so far.
   */
  datatype RafState<A> = RafState(rafRef: bool, argsRef: Option<A>, frames: nat, delivered: seq<A>)

  /** At most one frame is requested, exactly when `rafRef` is set, and then there are arguments for it. */
  ghost predicate RafOk<A>(s: RafState<A>)
  {
    && s.frames == (if s.rafRef then 1 else 0)
    && (s.rafRef ==> s.argsRef.Some?)
  }

  function RafInit<A>(): (s: RafState<A>)
    ensures RafOk(s) && s.frames == 0 && s.delivered == []
  {
    RafState(false, None, 0, [])
  }

  /** A call stores its arguments and requests a frame unless one is already requested. */
  function RafCall<A>(s: RafState<A>, args: A): (s': RafState<A>)
    requires RafOk(s)
    ensures RafOk(s')
    ensures s'.argsRef == Some(args) && s'.rafRef && s'.frames == 1
    ensures s'.delivered == s.delivered
  {
    var s1 := s.(argsRef := Some(args));
    if s1.rafRef then s1
    else s1.(rafRef := true, frames := s1.frames + 1)
  }

  /** The requested frame runs: the callback gets the latest arguments and the ref is cleared. */
  function RafFrame<A>(s: RafState<A>): (s': RafState<A>)
    requires RafOk(s) && s.frames > 0
    ensures RafOk(s')
    ensures s'.delivered == s.delivered + [s.argsRef.value]
    ensures !s'.rafRef && s'.frames == 0 && s'.argsRef == s.argsRef
  {
    var s1 := if s.argsRef.Some? then s.(delivered := s.delivered + [s.argsRef.value]) else s;
    s1.(rafRef := false, frames := s1.frames - 1)
  }

  /** Any number of calls between two frames yields one invocation, with the last call's arguments. */
  lemma {:induction false} RafCallsCoalesce<A>(s: RafState<A>, calls: seq<A>)
    requires RafOk(s) && calls != []
    ensures RafOk(RafCalls(s, calls))
    ensures RafCalls(s, calls).frames == 1
    ensures RafFrame(RafCalls(s, calls)).delivered == s.delivered + [calls[|calls| - 1]]
  {
    if |calls| > 1 {
      RafCallsCoalesce(s, calls[..|calls| - 1]);
    }
  }

  function RafCalls<A>(s: RafState<A>, calls: seq<A>): (s': RafState<A>)
    requires RafOk(s)
    ensures RafOk(s') && s'.delivered == s.delivered
  {
    if calls == [] then s else RafCall(RafCalls(s, calls[..|calls| - 1]), calls[|calls| - 1])
  }

  /** An animation-frame throttled callback: its two refs and the frames it has requested. */
  class RafThrottledCallback<A> {
    var rafRef: bool
    var argsRef: Option<A>
    var frames: nat
    var delivered: seq<A>

    function State(): RafState<A>
      reads this
    {
      RafState(rafRef, argsRef, frames, delivered)
    }

    ghost predicate Valid()
      reads this
    {
      RafOk(State())
    }

    constructor ()
      ensures Valid() && State() == RafInit()
    {
      rafRef, argsRef, frames, delivered := false, None, 0, [];
    }

    method Call(args: A)
      requires Valid()
      modifies this
      ensures Valid() && State() == RafCall(old(State()), args)
    {
      argsRef := Some(args);
      if rafRef {
        return;
      }
      rafRef := true;
      frames := frames + 1;
    }

    /** The platform runs the requested frame. */
    method Frame()
      requires Valid() && frames > 0
      modifies this
      ensures Valid() && State() == RafFrame(old(State()))
    {
      frames := frames - 1;
      if argsRef.Some? {
        delivered := delivered + [argsRef.value];
      }
      rafRef := false;
    }
  }
}
