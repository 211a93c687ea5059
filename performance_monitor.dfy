/**
 * Metric ratings, the cumulative-layout-shift session window and the
 * frames-per-second counter of the performance monitor.
 *
 * Observer registration, console output and timestamps are not modelled:
 * a logged metric is an element appended to a log, and the clock is a
 * parameter.
 */
module PerformanceMonitor {
  import opened Wrappers

  datatype Rating = Good | NeedsImprovement | Poor

  /** Position of a rating from best (0) to worst (2). */
  function Rank(r: Rating): nat
  {
    match r
    case Good => 0
    case NeedsImprovement => 1
    case Poor => 2
  }

  /** A value at or below `good` is good, at or below `poor` needs improvement. */
  datatype Thresholds = Thresholds(good: real, poor: real)

  datatype Metric = LCP | FID | CLS | FCP | TTFB | INP

  /** The Core Web Vitals threshold table. */
  function ThresholdsFor(m: Metric): (t: Thresholds)
    ensures 0.0 < t.good < t.poor
    ensures m == CLS ==> t.poor < 1.0
    ensures m != CLS ==> 100.0 <= t.good
  {
    match m
    case LCP => Thresholds(2500.0, 4000.0)
    case FID => Thresholds(100.0, 300.0)
    case CLS => Thresholds(0.1, 0.25)
    case FCP => Thresholds(1800.0, 3000.0)
    case TTFB => Thresholds(800.0, 1800.0)
    case INP => Thresholds(200.0, 500.0)
  }

  /** The three-way classifier: both bounds are inclusive. */
  function GetRating(value: real, t: Thresholds): (r: Rating)
    ensures r == Good <==> value <= t.good
    ensures r == NeedsImprovement <==> t.good < value <= t.poor
    ensures r == Poor <==> t.good < value && t.poor < value
  {
    if value <= t.good then Good
    else if value <= t.poor then NeedsImprovement
    else Poor
  }

  /** With ordered thresholds a larger value never gets a better rating. */
  lemma RatingMonotone(v: real, w: real, t: Thresholds)
    requires t.good <= t.poor
    requires v <= w
    ensures Rank(GetRating(v, t)) <= Rank(GetRating(w, t))
  {
  }

  /** The rating of the 3D scene load time: both bounds are strict. */
  function SceneLoadRating(loadTime: real): (r: Rating)
    ensures r == Good <==> loadTime < 1000.0
    ensures r == NeedsImprovement <==> 1000.0 <= loadTime < 2000.0
    ensures r == Poor <==> 2000.0 <= loadTime
  {
    if loadTime < 1000.0 then Good
    else if loadTime < 2000.0 then NeedsImprovement
    else Poor
  }

  /**
   * The scene load rating agrees with the inclusive classifier over the
   * thresholds 1000/2000 everywhere except at the two bounds themselves,
   * where it is one step worse.
   */
  lemma SceneLoadVersusGetRating(loadTime: real)
    ensures loadTime != 1000.0 && loadTime != 2000.0 ==>
      SceneLoadRating(loadTime) == GetRating(loadTime, Thresholds(1000.0, 2000.0))
    ensures SceneLoadRating(1000.0) == NeedsImprovement
    ensures GetRating(1000.0, Thresholds(1000.0, 2000.0)) == Good
    ensures SceneLoadRating(2000.0) == Poor
    ensures GetRating(2000.0, Thresholds(1000.0, 2000.0)) == NeedsImprovement
  {
  }

  // ---------------------------------------------------------------------
  // Cumulative layout shift: session windows
  // ---------------------------------------------------------------------

  /** One layout-shift performance entry. */
  datatype LayoutShift = LayoutShift(value: real, startTime: real, hadRecentInput: bool)

  /** A logged metric: its value and its rating. */
  datatype Report = Report(value: real, rating: Rating)

  /** The largest gap between two shifts of one session, in ms. */
  const SessionGap: real := 1000.0
  /** The largest span of one session, in ms. */
  const SessionCap: real := 5000.0

  /** The three closure variables of the CLS observer. */
  datatype ClsState = ClsState(clsValue: real, sessionValue: real, sessionEntries: seq<LayoutShift>)

  function InitialCls(): ClsState
  {
    ClsState(0.0, 0.0, [])
  }

  function SumValues(es: seq<LayoutShift>): real
  {
    if es == [] then 0.0 else SumValues(es[..|es| - 1]) + es[|es| - 1].value
  }

  /** Shift k starts less than SessionGap after shift k - 1. */
  ghost predicate CloseToPrevious(es: seq<LayoutShift>, k: nat)
    requires 0 < k < |es|
  {
    es[k].startTime - es[k - 1].startTime < SessionGap
  }

  /** Consecutive shifts of a session are less than SessionGap apart and it spans less than SessionCap. */
  ghost predicate WindowOk(es: seq<LayoutShift>)
  {
    && (forall k :: 0 < k < |es| ==> CloseToPrevious(es, k))
    && (es != [] ==> es[|es| - 1].startTime - es[0].startTime < SessionCap)
  }

  /**
   * What holds of the closure variables between two entries: the session value
   * is the sum of its entries (so an empty session has value 0, and a non-zero
   * session has a first and a last entry to compare with), the session is one
   * window, and the reported maximum is at least the current session.
   */
  ghost predicate ClsInvariant(st: ClsState)
  {
    && st.sessionValue == SumValues(st.sessionEntries)
    && WindowOk(st.sessionEntries)
    && st.clsValue >= st.sessionValue
    && st.clsValue >= 0.0
  }

  lemma InitialClsInvariant()
    ensures ClsInvariant(InitialCls())
  {
  }

  /** Whether a shift extends the current session rather than starting a new one. */
  predicate JoinsSession(st: ClsState, e: LayoutShift)
  {
    && st.sessionValue != 0.0
    && st.sessionEntries != []
    && e.startTime - st.sessionEntries[|st.sessionEntries| - 1].startTime < SessionGap
    && e.startTime - st.sessionEntries[0].startTime < SessionCap
  }

  datatype ClsOutcome = ClsOutcome(state: ClsState, logged: Option<Report>)

  /**
   * The session after a shift without recent input: the shift joins the
   * current session or starts a new one, and either way the session stays
   * one window whose value is the sum of its entries.
   */
  function NextSession(st: ClsState, e: LayoutShift): (s: ClsState)
    requires ClsInvariant(st)
    ensures s.clsValue == st.clsValue
    ensures JoinsSession(st, e) ==>
      s.sessionEntries == st.sessionEntries + [e] && s.sessionValue == st.sessionValue + e.value
    ensures !JoinsSession(st, e) ==> s.sessionEntries == [e] && s.sessionValue == e.value
    ensures s.sessionValue == SumValues(s.sessionEntries) && WindowOk(s.sessionEntries)
  {
    if JoinsSession(st, e) then
      var es := st.sessionEntries + [e];
      assert es[..|es| - 1] == st.sessionEntries;
      assert forall k :: 0 < k < |es| - 1 ==> CloseToPrevious(es, k) == CloseToPrevious(st.sessionEntries, k);
      ClsState(st.clsValue, st.sessionValue + e.value, es)
    else
      assert [e][..0] == [];
      ClsState(st.clsValue, e.value, [e])
  }

  /**
   * The observer callback applied to one entry: shifts with recent input
   * are ignored; otherwise the session is updated and the reported value
   * becomes the larger of itself and the session value, a report being
   * logged exactly when it grows.
   */
  function ClsStep(st: ClsState, e: LayoutShift): (o: ClsOutcome)
    requires ClsInvariant(st)
    ensures ClsInvariant(o.state)
    ensures e.hadRecentInput ==> o.state == st && o.logged == None
    ensures !e.hadRecentInput ==>
      var s := NextSession(st, e);
      && o.state.sessionEntries == s.sessionEntries && o.state.sessionValue == s.sessionValue
      && o.state.clsValue == if s.sessionValue > st.clsValue then s.sessionValue else st.clsValue
    ensures o.state.clsValue >= st.clsValue
    ensures o.logged.Some? <==> o.state.clsValue > st.clsValue
    ensures o.logged.Some? ==>
      o.logged.value == Report(o.state.clsValue, GetRating(o.state.clsValue, ThresholdsFor(CLS)))
  {
    if e.hadRecentInput then ClsOutcome(st, None)
    else
      var session := NextSession(st, e);
      if session.sessionValue > st.clsValue then
        ClsOutcome(session.(clsValue := session.sessionValue),
                   Some(Report(session.sessionValue, GetRating(session.sessionValue, ThresholdsFor(CLS)))))
      else ClsOutcome(session, None)
  }

  /** What one callback appends to the log: its report, if any. */
  function Logged(o: ClsOutcome): seq<Report>
  {
    if o.logged.Some? then [o.logged.value] else []
  }

  /** The callback applied to a list of entries in order, and the metrics it logs. */
  function ClsRun(st: ClsState, es: seq<LayoutShift>): (o: (ClsState, seq<Report>))
    requires ClsInvariant(st)
    ensures ClsInvariant(o.0)
  {
    if es == [] then (st, [])
    else
      var prev := ClsRun(st, es[..|es| - 1]);
      var step := ClsStep(prev.0, es[|es| - 1]);
      (step.state, prev.1 + Logged(step))
  }

  lemma AppendAssoc<T>(a: seq<T>, b: seq<T>, c: seq<T>)
    ensures (a + b) + c == a + (b + c)
  {
  }

  /** A run one entry longer is the shorter run followed by one callback. */
  lemma ClsRunSnoc(st: ClsState, es: seq<LayoutShift>, e: LayoutShift)
    requires ClsInvariant(st)
    ensures var prev := ClsRun(st, es);
      var step := ClsStep(prev.0, e);
      ClsRun(st, es + [e]) == (step.state, prev.1 + Logged(step))
  {
    assert (es + [e])[..|es|] == es;
  }

  /**
   * The reported value never decreases over a run, it is at least the value
   * of every session window seen along the way, and it is one of those values
   * or the start value: the largest window is the one kept.
   */
  lemma ClsRunKeepsMaximum(st: ClsState, es: seq<LayoutShift>, k: nat)
    requires ClsInvariant(st)
    requires k <= |es|
    ensures ClsRun(st, es[..k]).0.clsValue <= ClsRun(st, es).0.clsValue
    ensures ClsRun(st, es[..k]).0.sessionValue <= ClsRun(st, es).0.clsValue
    ensures st.clsValue <= ClsRun(st, es).0.clsValue
    ensures ClsRun(st, es).0.clsValue == st.clsValue
      || exists j :: 0 < j <= |es| && ClsRun(st, es).0.clsValue == ClsRun(st, es[..j]).0.sessionValue
  {
    ClsRunBounds(st, es, k);
    ClsRunAttained(st, es);
  }

  /** The lower bounds: the value after a run is at least every earlier value and session value. */
  lemma {:induction false} ClsRunBounds(st: ClsState, es: seq<LayoutShift>, k: nat)
    requires ClsInvariant(st)
    requires k <= |es|
    ensures ClsRun(st, es[..k]).0.clsValue <= ClsRun(st, es).0.clsValue
    ensures ClsRun(st, es[..k]).0.sessionValue <= ClsRun(st, es).0.clsValue
    ensures st.clsValue <= ClsRun(st, es).0.clsValue
  {
    if k == |es| {
      assert es[..k] == es;
      if es != [] {
        ClsRunBounds(st, es[..|es| - 1], |es| - 1);
        assert es[..|es| - 1][..|es| - 1] == es[..|es| - 1];
      }
    } else {
      var init := es[..|es| - 1];
      assert init[..k] == es[..k];
      ClsRunBounds(st, init, k);
    }
  }

  /**
   * The metric is attained: it is the start value or the value of a session
   * window seen after some prefix of the entries.
   */
  lemma ClsRunAttained(st: ClsState, es: seq<LayoutShift>)
    requires ClsInvariant(st)
    ensures ClsRun(st, es).0.clsValue == st.clsValue
      || exists j :: 0 < j <= |es| && ClsRun(st, es).0.clsValue == ClsRun(st, es[..j]).0.sessionValue
  {
    var j := AttainedAt(st, es);
  }

  /** The prefix length whose session value the metric holds, or 0 for the start value. */
  lemma {:induction false} AttainedAt(st: ClsState, es: seq<LayoutShift>) returns (j: nat)
    requires ClsInvariant(st)
    ensures j <= |es|
    ensures j == 0 ==> ClsRun(st, es).0.clsValue == st.clsValue
    ensures j > 0 ==> ClsRun(st, es).0.clsValue == ClsRun(st, es[..j]).0.sessionValue
  {
    if es == [] {
      return 0;
    }
    var init := es[..|es| - 1];
    RunStepAttains(st, es);
    if ClsRun(st, es).0.clsValue != ClsRun(st, init).0.clsValue {
      assert es[..|es|] == es;
      return |es|;
    }
    j := AttainedAt(st, init);
    if j > 0 {
      assert init[..j] == es[..j];
    }
  }

  /** The last callback of a run either keeps the metric or sets it to the run's session value. */
  lemma RunStepAttains(st: ClsState, es: seq<LayoutShift>)
    requires ClsInvariant(st) && es != []
    ensures var cur := ClsRun(st, es).0;
      cur.clsValue == ClsRun(st, es[..|es| - 1]).0.clsValue || cur.clsValue == cur.sessionValue
  {
    StepAttains(ClsRun(st, es[..|es| - 1]).0, es[|es| - 1]);
  }

  /** One callback either keeps the metric or sets it to the current session's value. */
  lemma StepAttains(st: ClsState, e: LayoutShift)
    requires ClsInvariant(st)
    ensures var o := ClsStep(st, e);
      o.state.clsValue == st.clsValue || o.state.clsValue == o.state.sessionValue
  {
  }

  /**
   * A log whose values strictly increase, all above lo and at most hi, the
   * last one being hi.
   */
  ghost predicate IncreasingLog(log: seq<Report>, lo: real, hi: real)
  {
    && (forall i, j :: 0 <= i < j < |log| ==> log[i].value < log[j].value)
    && (forall i :: 0 <= i < |log| ==> lo < log[i].value <= hi)
    && (log != [] ==> log[|log| - 1].value == hi)
  }

  /** The log of a run is strictly increasing: a metric is logged only when the value grows. */
  lemma {:induction false} ClsRunLogIncreasing(st: ClsState, es: seq<LayoutShift>)
    requires ClsInvariant(st)
    ensures var o := ClsRun(st, es);
      IncreasingLog(o.1, st.clsValue, o.0.clsValue)
  {
    if es != [] {
      var init := es[..|es| - 1];
      ClsRunLogIncreasing(st, init);
      ClsRunBounds(st, init, |init|);
      assert init[..|init|] == init;
      var prev := ClsRun(st, init);
      var step := ClsStep(prev.0, es[|es| - 1]);
      LogAppend(prev.1, Logged(step), st.clsValue, prev.0.clsValue, step.state.clsValue);
    }
  }

  /** Appending the report of one callback keeps the log increasing. */
  lemma LogAppend(log: seq<Report>, extra: seq<Report>, lo: real, mid: real, hi: real)
    requires IncreasingLog(log, lo, mid) && lo <= mid <= hi
    requires |extra| <= 1
    requires extra == [] ==> hi == mid
    requires extra != [] ==> extra[0].value == hi && mid < hi
    ensures IncreasingLog(log + extra, lo, hi)
  {
    var r := log + extra;
    forall i | 0 <= i < |r|
      ensures lo < r[i].value <= hi
    {
      if i < |log| {
        assert r[i] == log[i];
      }
    }
    forall i, j | 0 <= i < j < |r|
      ensures r[i].value < r[j].value
    {
      assert r[i] == log[i];
      if j < |log| {
        assert r[j] == log[j];
      }
    }
  }

  /** The CLS observer: its closure variables and the metrics it has logged. */
  class ClsObserver {
    var clsValue: real
    var sessionValue: real
    var sessionEntries: seq<LayoutShift>
    var log: seq<Report>

    function State(): ClsState
      reads this
    {
      ClsState(clsValue, sessionValue, sessionEntries)
    }

    ghost predicate Valid()
      reads this
    {
      ClsInvariant(State())
    }

    constructor ()
      ensures Valid() && State() == InitialCls() && log == []
    {
      clsValue, sessionValue, sessionEntries, log := 0.0, 0.0, [], [];
    }

    /** The body of the callback for one entry. */
    method Observe(entry: LayoutShift)
      requires Valid()
      modifies this
      ensures Valid()
      ensures State() == ClsStep(old(State()), entry).state
      ensures log == old(log) + Logged(ClsStep(old(State()), entry))
    {
      ghost var o := ClsStep(State(), entry);
      if !entry.hadRecentInput {
        ghost var joins := JoinsSession(State(), entry);
        if sessionValue != 0.0
          && entry.startTime - sessionEntries[|sessionEntries| - 1].startTime < SessionGap
          && entry.startTime - sessionEntries[0].startTime < SessionCap
        {
          assert joins;
          sessionValue := sessionValue + entry.value;
          sessionEntries := sessionEntries + [entry];
        } else {
          assert !joins;
          sessionValue := entry.value;
          sessionEntries := [entry];
        }
        assert sessionValue == o.state.sessionValue && sessionEntries == o.state.sessionEntries;
        if sessionValue > clsValue {
          clsValue := sessionValue;
          log := log + [Report(clsValue, GetRating(clsValue, ThresholdsFor(CLS)))];
        }
      }
    }

    /** The callback: every entry of the list, in order. */
    method ObserveList(entries: seq<LayoutShift>)
      requires Valid()
      modifies this
      ensures Valid()
      ensures State() == ClsRun(old(State()), entries).0
      ensures log == old(log) + ClsRun(old(State()), entries).1
    {
      for n := 0 to |entries|
        invariant Valid()
        invariant State() == ClsRun(old(State()), entries[..n]).0
        invariant log == old(log) + ClsRun(old(State()), entries[..n]).1
      {
        ObserveNext(old(State()), old(log), entries, n);
      }
      assert entries[..|entries|] == entries;
    }

    /** One iteration of the loop over the entries. */
    method ObserveNext(ghost st: ClsState, ghost log0: seq<Report>, entries: seq<LayoutShift>, n: nat)
      requires n < |entries| && ClsInvariant(st) && Valid()
      requires State() == ClsRun(st, entries[..n]).0 && log == log0 + ClsRun(st, entries[..n]).1
      modifies this
      ensures Valid()
      ensures State() == ClsRun(st, entries[..n + 1]).0 && log == log0 + ClsRun(st, entries[..n + 1]).1
    {
      ghost var prev := ClsRun(st, entries[..n]);
      assert entries[..n + 1] == entries[..n] + [entries[n]];
      ClsRunSnoc(st, entries[..n], entries[n]);
      Observe(entries[n]);
      AppendAssoc(log0, prev.1, Logged(ClsStep(prev.0, entries[n])));
    }
  }

  // ---------------------------------------------------------------------
  // Frames per second
  // ---------------------------------------------------------------------

  /** JavaScript's Math.round: the nearest integer, halves rounded up. */
  function Round(x: real): (n: int)
    ensures n as real - 0.5 <= x < n as real + 0.5
  {
    (x + 0.5).Floor
  }

  /** The closure variables of the FPS counter. */
  datatype FpsState = FpsState(lastTime: real, frames: nat)

  datatype FpsOutcome = FpsOutcome(state: FpsState, report: Option<int>)

  /** How long the counter accumulates frames before reporting, in ms. */
  const FpsWindow: real := 1000.0

  /** One animation frame of the counter at time `currentTime`. */
  function FpsTick(st: FpsState, currentTime: real): (o: FpsOutcome)
    ensures o.report.Some? <==> currentTime >= st.lastTime + FpsWindow
    ensures o.report.Some? ==>
      o.state == FpsState(currentTime, 0) &&
      0 <= o.report.value <= st.frames + 1 &&
      var exact := ((st.frames + 1) as real * 1000.0) / (currentTime - st.lastTime);
      o.report.value as real - 0.5 <= exact < o.report.value as real + 0.5
    ensures o.report.None? ==> o.state == FpsState(st.lastTime, st.frames + 1)
  {
    var frames := st.frames + 1;
    if currentTime >= st.lastTime + FpsWindow then
      var dt := currentTime - st.lastTime;
      var exact := (frames as real * 1000.0) / dt;
      RateAtMostCount(frames, dt);
      FpsOutcome(FpsState(currentTime, 0), Some(Round(exact)))
    else
      FpsOutcome(FpsState(st.lastTime, frames), None)
  }

  /** Over a window of at least one second the rate is at most the frame count. */
  lemma RateAtMostCount(frames: nat, dt: real)
    requires dt >= 1000.0
    ensures 0.0 <= (frames as real * 1000.0) / dt <= frames as real
    ensures 0 <= Round((frames as real * 1000.0) / dt) <= frames
  {
    var exact := (frames as real * 1000.0) / dt;
    assert exact * dt == frames as real * 1000.0;
    assert exact * dt <= frames as real * dt;
  }

  /** The FPS counter: `tick` with the callback's reports collected in order. */
  class FpsMeter {
    var lastTime: real
    var frames: nat
    var reports: seq<int>

    function State(): FpsState
      reads this
    {
      FpsState(lastTime, frames)
    }

    constructor (startTime: real)
      ensures State() == FpsState(startTime, 0) && reports == []
    {
      lastTime, frames, reports := startTime, 0, [];
    }

    method Tick(currentTime: real) returns (fps: Option<int>)
      modifies this
      ensures fps == FpsTick(old(State()), currentTime).report
      ensures State() == FpsTick(old(State()), currentTime).state
      ensures reports == old(reports) + if fps.Some? then [fps.value] else []
    {
      frames := frames + 1;
      fps := None;
      if currentTime >= lastTime + FpsWindow {
        var value := Round((frames as real * 1000.0) / (currentTime - lastTime));
        fps := Some(value);
        reports := reports + [value];
        frames := 0;
        lastTime := currentTime;
      }
    }
  }
}
