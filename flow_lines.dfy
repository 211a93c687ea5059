/**
 * The data-flow background: a fan of background lines that bend from a
 * spread-out curve into one straight bundle, and coloured "signals" that run
 * along the lines, each drawing a short fading trail.
 *
 * Modelled here: the configuration (normal and low-performance devices), the
 * path function, signal creation, the per-frame signal step (progress, reset,
 * bounded history, trail and colour buffers, draw range), the frame-rate gate,
 * and the rewrite of every background line's position buffer. Coordinates and
 * colour components are reals; `Float32Array` rounding is not modelled.
 * `Math.random()` draws and the `performance.now()` / clock readings are
 * parameters; cosine, sine and power are the uninterpreted functions of a
 * `MathLib`.
 */
module DataFlowLines {
  import opened Wrappers
  import opened Geometry

  // ---------------------------------------------------------------------
  // Configuration
  // ---------------------------------------------------------------------

  /** The `r`, `g`, `b` components of a three.js colour. */
  datatype Rgb = Rgb(r: real, g: real, b: real)

  /** The parameters the animation reads (rendering-only settings are not modelled). */
  datatype Params = Params(
    lowPerf: bool,
    lineCount: nat,
    spreadHeight: real,
    spreadDepth: real,
    curveLength: real,
    straightLength: real,
    curvePower: real,
    waveSpeed: real,
    waveHeight: real,
    signalCount: nat,
    speedGlobal: real,
    trailLength: nat,
    segmentCount: nat,
    targetFps: nat,
    primary: Rgb,
    accent: Rgb)

  /** Capacity, in points, of every signal's position and colour buffers. */
  const MaxTrail: nat := 150

  /** What the animation relies on: the divisions are defined and every trail fits its buffers. */
  predicate ValidParams(p: Params)
  {
    && p.lineCount > 0
    && p.curveLength > 0.0
    && p.straightLength >= 0.0
    && p.speedGlobal > 0.0
    && p.segmentCount >= 2
    && p.trailLength <= MaxTrail
    && p.targetFps > 0
  }

  /**
   * The settings of the component. `primary` and `accent` are the two signal
   * colours (acid green and signal blue) as three.js decodes them.
   */
  function Configure(isLowPerf: bool, primary: Rgb, accent: Rgb): (p: Params)
    ensures ValidParams(p)
    ensures p.lowPerf == isLowPerf && p.primary == primary && p.accent == accent
  {
    Params(
      lowPerf := isLowPerf,
      lineCount := if isLowPerf then 30 else 50,
      spreadHeight := 30.33,
      spreadDepth := 0.0,
      curveLength := 50.0,
      straightLength := 100.0,
      curvePower := 0.8265,
      waveSpeed := 2.48,
      waveHeight := 0.145,
      signalCount := if isLowPerf then 20 else 35,
      speedGlobal := 0.345,
      trailLength := 3,
      segmentCount := if isLowPerf then 80 else 120,
      targetFps := if isLowPerf then 20 else 30,
      primary := primary,
      accent := accent)
  }

  /**
   * A low-performance device gets fewer lines, signals and segments and a
   * lower frame rate, and the same geometry, speed and trail.
   */
  lemma LowPerfIsLighter(primary: Rgb, accent: Rgb)
    ensures var lo, hi := Configure(true, primary, accent), Configure(false, primary, accent);
      && lo.lineCount < hi.lineCount
      && lo.signalCount < hi.signalCount
      && lo.segmentCount < hi.segmentCount
      && lo.targetFps < hi.targetFps
      && lo.(lowPerf := false, lineCount := 0, signalCount := 0, segmentCount := 0, targetFps := 0)
         == hi.(lineCount := 0, signalCount := 0, segmentCount := 0, targetFps := 0)
  {
  }

  // ---------------------------------------------------------------------
  // The path of a line
  // ---------------------------------------------------------------------

  /**
   * `getPathPoint(t, lineIndex, time)`: x runs linearly from -curveLength
   * (t = 0) to straightLength (t = 1); left of x = 0 the line is spread
   * vertically by its lane and shaped by a cosine bell raised to
   * `curvePower`, plus a small travelling wave; from x = 0 on it is straight
   * on the axis.
   */
  function PathPoint(p: Params, m: MathLib, t: real, lineIndex: int, time: real): (v: Vec3)
    requires ValidParams(p)
    ensures v.x == -p.curveLength + t * (p.curveLength + p.straightLength)
    ensures v.x >= 0.0 ==> v.y == 0.0 && v.z == 0.0
    ensures p.spreadDepth == 0.0 ==> v.z == 0.0
  {
    var totalLen := p.curveLength + p.straightLength;
    var currentX := -p.curveLength + t * totalLen;
    var spreadFactor := (lineIndex as real / p.lineCount as real - 0.5) * 2.0;
    if currentX < 0.0 then
      var ratio := (currentX + p.curveLength) / p.curveLength;
      var shapeFactor := m.pow((m.cos(ratio * m.pi) + 1.0) / 2.0, p.curvePower);
      var wave := m.sin(time * p.waveSpeed + currentX * 0.1 + lineIndex as real) * p.waveHeight * shapeFactor;
      Vec3(currentX, spreadFactor * p.spreadHeight * shapeFactor + wave, spreadFactor * p.spreadDepth * shapeFactor)
    else
      Vec3(currentX, 0.0, 0.0)
  }

  /** x never decreases along a line, starts at -curveLength and ends at straightLength. */
  lemma PathRunsLeftToRight(p: Params, m: MathLib, s: real, t: real, lineIndex: int, time: real)
    requires ValidParams(p) && s <= t
    ensures PathPoint(p, m, s, lineIndex, time).x <= PathPoint(p, m, t, lineIndex, time).x
    ensures PathPoint(p, m, 0.0, lineIndex, time).x == -p.curveLength
    ensures PathPoint(p, m, 1.0, lineIndex, time).x == p.straightLength
  {
    var a, b := PathPoint(p, m, s, lineIndex, time), PathPoint(p, m, t, lineIndex, time);
    ScaleMonotone(s, t, p.curveLength, p.curveLength + p.straightLength, a.x, b.x);
  }

  lemma ScaleMonotone(s: real, t: real, c: real, k: real, x: real, y: real)
    requires s <= t && k >= 0.0
    requires x == -c + s * k && y == -c + t * k
    ensures x <= y
  {
  }

  /**
   * Every line meets the straight bundle at the same place: from the fraction
   * curveLength / (curveLength + straightLength) of the path on, every lane is
   * at height 0 and depth 0, whatever the time.
   */
  lemma StraightSectionShared(p: Params, m: MathLib, t: real, lane1: int, lane2: int, time1: real, time2: real)
    requires ValidParams(p)
    requires t * (p.curveLength + p.straightLength) >= p.curveLength
    ensures PathPoint(p, m, t, lane1, time1) == PathPoint(p, m, t, lane2, time2)
    ensures PathPoint(p, m, t, lane1, time1).y == 0.0
  {
  }

  // ---------------------------------------------------------------------
  // Random choices
  // ---------------------------------------------------------------------

  /** `Math.floor(r * lineCount)` for a draw r of `Math.random()`: a lane index. */
  function DrawLane(r: real, lineCount: nat): (lane: int)
    requires 0.0 <= r < 1.0 && lineCount > 0
    ensures 0 <= lane < lineCount
    ensures lane as real <= r * lineCount as real < lane as real + 1.0
  {
    var x := r * lineCount as real;
    assert x < lineCount as real;
    x.Floor
  }

  /** `pickSignalColor`: the primary colour when the draw exceeds one half, the accent colour otherwise. */
  function PickSignalColor(p: Params, r: real): (c: Rgb)
    ensures c == p.primary || c == p.accent
    ensures r > 0.5 ==> c == p.primary
    ensures r <= 0.5 ==> c == p.accent
  {
    if r > 0.5 then p.primary else p.accent
  }

  /** `0.2 + Math.random() * 0.5`: a signal's speed. */
  function DrawSpeed(r: real): (s: real)
    requires 0.0 <= r < 1.0
    ensures 0.2 <= s < 0.7
  {
    0.2 + r * 0.5
  }

  // ---------------------------------------------------------------------
  // The signal step
  // ---------------------------------------------------------------------

  /** A signal's state, without its buffers. */
  datatype SignalState = SignalState(laneIndex: int, speed: real, progress: real, history: seq<Vec3>, color: Rgb)

  /** What every signal keeps true between frames. */
  predicate SignalOk(p: Params, s: SignalState)
  {
    && 0 <= s.laneIndex < p.lineCount
    && 0.2 <= s.speed < 0.7
    && 0.0 <= s.progress <= 1.0
    && |s.history| <= p.trailLength + 1
    && (s.color == p.primary || s.color == p.accent)
  }

  /** A new signal: random lane, speed, progress and colour, and no history. */
  function NewSignal(p: Params, rLane: real, rSpeed: real, rProgress: real, rColor: real): (s: SignalState)
    requires ValidParams(p)
    requires 0.0 <= rLane < 1.0 && 0.0 <= rSpeed < 1.0 && 0.0 <= rProgress < 1.0
    ensures SignalOk(p, s) && s.history == []
  {
    SignalState(DrawLane(rLane, p.lineCount), DrawSpeed(rSpeed), rProgress, [], PickSignalColor(p, rColor))
  }

  /** How far a signal moves along its path per frame. */
  function ProgressStep(p: Params, speed: real): real
  {
    speed * 0.005 * p.speedGlobal
  }

  /**
   * `history.push(x)` followed by at most one `history.shift()` when the
   * length exceeds `cap`.
   */
  function PushTrail(h: seq<Vec3>, x: Vec3, cap: nat): (r: seq<Vec3>)
    requires cap >= 1
    ensures |r| > 0 && r[|r| - 1] == x
    ensures |r| == |h| + 1 || |r| == |h|
    ensures r[..|r| - 1] == h[|h| + 1 - |r|..]
    ensures 1 <= cap && |h| <= cap ==> |r| <= cap
    ensures |h| < cap ==> r == h + [x]
  {
    var pushed := h + [x];
    if |pushed| > cap then
      assert pushed[1..][..|h| - 1] == h[1..];
      pushed[1..]
    else
      assert pushed[..|h|] == h;
      pushed
  }

  /** The newest min(|all|, cap) points of `all`, oldest first. */
  function Newest(all: seq<Vec3>, cap: nat): (r: seq<Vec3>)
    ensures |r| <= cap && |r| <= |all|
  {
    var n := if |all| < cap then |all| else cap;
    all[|all| - n..]
  }

  /** Pushing the points xs one after another onto a history. */
  function PushAll(h: seq<Vec3>, xs: seq<Vec3>, cap: nat): seq<Vec3>
    requires cap >= 1
    decreases |xs|
  {
    if xs == [] then h else PushAll(PushTrail(h, xs[0], cap), xs[1..], cap)
  }

  /** One push keeps "the history is the newest points seen so far". */
  lemma NewestStep(all: seq<Vec3>, x: Vec3, cap: nat)
    requires cap >= 1
    ensures PushTrail(Newest(all, cap), x, cap) == Newest(all + [x], cap)
  {
    var n := if |all| < cap then |all| else cap;
    var all' := all + [x];
    if n == cap {
      assert all[|all| - n..][1..] + [x] == all'[|all'| - cap..];
    } else {
      assert all[|all| - n..] == all;
      assert all'[|all'| - (|all| + 1)..] == all';
    }
  }

  lemma {:induction false} PushAllNewest(seen: seq<Vec3>, xs: seq<Vec3>, cap: nat)
    requires cap >= 1
    ensures PushAll(Newest(seen, cap), xs, cap) == Newest(seen + xs, cap)
    decreases |xs|
  {
    if xs == [] {
      assert seen + xs == seen;
    } else {
      var seen' := seen + [xs[0]];
      calc {
        PushAll(Newest(seen, cap), xs, cap);
        PushAll(PushTrail(Newest(seen, cap), xs[0], cap), xs[1..], cap);
        { NewestStep(seen, xs[0], cap); }
        PushAll(Newest(seen', cap), xs[1..], cap);
        { PushAllNewest(seen', xs[1..], cap); }
        Newest(seen' + xs[1..], cap);
        { assert seen' + xs[1..] == seen + xs; }
        Newest(seen + xs, cap);
      }
    }
  }

  /**
   * Starting from an empty history, the history after any run of pushes is
   * exactly the newest min(n, cap) points pushed, oldest first.
   */
  lemma PushAllKeepsNewest(xs: seq<Vec3>, cap: nat)
    requires cap >= 1
    ensures var n := if |xs| < cap then |xs| else cap;
      PushAll([], xs, cap) == xs[|xs| - n..]
  {
    var empty: seq<Vec3> := [];
    assert Newest(empty, cap) == empty;
    PushAllNewest(empty, xs, cap);
    assert empty + xs == xs;
    assert PushAll(empty, xs, cap) == Newest(xs, cap);
  }

  /**
   * Advancing the progress: past 1 it is set to exactly 0 (not wrapped), the
   * lane and the colour are drawn again and the history is cleared;
   * otherwise only the progress changes. `rLane` and `rColor` are the draws
   * a reset uses.
   */
  function Move(p: Params, s: SignalState, rLane: real, rColor: real): (r: SignalState)
    requires ValidParams(p) && 0.0 <= rLane < 1.0
    ensures var moved := s.progress + ProgressStep(p, s.speed);
      && r.speed == s.speed
      && (moved > 1.0 ==> r.progress == 0.0 && r.laneIndex == DrawLane(rLane, p.lineCount)
                          && r.color == PickSignalColor(p, rColor) && r.history == [])
      && (moved <= 1.0 ==> r == s.(progress := moved))
    ensures SignalOk(p, s) ==> SignalOk(p, r)
  {
    var moved := s.progress + ProgressStep(p, s.speed);
    assert SignalOk(p, s) ==> moved >= s.progress by {
      if SignalOk(p, s) {
        assert s.speed * 0.005 >= 0.0;
      }
    }
    if moved > 1.0 then
      SignalState(DrawLane(rLane, p.lineCount), s.speed, 0.0, [], PickSignalColor(p, rColor))
    else
      s.(progress := moved)
  }

  /**
   * The part of the frame step that changes the signal's state: `Move`, then
   * push the head position for the new progress onto the history, keeping at
   * most trailLength + 1 points.
   */
  function Advance(p: Params, m: MathLib, s: SignalState, time: real, rLane: real, rColor: real): (r: SignalState)
    requires ValidParams(p) && 0.0 <= rLane < 1.0
    ensures var s1 := Move(p, s, rLane, rColor);
      && r.(history := []) == s1.(history := [])
      && |r.history| > 0
      && r.history[|r.history| - 1] == PathPoint(p, m, r.progress, r.laneIndex, time)
      && (s1.history == [] ==> |r.history| == 1)
    ensures SignalOk(p, s) ==> SignalOk(p, r)
  {
    var s1 := Move(p, s, rLane, rColor);
    var head := PathPoint(p, m, s1.progress, s1.laneIndex, time);
    s1.(history := PushTrail(s1.history, head, p.trailLength + 1))
  }

  /** Right after a reset the history is exactly the new head; the progress, lane and colour are the reset ones. */
  lemma AdvanceAfterReset(p: Params, m: MathLib, s: SignalState, time: real, rLane: real, rColor: real)
    requires ValidParams(p) && 0.0 <= rLane < 1.0
    requires s.progress + ProgressStep(p, s.speed) > 1.0
    ensures var r := Advance(p, m, s, time, rLane, rColor);
      && r.progress == 0.0
      && r.laneIndex == DrawLane(rLane, p.lineCount)
      && r.color == PickSignalColor(p, rColor)
      && r.history == [PathPoint(p, m, 0.0, r.laneIndex, time)]
  {
    var r := Advance(p, m, s, time, rLane, rColor);
    assert |r.history| == 1;
  }

  /**
   * Without a reset, the lane and colour are kept and the history is the old
   * one with the head appended, less its oldest point when over the cap.
   */
  lemma AdvanceExtendsHistory(p: Params, m: MathLib, s: SignalState, time: real, rLane: real, rColor: real)
    requires ValidParams(p) && 0.0 <= rLane < 1.0
    requires s.progress + ProgressStep(p, s.speed) <= 1.0
    ensures var r := Advance(p, m, s, time, rLane, rColor);
      && r.laneIndex == s.laneIndex && r.color == s.color
      && r.history[..|r.history| - 1] == s.history[|s.history| + 1 - |r.history|..]
      && (|s.history| <= p.trailLength ==> r.history[..|r.history| - 1] == s.history)
  {
    var s1 := Move(p, s, rLane, rColor);
    assert s1 == s.(progress := s.progress + ProgressStep(p, s.speed));
    var head := PathPoint(p, m, s1.progress, s1.laneIndex, time);
    var r := Advance(p, m, s, time, rLane, rColor);
    assert r == s1.(history := PushTrail(s.history, head, p.trailLength + 1));
  }

  // ---------------------------------------------------------------------
  // The trail
  // ---------------------------------------------------------------------

  /** `Math.max(1, trailLength)`: how many trail points are drawn. */
  function DrawCount(p: Params): (n: nat)
    ensures 1 <= n && p.trailLength <= n
    ensures ValidParams(p) ==> n <= MaxTrail
  {
    if p.trailLength < 1 then 1 else p.trailLength
  }

  /**
   * The point drawn in trail slot i: `history[max(0, len - 1 - i)]`, or the
   * origin when that index does not exist (only for an empty history).
   */
  function TrailPoint(h: seq<Vec3>, i: nat): Vec3
  {
    var index := if |h| - 1 - i < 0 then 0 else |h| - 1 - i;
    if index < |h| then h[index] else Vec3(0.0, 0.0, 0.0)
  }

  function Reverse<T>(s: seq<T>): (r: seq<T>)
    ensures |r| == |s|
  {
    if s == [] then [] else Reverse(s[1..]) + [s[0]]
  }

  lemma {:induction false} ReverseAt<T>(s: seq<T>, i: nat)
    requires i < |s|
    ensures Reverse(s)[i] == s[|s| - 1 - i]
  {
    if i < |s| - 1 {
      ReverseAt(s[1..], i);
    }
  }

  /**
   * The trail is drawn newest first: slot i shows the history read backwards,
   * and every slot past the oldest point repeats the oldest point.
   */
  lemma TrailNewestFirst(h: seq<Vec3>, i: nat)
    requires |h| > 0
    ensures i < |h| ==> TrailPoint(h, i) == Reverse(h)[i]
    ensures i >= |h| - 1 ==> TrailPoint(h, i) == h[0]
    ensures TrailPoint(h, 0) == h[|h| - 1]
  {
    if i < |h| {
      ReverseAt(h, i);
    }
  }

  /** The brightness of trail slot i: a linear ramp from 1 down to 0 over `trailLength` slots. */
  function Alpha(i: nat, trailLength: nat): (a: real)
    ensures 0.0 <= a <= 1.0
  {
    if trailLength > 0 then
      var ramp := 1.0 - i as real / trailLength as real;
      if ramp < 0.0 then 0.0 else ramp
    else 1.0
  }

  /** The head is drawn at full brightness and the trail fades monotonically; every drawn slot stays visible. */
  lemma AlphaRamp(i: nat, j: nat, trailLength: nat)
    ensures Alpha(0, trailLength) == 1.0
    ensures i <= j ==> Alpha(j, trailLength) <= Alpha(i, trailLength)
    ensures i < trailLength ==> Alpha(i, trailLength) > 0.0
    ensures trailLength > 0 && i >= trailLength ==> Alpha(i, trailLength) == 0.0
  {
    if trailLength > 0 {
      var t := trailLength as real;
      if i <= j {
        assert i as real / t <= j as real / t;
      }
      if i < trailLength {
        assert i as real / t < 1.0;
      }
      if i >= trailLength {
        MulLeDiv(i as real, t, 1.0);
      }
    }
  }

  /** Component c (0, 1 or 2) of a point as stored in a position buffer. */
  function Coord(v: Vec3, c: nat): real
  {
    if c == 0 then v.x else if c == 1 then v.y else v.z
  }

  /** `color.r * alpha`, `color.g * alpha`, `color.b * alpha`. */
  function Faded(color: Rgb, alpha: real): Rgb
  {
    Rgb(color.r * alpha, color.g * alpha, color.b * alpha)
  }

  /** Component c (0, 1 or 2) of a colour. */
  function Channel(color: Rgb, c: nat): real
  {
    if c == 0 then color.r else if c == 1 then color.g else color.b
  }

  // ---------------------------------------------------------------------
  // A signal and its buffers
  // ---------------------------------------------------------------------

  /** A signal of the animation, with its `Float32Array(maxTrail * 3)` position and colour buffers. */
  class Signal {
    var laneIndex: int
    var speed: real
    var progress: real
    var history: seq<Vec3>
    var assignedColor: Rgb
    /** The geometry's draw range count; `None` is three.js's default of drawing everything. */
    var drawRange: Option<nat>
    const positions: array<real>
    const colors: array<real>

    function State(): SignalState
      reads this
    {
      SignalState(laneIndex, speed, progress, history, assignedColor)
    }

    ghost predicate Valid(p: Params)
      reads this
    {
      && positions.Length == 3 * MaxTrail
      && colors.Length == 3 * MaxTrail
      && positions != colors
      && SignalOk(p, State())
    }

    /** The buffers hold the trail of the current history, drawn newest first and fading out. */
    ghost predicate TrailDrawn(p: Params)
      reads this, positions, colors
    {
      && drawRange == Some(DrawCount(p))
      && 3 * DrawCount(p) <= positions.Length
      && 3 * DrawCount(p) <= colors.Length
      && (forall i, c :: 0 <= i < DrawCount(p) && 0 <= c < 3 ==>
            positions[3 * i + c] == Coord(TrailPoint(history, i), c))
      && (forall i, c :: 0 <= i < DrawCount(p) && 0 <= c < 3 ==>
            colors[3 * i + c] == Channel(Faded(assignedColor, Alpha(i, p.trailLength)), c))
    }

    /** Signal creation: four draws of `Math.random()` and two zero-filled buffers. */
    constructor (p: Params, rLane: real, rSpeed: real, rProgress: real, rColor: real)
      requires ValidParams(p)
      requires 0.0 <= rLane < 1.0 && 0.0 <= rSpeed < 1.0 && 0.0 <= rProgress < 1.0
      ensures Valid(p)
      ensures State() == NewSignal(p, rLane, rSpeed, rProgress, rColor)
      ensures drawRange == None
      ensures fresh(positions) && fresh(colors)
      ensures forall k :: 0 <= k < 3 * MaxTrail ==> positions[k] == 0.0 && colors[k] == 0.0
    {
      laneIndex := DrawLane(rLane, p.lineCount);
      speed := DrawSpeed(rSpeed);
      progress := rProgress;
      history := [];
      assignedColor := PickSignalColor(p, rColor);
      drawRange := None;
      positions := new real[3 * MaxTrail](_ => 0.0);
      colors := new real[3 * MaxTrail](_ => 0.0);
    }

    /**
     * One frame of the signal: the state step, then the trail written into
     * the first drawCount points of the buffers and the draw range set;
     * the rest of the buffers keeps its old contents.
     */
    method Update(p: Params, m: MathLib, time: real, rLane: real, rColor: real)
      requires ValidParams(p) && Valid(p) && 0.0 <= rLane < 1.0
      modifies this, positions, colors
      ensures Valid(p)
      ensures State() == Advance(p, m, old(State()), time, rLane, rColor)
      ensures TrailDrawn(p)
      ensures forall k :: 3 * DrawCount(p) <= k < 3 * MaxTrail ==>
        positions[k] == old(positions[k]) && colors[k] == old(colors[k])
    {
      StepState(p, m, time, rLane, rColor);
      DrawTrail(p);
    }

    /** The state part of a frame: move, maybe reset, then push the head onto the history. */
    method StepState(p: Params, m: MathLib, time: real, rLane: real, rColor: real)
      requires ValidParams(p) && Valid(p) && 0.0 <= rLane < 1.0
      modifies this
      ensures Valid(p)
      ensures State() == Advance(p, m, old(State()), time, rLane, rColor)
    {
      ghost var s0 := State();
      progress := progress + speed * 0.005 * p.speedGlobal;
      if progress > 1.0 {
        progress := 0.0;
        laneIndex := DrawLane(rLane, p.lineCount);
        history := [];
        assignedColor := PickSignalColor(p, rColor);
      }
      assert State() == Move(p, s0, rLane, rColor);
      var pos := PathPoint(p, m, progress, laneIndex, time);
      ghost var s1 := State();
      history := history + [pos];
      if |history| > p.trailLength + 1 {
        history := history[1..];
      }
      assert history == PushTrail(s1.history, pos, p.trailLength + 1);
    }

    /** The first n points of the position buffer hold the trail. */
    ghost predicate PositionsPrefix(n: nat)
      reads this, positions
    {
      && 3 * n <= positions.Length
      && forall i, c :: 0 <= i < n && 0 <= c < 3 ==> positions[3 * i + c] == Coord(TrailPoint(history, i), c)
    }

    /** The first n points of the colour buffer hold the faded colour. */
    ghost predicate ColorsPrefix(p: Params, n: nat)
      reads this, colors
    {
      && 3 * n <= colors.Length
      && forall i, c :: 0 <= i < n && 0 <= c < 3 ==> colors[3 * i + c] == Channel(Faded(assignedColor, Alpha(i, p.trailLength)), c)
    }

    /** The trail loop: newest point first, padded with the oldest, colours scaled by the alpha ramp. */
    method DrawTrail(p: Params)
      requires ValidParams(p) && Valid(p)
      modifies this`drawRange, positions, colors
      ensures Valid(p) && TrailDrawn(p)
      ensures forall k :: 3 * DrawCount(p) <= k < 3 * MaxTrail ==>
        positions[k] == old(positions[k]) && colors[k] == old(colors[k])
    {
      var drawCount := if p.trailLength < 1 then 1 else p.trailLength;
      for i := 0 to drawCount
        invariant PositionsPrefix(i) && ColorsPrefix(p, i)
        invariant forall k :: 3 * i <= k < 3 * MaxTrail ==>
          positions[k] == old(positions[k]) && colors[k] == old(colors[k])
      {
        var index := |history| - 1 - i;
        if index < 0 {
          index := 0;
        }
        var pt := if index < |history| then history[index] else Vec3(0.0, 0.0, 0.0);
        DrawPosition(i, pt);
        var alpha := 1.0;
        if p.trailLength > 0 {
          var ramp := 1.0 - i as real / p.trailLength as real;
          alpha := if ramp < 0.0 then 0.0 else ramp;
        }
        DrawColor(p, i, alpha);
      }
      drawRange := Some(drawCount);
    }

    /** `positions[i * 3 + c]` for the trail point of slot i. */
    method DrawPosition(i: nat, pt: Vec3)
      requires positions.Length == 3 * MaxTrail && i < MaxTrail
      requires PositionsPrefix(i) && pt == TrailPoint(history, i)
      modifies positions
      ensures PositionsPrefix(i + 1)
      ensures forall k :: 0 <= k < 3 * MaxTrail && !(3 * i <= k < 3 * i + 3) ==> positions[k] == old(positions[k])
    {
      positions[i * 3] := pt.x;
      positions[i * 3 + 1] := pt.y;
      positions[i * 3 + 2] := pt.z;
      forall i', c | 0 <= i' < i + 1 && 0 <= c < 3
        ensures positions[3 * i' + c] == Coord(TrailPoint(history, i'), c)
      {
        if i' < i {
          assert positions[3 * i' + c] == old(positions[3 * i' + c]);
        }
      }
    }

    /** `colors[i * 3 + c]`: the signal's colour scaled by the alpha of slot i. */
    method DrawColor(p: Params, i: nat, alpha: real)
      requires colors.Length == 3 * MaxTrail && i < MaxTrail
      requires ColorsPrefix(p, i) && alpha == Alpha(i, p.trailLength)
      modifies colors
      ensures ColorsPrefix(p, i + 1)
      ensures forall k :: 0 <= k < 3 * MaxTrail && !(3 * i <= k < 3 * i + 3) ==> colors[k] == old(colors[k])
    {
      var faded := Faded(assignedColor, alpha);
      colors[i * 3] := faded.r;
      colors[i * 3 + 1] := faded.g;
      colors[i * 3 + 2] := faded.b;
      forall i', c | 0 <= i' < i + 1 && 0 <= c < 3
        ensures colors[3 * i' + c] == Channel(Faded(assignedColor, Alpha(i', p.trailLength)), c)
      {
        if i' < i {
          assert colors[3 * i' + c] == old(colors[3 * i' + c]);
        }
      }
    }
  }

  // ---------------------------------------------------------------------
  // Background lines
  // ---------------------------------------------------------------------

  /** Point j of a line: the path at t = j / (segmentCount - 1). */
  function LinePoint(p: Params, m: MathLib, lineId: int, j: nat, time: real): Vec3
    requires ValidParams(p)
  {
    PathPoint(p, m, j as real / (p.segmentCount - 1) as real, lineId, time)
  }

  /** The first point of a line is the far end of the curve, the last the end of the straight section, and x grows along it. */
  lemma LineSpansPath(p: Params, m: MathLib, lineId: int, j1: nat, j2: nat, time: real)
    requires ValidParams(p) && j1 <= j2
    ensures LinePoint(p, m, lineId, 0, time).x == -p.curveLength
    ensures LinePoint(p, m, lineId, p.segmentCount - 1, time).x == p.straightLength
    ensures LinePoint(p, m, lineId, j1, time).x <= LinePoint(p, m, lineId, j2, time).x
  {
    var d := (p.segmentCount - 1) as real;
    assert (p.segmentCount - 1) as real / d == 1.0;
    assert j1 as real / d <= j2 as real / d;
    PathRunsLeftToRight(p, m, j1 as real / d, j2 as real / d, lineId, time);
  }

  /** The refresh of one line: every one of its `segmentCount * 3` slots is rewritten from the path. */
  method RefreshLine(p: Params, m: MathLib, positions: array<real>, lineId: int, time: real)
    requires ValidParams(p) && positions.Length == 3 * p.segmentCount
    modifies positions
    ensures forall j, c :: 0 <= j < p.segmentCount && 0 <= c < 3 ==>
      positions[3 * j + c] == Coord(LinePoint(p, m, lineId, j, time), c)
  {
    for j := 0 to p.segmentCount
      invariant forall j', c :: 0 <= j' < j && 0 <= c < 3 ==>
        positions[3 * j' + c] == Coord(LinePoint(p, m, lineId, j', time), c)
    {
      var t := j as real / (p.segmentCount - 1) as real;
      var vec := PathPoint(p, m, t, lineId, time);
      positions[j * 3] := vec.x;
      positions[j * 3 + 1] := vec.y;
      positions[j * 3 + 2] := vec.z;
    }
  }

  // ---------------------------------------------------------------------
  // The frame gate
  // ---------------------------------------------------------------------

  /** The animation's frame clock: the time of the last frame that did work, and how many did. */
  datatype FrameClock = FrameClock(lastFrameTime: real, frameCount: nat)

  /** `1000 / targetFPS` milliseconds. */
  function FrameInterval(p: Params): (fi: real)
    requires p.targetFps > 0
    ensures fi > 0.0
  {
    1000.0 / p.targetFps as real
  }

  /** The length of k whole intervals of length b. */
  function Intervals(k: nat, b: real): real
  {
    k as real * b
  }

  /** JavaScript's `a % b` for a >= 0 and b > 0: what is left of a after whole multiples of b. */
  function FMod(a: real, b: real): (r: real)
    requires a >= 0.0 && b > 0.0
    ensures 0.0 <= r < b
    ensures a >= b ==> a - r >= b
    ensures exists q: nat :: a - r == Intervals(q, b)
  {
    var q := (a / b).Floor;
    var r := a - b * q as real;
    QuotientBounds(a, b, q, r);
    QuotientNatural(a, b, q, r);
    r
  }

  /** The floor quotient of a >= 0 by b > 0 is a whole number of b's taken off a. */
  lemma QuotientNatural(a: real, b: real, q: int, r: real)
    requires a >= 0.0 && b > 0.0
    requires q == (a / b).Floor && r == a - b * q as real
    ensures q >= 0 && a - r == Intervals(q, b)
  {
    assert a / b >= 0.0;
  }

  /** A whole number of intervals that is at least one interval is at least one. */
  lemma WholeAtLeastOne(m: real, b: real, k: int)
    requires b > 0.0 && m == k as real * b && m >= b
    ensures k >= 1
  {
  }

  /** The floor quotient q of a by b leaves a remainder r in [0, b), and a - r >= b when a >= b. */
  lemma QuotientBounds(a: real, b: real, q: int, r: real)
    requires a >= 0.0 && b > 0.0
    requires q == (a / b).Floor && r == a - b * q as real
    ensures 0.0 <= r < b
    ensures a >= b ==> a - r >= b
  {
    var qr := q as real;
    var m := b * qr;
    DivLe(a, b, qr);
    DivLt(a, b, qr + 1.0);
    Distribute(b, qr);
    RemainderBelow(a, m, b * (qr + 1.0), b);
    if a >= b {
      MulLeDiv(a, b, 1.0);
      ScaleAtLeast(b, qr);
      TakenAtLeast(a, r, m, b);
    }
  }

  lemma TakenAtLeast(a: real, r: real, m: real, b: real)
    requires r == a - m && m >= b
    ensures a - r >= b
  {
  }

  lemma DivLe(a: real, b: real, c: real)
    requires b > 0.0 && c <= a / b
    ensures b * c <= a
  {
  }

  lemma DivLt(a: real, b: real, c: real)
    requires b > 0.0 && a / b < c
    ensures a < b * c
  {
  }

  lemma Distribute(b: real, q: real)
    ensures b * (q + 1.0) == b * q + b
  {
  }

  lemma RemainderBelow(a: real, m: real, m1: real, b: real)
    requires m <= a < m1 && m1 == m + b
    ensures 0.0 <= a - m < b
  {
  }

  lemma ScaleAtLeast(b: real, x: real)
    requires b > 0.0 && x >= 1.0
    ensures b * x >= b
  {
  }

  lemma MulLeDiv(a: real, b: real, c: real)
    requires b > 0.0 && b * c <= a
    ensures c <= a / b
  {
  }

  datatype GateResult = Skip | Run(clock: FrameClock, refreshLines: bool)

  /**
   * The gate at the top of `animate`: nothing happens until a full frame
   * interval has elapsed; then the clock is set back by the remainder of the
   * elapsed time modulo the interval, the frame is counted, and the lines are
   * refreshed on every frame, or only on every third frame on a
   * low-performance device.
   */
  function Gate(p: Params, c: FrameClock, now: real): (g: GateResult)
    requires ValidParams(p)
    ensures g.Run? <==> now - c.lastFrameTime >= FrameInterval(p)
    ensures g.Run? ==>
      && 0.0 <= now - g.clock.lastFrameTime < FrameInterval(p)
      && g.clock.lastFrameTime >= c.lastFrameTime + FrameInterval(p)
      && g.clock.frameCount == c.frameCount + 1
      && (g.refreshLines <==> !p.lowPerf || g.clock.frameCount % 3 == 0)
    ensures g.Run? ==>
      exists k: nat :: k >= 1 && g.clock.lastFrameTime == c.lastFrameTime + Intervals(k, FrameInterval(p))
  {
    var elapsed := now - c.lastFrameTime;
    if elapsed < FrameInterval(p) then Skip
    else
      var r := FMod(elapsed, FrameInterval(p));
      var k: nat :| elapsed - r == Intervals(k, FrameInterval(p));
      WholeAtLeastOne(elapsed - r, FrameInterval(p), k);
      var clock := FrameClock(now - r, c.frameCount + 1);
      Run(clock, !p.lowPerf || clock.frameCount % 3 == 0)
  }

  /** The clock after the gate has seen the timestamps `nows`, in order. */
  function GateRun(p: Params, c: FrameClock, nows: seq<real>): FrameClock
    requires ValidParams(p)
    decreases |nows|
  {
    if nows == [] then c
    else
      var g := Gate(p, c, nows[0]);
      GateRun(p, if g.Run? then g.clock else c, nows[1..])
  }

  /** The latest of a start time and a list of timestamps. */
  function Latest(start: real, nows: seq<real>): (r: real)
    ensures r >= start && forall k :: 0 <= k < |nows| ==> nows[k] <= r
    decreases |nows|
  {
    if nows == [] then start
    else
      var rest := Latest(start, nows[1..]);
      assert forall k :: 1 <= k < |nows| ==> nows[k] == nows[1..][k - 1];
      if nows[0] > rest then nows[0] else rest
  }

  /** Every counted frame moves the clock on by at least one interval. */
  lemma {:induction false} FramesCostIntervals(p: Params, c: FrameClock, nows: seq<real>)
    requires ValidParams(p)
    ensures var f := GateRun(p, c, nows);
      && f.frameCount >= c.frameCount
      && Repeated(f.frameCount - c.frameCount, FrameInterval(p)) <= f.lastFrameTime - c.lastFrameTime
    decreases |nows|
  {
    if nows != [] {
      var g := Gate(p, c, nows[0]);
      if g.Run? {
        FramesCostIntervals(p, g.clock, nows[1..]);
        var f := GateRun(p, g.clock, nows[1..]);
        assert f == GateRun(p, c, nows);
        assert f.frameCount - c.frameCount == f.frameCount - g.clock.frameCount + 1;
      } else {
        FramesCostIntervals(p, c, nows[1..]);
        assert GateRun(p, c, nows[1..]) == GateRun(p, c, nows);
      }
    }
  }

  /** n intervals of length fi laid end to end. */
  function Repeated(n: nat, fi: real): (r: real)
    ensures r == n as real * fi
  {
    if n == 0 then 0.0 else Repeated(n - 1, fi) + fi
  }

  /** The clock never passes the latest timestamp seen. */
  lemma {:induction false} ClockBeforeLatest(p: Params, c: FrameClock, nows: seq<real>)
    requires ValidParams(p)
    ensures GateRun(p, c, nows).lastFrameTime <= Latest(c.lastFrameTime, nows)
    decreases |nows|
  {
    if nows != [] {
      var g := Gate(p, c, nows[0]);
      var c1 := if g.Run? then g.clock else c;
      ClockBeforeLatest(p, c1, nows[1..]);
      LatestMonotone(c.lastFrameTime, c1.lastFrameTime, nows);
    }
  }

  /**
   * The frame rate never exceeds the target: over any run of timestamps,
   * frames * interval <= latest timestamp - starting clock.
   */
  lemma FrameRateCapped(p: Params, c: FrameClock, nows: seq<real>)
    requires ValidParams(p)
    ensures var f := GateRun(p, c, nows);
      (f.frameCount - c.frameCount) as real * FrameInterval(p) <= Latest(c.lastFrameTime, nows) - c.lastFrameTime
  {
    FramesCostIntervals(p, c, nows);
    ClockBeforeLatest(p, c, nows);
  }

  lemma {:induction false} LatestMonotone(start: real, start1: real, nows: seq<real>)
    requires nows != [] && start1 <= (if nows[0] > start then nows[0] else start)
    ensures Latest(start1, nows[1..]) <= Latest(start, nows)
  {
    LatestBound(start1, nows[1..], Latest(start, nows));
  }

  lemma {:induction false} LatestBound(start: real, nows: seq<real>, bound: real)
    requires start <= bound && forall k :: 0 <= k < |nows| ==> nows[k] <= bound
    ensures Latest(start, nows) <= bound
    decreases |nows|
  {
    if nows != [] {
      LatestBound(start, nows[1..], bound);
    }
  }

  // ---------------------------------------------------------------------
  // The scene: lines, signals and the animation loop
  // ---------------------------------------------------------------------

  /** The four `Math.random()` draws made when a signal is created. */
  datatype SignalDraws = SignalDraws(lane: real, speed: real, progress: real, color: real)

  /**
   * The scene built by the effect: one position buffer per background line,
   * the signals with their trail buffers, and the frame clock of `animate`.
   */
  class Scene {
    const params: Params
    const math: MathLib
    const lines: seq<array<real>>
    const signals: seq<Signal>
    var lastFrameTime: real
    var frameCount: nat

    function Clock(): FrameClock
      reads this
    {
      FrameClock(lastFrameTime, frameCount)
    }

    /** The trail buffers of all signals. */
    ghost function Buffers(): set<object>
      reads this
    {
      (set k | 0 <= k < |signals| :: signals[k].positions) + (set k | 0 <= k < |signals| :: signals[k].colors)
    }

    /** Every buffer belongs to exactly one line or signal. */
    ghost predicate Disjoint()
      reads this
    {
      && (forall k, l :: 0 <= k < l < |lines| ==> lines[k] != lines[l])
      && (forall k, l :: 0 <= k < |signals| && 0 <= l < |signals| && k != l ==>
            && signals[k] != signals[l]
            && signals[k].positions != signals[l].positions
            && signals[k].colors != signals[l].colors
            && signals[k].positions != signals[l].colors)
      && (forall k, l :: 0 <= k < |lines| && 0 <= l < |signals| ==>
            lines[k] != signals[l].positions && lines[k] != signals[l].colors)
    }

    ghost predicate Valid()
      reads this, signals
    {
      && ValidParams(params)
      && |lines| == params.lineCount
      && |signals| == params.signalCount
      && (forall k :: 0 <= k < |lines| ==> lines[k].Length == 3 * params.segmentCount)
      && (forall k :: 0 <= k < |signals| ==> signals[k].Valid(params))
      && Disjoint()
    }

    /** Every line's buffer holds its path at the given time. */
    ghost predicate LinesDrawn(time: real)
      reads this, lines
      requires ValidParams(params)
    {
      forall k, j, c :: 0 <= k < |lines| && 0 <= j < params.segmentCount && 0 <= c < 3 && 3 * j + c < lines[k].Length ==>
        lines[k][3 * j + c] == Coord(LinePoint(params, math, k, j, time), c)
    }

    /**
     * The set-up: `lineCount` zero-filled line buffers, line k tagged with
     * id k, and one signal per set of draws, the clock at zero.
     */
    constructor (p: Params, m: MathLib, draws: seq<SignalDraws>)
      requires ValidParams(p) && |draws| == p.signalCount
      requires forall k :: 0 <= k < |draws| ==>
        0.0 <= draws[k].lane < 1.0 && 0.0 <= draws[k].speed < 1.0 && 0.0 <= draws[k].progress < 1.0
      ensures Valid()
      ensures params == p && math == m && Clock() == FrameClock(0.0, 0)
      ensures |lines| == p.lineCount && |signals| == |draws|
      ensures forall k :: 0 <= k < |lines| ==> fresh(lines[k]) && forall i :: 0 <= i < lines[k].Length ==> lines[k][i] == 0.0
      ensures forall k :: 0 <= k < |signals| ==>
        && fresh(signals[k])
        && signals[k].State() == NewSignal(p, draws[k].lane, draws[k].speed, draws[k].progress, draws[k].color)
    {
      params := p;
      math := m;
      var ls := NewLines(p);
      var ss := NewSignals(p, draws);
      lines := ls;
      signals := ss;
      lastFrameTime := 0.0;
      frameCount := 0;
    }

    /** `lineCount` fresh, pairwise distinct, zero-filled buffers of 3 * segmentCount coordinates. */
    static method NewLines(p: Params) returns (ls: seq<array<real>>)
      ensures |ls| == p.lineCount
      ensures forall k :: 0 <= k < |ls| ==> fresh(ls[k]) && ls[k].Length == 3 * p.segmentCount
      ensures forall k :: 0 <= k < |ls| ==> forall j :: 0 <= j < ls[k].Length ==> ls[k][j] == 0.0
      ensures forall k, l :: 0 <= k < l < |ls| ==> ls[k] != ls[l]
    {
      ls := [];
      for i := 0 to p.lineCount
        invariant |ls| == i
        invariant forall k :: 0 <= k < i ==> fresh(ls[k]) && ls[k].Length == 3 * p.segmentCount
        invariant forall k :: 0 <= k < i ==> forall j :: 0 <= j < ls[k].Length ==> ls[k][j] == 0.0
        invariant forall k, l :: 0 <= k < l < i ==> ls[k] != ls[l]
      {
        var a := new real[3 * p.segmentCount](_ => 0.0);
        ls := ls + [a];
      }
    }

    /** One fresh signal per set of draws, with pairwise distinct buffers. */
    static method NewSignals(p: Params, draws: seq<SignalDraws>) returns (ss: seq<Signal>)
      requires ValidParams(p)
      requires forall k :: 0 <= k < |draws| ==>
        0.0 <= draws[k].lane < 1.0 && 0.0 <= draws[k].speed < 1.0 && 0.0 <= draws[k].progress < 1.0
      ensures |ss| == |draws|
      ensures forall k :: 0 <= k < |ss| ==>
        && fresh(ss[k]) && fresh(ss[k].positions) && fresh(ss[k].colors)
        && ss[k].Valid(p)
        && ss[k].State() == NewSignal(p, draws[k].lane, draws[k].speed, draws[k].progress, draws[k].color)
      ensures forall k, l :: 0 <= k < |ss| && 0 <= l < |ss| && k != l ==>
        && ss[k] != ss[l]
        && ss[k].positions != ss[l].positions
        && ss[k].colors != ss[l].colors
        && ss[k].positions != ss[l].colors
    {
      ss := [];
      for i := 0 to |draws|
        invariant |ss| == i
        invariant forall k :: 0 <= k < i ==>
          && fresh(ss[k]) && fresh(ss[k].positions) && fresh(ss[k].colors)
          && ss[k].Valid(p)
          && ss[k].State() == NewSignal(p, draws[k].lane, draws[k].speed, draws[k].progress, draws[k].color)
        invariant forall k, l :: 0 <= k < i && 0 <= l < i && k != l ==>
          && ss[k] != ss[l]
          && ss[k].positions != ss[l].positions
          && ss[k].colors != ss[l].colors
          && ss[k].positions != ss[l].colors
      {
        var d := draws[i];
        var sig := new Signal(p, d.lane, d.speed, d.progress, d.color);
        ss := ss + [sig];
      }
    }

      /**
     * One call of `animate` at timestamp `now` (milliseconds) and clock
     * time `time` (seconds): before a full frame interval has passed
     * nothing changes; otherwise the frame clock advances as `Gate` says,
     * the lines are refreshed when the gate asks for it, and every signal
     * takes one step and redraws its trail.
     */
    method Animate(now: real, time: real, rLanes: seq<real>, rColors: seq<real>)
      requires Valid() && |rLanes| == |signals| && |rColors| == |signals|
      requires forall k :: 0 <= k < |rLanes| ==> 0.0 <= rLanes[k] < 1.0
      modifies this, lines, signals, Buffers()
      ensures Valid()
      ensures Gate(params, old(Clock()), now).Skip? ==>
        Clock() == old(Clock()) && unchanged(lines) && unchanged(signals) && unchanged(Buffers())
      ensures Gate(params, old(Clock()), now).Run? ==>
        && Clock() == Gate(params, old(Clock()), now).clock
        && (if Gate(params, old(Clock()), now).refreshLines then LinesDrawn(time) else unchanged(lines))
        && forall k :: 0 <= k < |signals| ==>
             && signals[k].State() == Advance(params, math, old(signals[k].State()), time, rLanes[k], rColors[k])
             && signals[k].TrailDrawn(params)
    {
      var elapsed := now - lastFrameTime;
      if elapsed < FrameInterval(params) {
        return;
      }
      lastFrameTime := now - FMod(elapsed, FrameInterval(params));
      frameCount := frameCount + 1;
      assert Clock() == Gate(params, old(Clock()), now).clock;
      RunFrame(!params.lowPerf || frameCount % 3 == 0, time, rLanes, rColors);
    }

    /** The work of a frame that passed the gate. */
    method RunFrame(refreshLines: bool, time: real, rLanes: seq<real>, rColors: seq<real>)
      requires Valid() && |rLanes| == |signals| && |rColors| == |signals|
      requires forall k :: 0 <= k < |rLanes| ==> 0.0 <= rLanes[k] < 1.0
      modifies lines, signals, Buffers()
      ensures Valid()
      ensures if refreshLines then LinesDrawn(time) else unchanged(lines)
      ensures forall k :: 0 <= k < |signals| ==>
        && signals[k].State() == Advance(params, math, old(signals[k].State()), time, rLanes[k], rColors[k])
        && signals[k].TrailDrawn(params)
    {
      if refreshLines {
        RefreshLines(time);
      }
      UpdateSignals(time, rLanes, rColors);
    }

    /** The `backgroundLines.forEach` pass: every line rewritten from its path at `time`. */
    method RefreshLines(time: real)
      requires Valid()
      modifies lines
      ensures LinesDrawn(time)
    {
      for k := 0 to |lines|
        invariant forall k', j, c :: 0 <= k' < k && 0 <= j < params.segmentCount && 0 <= c < 3 ==>
          lines[k'][3 * j + c] == Coord(LinePoint(params, math, k', j, time), c)
      {
        RefreshLine(params, math, lines[k], k, time);
      }
    }

    /**
     * Signals before i have taken their step from `olds` and redrawn their
     * trails; signals from i on still hold `olds`.
     */
    ghost predicate Stepped(olds: seq<SignalState>, i: nat, time: real, rLanes: seq<real>, rColors: seq<real>)
      reads this, signals, Buffers()
      requires Valid()
    {
      && |olds| == |signals| == |rLanes| == |rColors| && i <= |signals|
      && (forall k :: 0 <= k < |olds| ==> SignalOk(params, olds[k]) && 0.0 <= rLanes[k] < 1.0)
      && (forall k :: 0 <= k < i ==>
            && signals[k].State() == Advance(params, math, olds[k], time, rLanes[k], rColors[k])
            && signals[k].TrailDrawn(params))
      && (forall k :: i <= k < |signals| ==> signals[k].State() == olds[k])
    }

    /**
     * The `signals.forEach` pass: signal k takes one step with the draws
     * `rLanes[k]` and `rColors[k]` (used only when it wraps round) and
     * redraws its trail; the line buffers are not touched.
     */
    method UpdateSignals(time: real, rLanes: seq<real>, rColors: seq<real>)
      requires Valid() && |rLanes| == |signals| && |rColors| == |signals|
      requires forall k :: 0 <= k < |rLanes| ==> 0.0 <= rLanes[k] < 1.0
      modifies signals, Buffers()
      ensures Valid()
      ensures forall k :: 0 <= k < |signals| ==>
        && signals[k].State() == Advance(params, math, old(signals[k].State()), time, rLanes[k], rColors[k])
        && signals[k].TrailDrawn(params)
      ensures unchanged(lines)
    {
      ghost var olds := seq(|signals|, k requires 0 <= k < |signals| reads signals => signals[k].State());
      for i := 0 to |signals|
        invariant Valid() && Stepped(olds, i, time, rLanes, rColors)
        invariant unchanged(lines)
      {
        StepSignal(olds, i, time, rLanes, rColors);
      }
    }

    /** One iteration of the `signals.forEach` pass. */
    method StepSignal(ghost olds: seq<SignalState>, i: nat, time: real, rLanes: seq<real>, rColors: seq<real>)
      requires Valid() && Stepped(olds, i, time, rLanes, rColors) && i < |signals|
      modifies signals[i], signals[i].positions, signals[i].colors
      ensures Valid() && Stepped(olds, i + 1, time, rLanes, rColors)
      ensures unchanged(lines)
    {
      var sig := signals[i];
      sig.Update(params, math, time, rLanes[i], rColors[i]);
      forall k | 0 <= k < |signals| && k != i
        ensures signals[k].State() == old(signals[k].State())
        ensures signals[k].TrailDrawn(params) == old(signals[k].TrailDrawn(params))
      {
        assert signals[k] != sig;
        assert signals[k].positions != sig.positions && signals[k].positions != sig.colors;
        assert signals[k].colors != sig.positions && signals[k].colors != sig.colors;
      }
    }
  }
}
