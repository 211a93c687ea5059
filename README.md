# A verified model of the portfolio site's animation and timing logic

The site is mostly markup and styling. This project models the parts that have
behaviour you can state precisely, and proves properties of that model in Dafny:

- **The data-flow background** (`DataFlowLines`, file `flow_lines.dfy`). A fan of
  background lines bends from a spread-out curve into one straight bundle, and
  coloured signals run along the lines, each leaving a short fading trail. The model covers:
  - the device-dependent configuration;
  - the path function `getPathPoint`, with cosine, sine and power left uninterpreted;
  - signal creation and the per-frame signal step: progress, reset, the bounded history,
    and the trail and colour written into fixed 150-point buffers;
  - the frame-rate gate at the top of `animate` and the rewrite of every background line;
  - a `Scene` class that holds all buffers and runs one call of `animate`.
- **The performance monitor** (`PerformanceMonitor`, file `performance_monitor.dfy`):
  - the Core Web Vitals threshold table and the three-way rating;
  - the strict-bound rating of the 3D scene load time;
  - the cumulative-layout-shift observer, which groups shifts into session windows
    (gaps under 1000 ms, span under 5000 ms) and logs the largest window;
  - the frames-per-second counter.
- **The rate-limiting hooks** (`Throttle`, file `throttle.dfy`): `useThrottle`,
  `useDebounce` and `useRAFThrottle`. Each is a state machine over its refs. Time is
  an integer parameter. The platform's pending timers are an explicit list of
  records (id, due time, captured arguments). A timer or frame firing is an operation
  of its own.
- **The noise texture** (`NoiseTexture`, file `noise_texture.dfy`):
  - the permutation tables built by the `SimplexNoise` constructor, including its
    in-place swap shuffle;
  - the integer table lookups of `noise`;
  - the RGBA fill of the texture buffer. The noise function itself is a parameter.
- **The connection lines of the enhanced network scene** (`ConnectionLines`, file
  `connection_lines.dfy`):
  - the per-frame overwrite of every sphere position;
  - the nested i < j loop that emits a six-number segment for every pair of spheres
    less than 10 apart. The distance test is modelled as squared distance < 100.

Shared pieces: `Wrappers.Option`, and `Geometry` (points, the uninterpreted `Math`
functions and the squared distance).

The code's mutable parts are modelled as classes whose methods change fields and
arrays:
- each signal's state and buffers, the scene's line buffers and frame clock;
- the closure variables of the observers and counters;
- the refs of the hooks;
- the noise tables and the texture buffer.

Each such method is proved against a pure step function, such as `Advance`, `Gate`,
`ClsStep`, `FpsTick`, `ThrottleCall` or `RafCall`. The properties the code promises
are proved about those functions.

On overflow, `DataFlowLines.tsx` sets a signal's progress to exactly 0 rather than
wrapping it (`AdvanceAfterReset`). It has no pause and no reduced-motion tier, and its
only guard is the container check.

## Model

| member | source | states |
|---|---|---|
| DataFlowLines.Configure | src/components/canvas/DataFlowLines.tsx:14-45 | The configuration is valid: at least one line, positive curve length and speed, at least two segments, a trail that fits the 150-point buffers, and a positive frame-rate target. It keeps the device tier and the two signal colours. |
| DataFlowLines.LowPerfIsLighter | src/components/canvas/DataFlowLines.tsx:24-45 | A low-performance device gets strictly fewer lines, signals and segments and a lower frame-rate target. All other settings are the same as on a normal device. |
| DataFlowLines.PathPoint | src/components/canvas/DataFlowLines.tsx:89-113 | x = -curveLength + t·(curveLength + straightLength). y and z are 0 whenever x ≥ 0. z is 0 when spreadDepth is 0. |
| DataFlowLines.PathRunsLeftToRight | src/components/canvas/DataFlowLines.tsx:90-91 | x never decreases along the path. It starts at -curveLength (t = 0) and ends at straightLength (t = 1). |
| DataFlowLines.StraightSectionShared | src/components/canvas/DataFlowLines.tsx:92-112 | Once the path reaches x ≥ 0, every lane at every time gives the same point, at height 0. |
| DataFlowLines.DrawLane | src/components/canvas/DataFlowLines.tsx:227 | floor(r·lineCount) is a lane index in [0, lineCount) and is the floor of r·lineCount. |
| DataFlowLines.PickSignalColor | src/components/canvas/DataFlowLines.tsx:147-149 | The primary colour exactly when the draw exceeds 0.5, the accent colour otherwise. |
| DataFlowLines.DrawSpeed | src/components/canvas/DataFlowLines.tsx:177 | A speed 0.2 + 0.5·r lies in [0.2, 0.7). |
| DataFlowLines.NewSignal | src/components/canvas/DataFlowLines.tsx:174-181 | A new signal satisfies the signal invariant (lane in range, speed in [0.2, 0.7), progress in [0, 1], history within trailLength + 1, one of the two colours) and has an empty history. |
| DataFlowLines.PushTrail | src/components/canvas/DataFlowLines.tsx:233-236 | The pushed point is last. The length grows by one or stays the same. The other points are the newest of the old history. The cap is respected. Below the cap nothing is dropped. |
| DataFlowLines.PushAllKeepsNewest | src/components/canvas/DataFlowLines.tsx:233-236 | After any sequence of pushes starting from an empty history, the history is exactly the newest min(n, cap) points pushed, oldest first. |
| DataFlowLines.Move | src/components/canvas/DataFlowLines.tsx:224-230 | On overflow past 1: progress becomes exactly 0, and the lane and colour are redrawn and the history cleared. Otherwise: only progress changes, by `ProgressStep` = speed·0.005·speedGlobal (line 224). Either way the speed is kept and the signal invariant preserved, so progress stays in [0, 1]. |
| DataFlowLines.Advance | src/components/canvas/DataFlowLines.tsx:224-236 | Apart from the history, the result is the moved signal. The history is non-empty and ends in the path point for the new progress and lane. It is exactly one point after a reset. The signal invariant (history at most trailLength + 1) is preserved. |
| DataFlowLines.AdvanceAfterReset | src/components/canvas/DataFlowLines.tsx:225-233 | Right after a reset, progress is 0, the lane and colour are the redrawn ones, and the history is exactly [head]. |
| DataFlowLines.AdvanceExtendsHistory | src/components/canvas/DataFlowLines.tsx:224-236 | Without a reset, the lane and colour are unchanged. The history is the old one plus the head, less its oldest point only when over trailLength + 1. |
| DataFlowLines.DrawCount | src/components/canvas/DataFlowLines.tsx:240 | max(1, trailLength) is at least 1 and at least trailLength, and at most the 150-point capacity. |
| DataFlowLines.TrailNewestFirst | src/components/canvas/DataFlowLines.tsx:243-249 | Trail slot i shows `TrailPoint`, which is `history[max(0, len - 1 - i)]` or the origin for an empty history (lines 244-246). That is the history read backwards: slot 0 is the head, and every slot past the oldest point repeats the oldest point. |
| DataFlowLines.Alpha | src/components/canvas/DataFlowLines.tsx:251-254 | Every alpha lies in [0, 1]. |
| DataFlowLines.AlphaRamp | src/components/canvas/DataFlowLines.tsx:251-254 | alpha_0 = 1. Alpha is non-increasing in the slot. It is positive below trailLength and 0 from trailLength on. |
| DataFlowLines.Signal.constructor | src/components/canvas/DataFlowLines.tsx:162-181 | A signal is created in the state `NewSignal` gives, with two fresh zero-filled buffers of 3·150 entries and no draw range set. |
| DataFlowLines.Signal.Update | src/components/canvas/DataFlowLines.tsx:223-263 | The signal's new state is `Advance` of the old one. The buffers hold the trail of the new history. Buffer slots beyond drawCount keep their old contents. |
| DataFlowLines.Signal.StepState | src/components/canvas/DataFlowLines.tsx:224-236 | The field updates of the step produce exactly `Advance` of the old state, and keep the signal valid. |
| DataFlowLines.Signal.DrawTrail | src/components/canvas/DataFlowLines.tsx:238-262 | The draw range is drawCount. Position slot 3i + c holds component c of trail point i (`TrailPoint`, lines 244-246). Colour slot 3i + c holds the colour scaled by alpha_i. Nothing at or beyond 3·drawCount is written. |
| DataFlowLines.Signal.DrawPosition | src/components/canvas/DataFlowLines.tsx:247-249 | Writes the three coordinates of trail slot i and no other slot. |
| DataFlowLines.Signal.DrawColor | src/components/canvas/DataFlowLines.tsx:255-257 | Writes the three faded colour components of slot i and no other slot. |
| DataFlowLines.LineSpansPath | src/components/canvas/DataFlowLines.tsx:211-213 | A line's first point is at x = -curveLength and its last at x = straightLength. x grows along the line. |
| DataFlowLines.RefreshLine | src/components/canvas/DataFlowLines.tsx:209-218 | Every one of the segmentCount·3 slots holds `LinePoint`, the path point at t = j/(segmentCount - 1) (lines 212-213). |
| DataFlowLines.FrameInterval | src/components/canvas/DataFlowLines.tsx:189 | 1000/targetFPS is positive. |
| DataFlowLines.FMod | src/components/canvas/DataFlowLines.tsx:201 | The remainder of elapsed modulo the interval lies in [0, interval), and elapsed minus the remainder is a whole number of intervals (`Intervals(q, interval)` for some q ≥ 0). When at least one interval has elapsed, removing the remainder still leaves at least one interval. |
| DataFlowLines.Gate | src/components/canvas/DataFlowLines.tsx:195-207 | A frame does work iff now - lastFrameTime ≥ frameInterval. The new lastFrameTime is then within one interval before now, and it is the old one plus k ≥ 1 whole intervals, so the clock stays on its grid. frameCount grows by one. Lines refresh iff the device is not low-performance or frameCount % 3 = 0. |
| DataFlowLines.FramesCostIntervals | src/components/canvas/DataFlowLines.tsx:195-204 | Over any run of timestamps, the clock advances by at least one frame interval per counted frame. |
| DataFlowLines.ClockBeforeLatest | src/components/canvas/DataFlowLines.tsx:195-201 | The frame clock never passes the latest timestamp seen. |
| DataFlowLines.FrameRateCapped | src/components/canvas/DataFlowLines.tsx:192-204 | frames · interval ≤ latest timestamp - starting clock: the frame rate never exceeds the target. |
| DataFlowLines.Scene.constructor | src/components/canvas/DataFlowLines.tsx:124-190 | Sets up lineCount fresh zero-filled line buffers and one fresh signal per set of random draws, in state `NewSignal`, all buffers distinct. The clock is (0, 0). |
| DataFlowLines.Scene.NewLines | src/components/canvas/DataFlowLines.tsx:124-133 | lineCount fresh, pairwise distinct, zero-filled buffers of segmentCount·3 entries. |
| DataFlowLines.Scene.NewSignals | src/components/canvas/DataFlowLines.tsx:162-182 | One fresh valid signal per set of draws, in state `NewSignal`, with pairwise distinct buffers. |
| DataFlowLines.Scene.Animate | src/components/canvas/DataFlowLines.tsx:192-263 | When the gate skips, nothing changes. Otherwise: the clock is the gate's, every line holds its path iff the gate asked for a refresh (else it is unchanged), and every signal's state is `Advance` of its old state with its trail drawn. |
| DataFlowLines.Scene.RunFrame | src/components/canvas/DataFlowLines.tsx:206-263 | The lines are refreshed iff asked. Every signal steps and redraws. |
| DataFlowLines.Scene.RefreshLines | src/components/canvas/DataFlowLines.tsx:207-220 | Every line buffer k holds line k's path points at `time`. |
| DataFlowLines.Scene.UpdateSignals | src/components/canvas/DataFlowLines.tsx:223-263 | Every signal's state is `Advance` of its old state and its trail is drawn. The line buffers are untouched. |
| DataFlowLines.Scene.StepSignal | src/components/canvas/DataFlowLines.tsx:223-263 | One signal steps. Every other signal's state and buffers are untouched. |
| PerformanceMonitor.ThresholdsFor | src/lib/performanceMonitor.ts:16-23 | Every row of the threshold table has 0 < good < poor. CLS thresholds are below 1. The others are at least 100 ms. |
| PerformanceMonitor.GetRating | src/lib/performanceMonitor.ts:28-35 | 'good' iff value ≤ good. 'needs-improvement' iff good < value ≤ poor. 'poor' iff value exceeds both. |
| PerformanceMonitor.RatingMonotone | src/lib/performanceMonitor.ts:28-35 | With good ≤ poor, a larger value never gets a better rating. |
| PerformanceMonitor.SceneLoadRating | src/lib/performanceMonitor.ts:219 | 'good' iff < 1000. 'needs-improvement' iff 1000 ≤ t < 2000. 'poor' iff ≥ 2000. |
| PerformanceMonitor.SceneLoadVersusGetRating | src/lib/performanceMonitor.ts:214-221 | The scene-load rating agrees with the inclusive classifier over 1000/2000 except at exactly 1000 and 2000, where it is one step worse. |
| PerformanceMonitor.InitialClsInvariant | src/lib/performanceMonitor.ts:116-118 | The initial closure variables satisfy the CLS invariant. |
| PerformanceMonitor.NextSession | src/lib/performanceMonitor.ts:126-139 | The shift joins the session (entries + [e], value + e.value) iff `JoinsSession` holds: sessionValue ≠ 0, and the shift is < 1000 ms after the last entry and < 5000 ms after the first (lines 129-133). Otherwise the session becomes [e] with value e.value. The session stays one window whose value is the sum of its entries. |
| PerformanceMonitor.ClsStep | src/lib/performanceMonitor.ts:124-150 | A shift with recent input changes nothing and logs nothing. Otherwise the session is `NextSession` and clsValue becomes max(clsValue, sessionValue). clsValue never decreases. A report is logged iff it strictly increases, carrying the new value and its CLS rating. The invariant clsValue ≥ sessionValue is preserved. |
| PerformanceMonitor.ClsRun | src/lib/performanceMonitor.ts:121-152 | Processing a list of entries in order preserves the CLS invariant. |
| PerformanceMonitor.ClsRunKeepsMaximum | src/lib/performanceMonitor.ts:141-142 | Over a run, clsValue never decreases and is at least every session value seen along the way. It also equals the start value or one of those session values, so it is exactly the largest of the start value and the session windows seen. |
| PerformanceMonitor.ClsRunLogIncreasing | src/lib/performanceMonitor.ts:141-149 | The logged values strictly increase, all lie above the starting value, and the last one is the final clsValue. |
| PerformanceMonitor.ClsObserver.constructor | src/lib/performanceMonitor.ts:116-118 | The closure variables start at 0, 0, [] and nothing is logged. |
| PerformanceMonitor.ClsObserver.Observe | src/lib/performanceMonitor.ts:124-150 | The callback body for one entry yields `ClsStep`'s state and appends its report, if any, to the log. |
| PerformanceMonitor.ClsObserver.ObserveList | src/lib/performanceMonitor.ts:122-151 | The callback over a list of entries yields `ClsRun`'s state and appends its reports to the log. |
| PerformanceMonitor.ClsObserver.ObserveNext | src/lib/performanceMonitor.ts:124-151 | One loop iteration extends the run by the next entry. |
| PerformanceMonitor.Round | src/lib/performanceMonitor.ts:237 | Math.round: the nearest integer, with halves rounded up. |
| PerformanceMonitor.FpsTick | src/lib/performanceMonitor.ts:232-247 | A report is made iff currentTime ≥ lastTime + 1000. It is round((frames + 1)·1000/dt), lies in [0, frames + 1], and resets the state to (currentTime, 0). Otherwise frames grows by one. |
| PerformanceMonitor.RateAtMostCount | src/lib/performanceMonitor.ts:237 | Over a window of at least 1000 ms, the rate and its rounding are at most the frame count. |
| PerformanceMonitor.FpsMeter.constructor | src/lib/performanceMonitor.ts:229-230 | The counter starts at the given time with no frames. |
| PerformanceMonitor.FpsMeter.Tick | src/lib/performanceMonitor.ts:232-247 | The tick returns and records `FpsTick`'s report and takes `FpsTick`'s state. |
| Throttle.Cancel | src/hooks/useThrottle.ts:20-22 | clearTimeout removes exactly the timers with the given id and keeps the rest. |
| Throttle.ThrottleInit | src/hooks/useThrottle.ts:8-9 | lastRun starts at the creation time, with no timer and no invocation. |
| Throttle.ThrottleCall | src/hooks/useThrottle.ts:12-31 | The callback runs at once iff now - lastRun ≥ delay, and then lastRun = now. Otherwise the one live timer is replaced by one due at lastRun + delay carrying these arguments. At most one timer is ever live. |
| Throttle.ThrottleFire | src/hooks/useThrottle.ts:23-27 | A fired timer invokes the callback with the arguments of the latest deferred call, sets lastRun to the firing time, and leaves no timer. |
| Throttle.EarlyCallDeferred | src/hooks/useThrottle.ts:8-29 | A call within delay of creation does not run. It schedules a timer at creation + delay. |
| Throttle.StaleArgumentsAfterImmediateRun | src/hooks/useThrottle.ts:16-29 | As written, an immediate run leaves an overdue timer live, which later delivers older arguments after newer ones. |
| Throttle.ThrottleCallFixed | src/hooks/useThrottle.ts:16-29 | The corrected call also cancels the live timer on an immediate run, and otherwise behaves as written. |
| Throttle.FixedCallKeepsCallOrder | src/hooks/useThrottle.ts:12-31 | With the corrected call, invocations happen in call order, and the live timer, if any, carries the arguments of the latest call. |
| Throttle.FireKeepsCallOrder | src/hooks/useThrottle.ts:23-27 | Firing the live timer keeps invocations in call order. |
| Throttle.ThrottledCallback.constructor | src/hooks/useThrottle.ts:8-9 | The refs start in `ThrottleInit`. |
| Throttle.ThrottledCallback.Call | src/hooks/useThrottle.ts:12-31 | The returned callback's body takes the refs to `ThrottleCall`. |
| Throttle.ThrottledCallback.Fire | src/hooks/useThrottle.ts:24-27 | The timer closure takes the refs to `ThrottleFire`. |
| Throttle.DebounceInit | src/hooks/useThrottle.ts:41 | No timer and no invocation. |
| Throttle.DebounceCall | src/hooks/useThrottle.ts:44-51 | Every call cancels the live timer and leaves exactly one, due at now + delay with these arguments. It never invokes the callback. |
| Throttle.DebounceFire | src/hooks/useThrottle.ts:48-50 | The fired timer invokes the callback with its arguments and leaves no timer. |
| Throttle.DebounceRun | src/hooks/useThrottle.ts:44-51 | Over any event sequence, at most one timer is live. |
| Throttle.DebouncePendingIsLastCall | src/hooks/useThrottle.ts:44-51 | The live timer, if any, belongs to the last call and is due delay after it. |
| Throttle.DebounceRunsAfterQuietPeriod | src/hooks/useThrottle.ts:44-51 | Whenever the callback runs, it gets the last call's arguments, at least delay after that call, with no call since. |
| Throttle.DebouncedCallback.constructor | src/hooks/useThrottle.ts:41 | The refs start in `DebounceInit`. |
| Throttle.DebouncedCallback.Call | src/hooks/useThrottle.ts:44-51 | The returned callback's body takes the refs to `DebounceCall`. |
| Throttle.DebouncedCallback.Fire | src/hooks/useThrottle.ts:48-50 | The timer closure takes the refs to `DebounceFire`. |
| Throttle.RafInit | src/hooks/useThrottle.ts:65-66 | No frame requested and no invocation. |
| Throttle.RafCall | src/hooks/useThrottle.ts:69-82 | Every call stores its arguments as the latest. Exactly one frame is then requested: a new one only if none was pending. Nothing is invoked. |
| Throttle.RafFrame | src/hooks/useThrottle.ts:76-81 | The frame invokes the callback with the latest arguments and clears the marker, so the next call requests a fresh frame. |
| Throttle.RafCalls | src/hooks/useThrottle.ts:69-74 | Any run of calls keeps at most one frame requested and invokes nothing. |
| Throttle.RafCallsCoalesce | src/hooks/useThrottle.ts:69-81 | Any number of calls before a frame yield one frame and one invocation, with the last call's arguments. |
| Throttle.RafThrottledCallback.constructor | src/hooks/useThrottle.ts:65-66 | The refs start in `RafInit`. |
| Throttle.RafThrottledCallback.Call | src/hooks/useThrottle.ts:69-82 | The returned callback's body takes the refs to `RafCall`. |
| Throttle.RafThrottledCallback.Frame | src/hooks/useThrottle.ts:76-81 | The frame callback takes the refs to `RafFrame`. |
| NoiseTexture.LowByte | src/lib/noiseTexture.ts:60-61 | i & 255 lies in [0, 256), differs from i by a multiple of 256, and is i itself for a byte. |
| NoiseTexture.SeedByte | src/lib/noiseTexture.ts:19 | floor(seed·256) lies in [0, 255]. |
| NoiseTexture.SwapIndex | src/lib/noiseTexture.ts:24 | floor(seed·(i + 1)) lies in [0, i], so every swap is in bounds. |
| NoiseTexture.Shuffle | src/lib/noiseTexture.ts:23-26 | The descending swap loop preserves the multiset of the table. Which slots are swapped depends on the seed, which is a parameter, so the resulting order is deliberately left unstated. |
| NoiseTexture.SimplexNoise.constructor | src/lib/noiseTexture.ts:16-32 | p has 256 entries, all equal to floor(seed·256). perm has 512 entries with perm[i] = p[i & 255]. |
| NoiseTexture.SimplexNoise.PermPeriodic | src/lib/noiseTexture.ts:29-31 | perm[i] = perm[i + 256] for i < 256. |
| NoiseTexture.SimplexNoise.CornerGradients | src/lib/noiseTexture.ts:60-64 | Every perm index used is below 512, and every gradient index is in [0, 12). |
| NoiseTexture.CornerGradientsPeriodic | src/lib/noiseTexture.ts:60-64 | The gradient choice repeats every 256 cells in each direction. |
| NoiseTexture.MiddleCorner | src/lib/noiseTexture.ts:52-53 | i1 + j1 = 1, both in {0, 1}, and i1 = 1 iff x0 > y0. |
| NoiseTexture.ConstantTableOneGradient | src/lib/noiseTexture.ts:18-20 | With the table as written, every corner of every cell gets one and the same gradient. |
| NoiseTexture.PermutationTable | src/lib/noiseTexture.ts:18-26 | Starting from p[i] = i, the same shuffle yields a permutation of 0..255: every byte exactly once. |
| NoiseTexture.GenerateNoiseTexture | src/lib/noiseTexture.ts:92-117 | The buffer has 4·width·height bytes. Byte 4q + c holds channel c of pixel q: R = G = B = the pixel's grey level, A = 255. The grey level is `PixelValue`: floor(((n + 1)/2)·255) of the three-octave sum n at frequencies 4, 8 and 16 with weights 0.5, 0.25 and 0.125 (lines 99-109). |
| NoiseTexture.WritePixel | src/lib/noiseTexture.ts:99-115 | One inner-loop iteration extends the filled prefix by pixel i·width + j. |
| NoiseTexture.StorePixel | src/lib/noiseTexture.ts:111-115 | The four stores at stride pixel·4 fill that pixel. |
| NoiseTexture.TexturePixel | src/lib/noiseTexture.ts:111-115 | Pixel (i, j) has number i·width + j < width·height, with R = G = B = its grey level (`PixelValue`, lines 99-109) and A = 255. |
| NoiseTexture.SlotsDisjoint | src/lib/noiseTexture.ts:111 | Distinct (pixel, channel) pairs have distinct offsets, so each byte is written exactly once. |
| Geometry.SquaredDistance | src/components/canvas/NeuralNetworkEnhanced.tsx:96 | The squared distance is non-negative and 0 between equal points. |
| ConnectionLines.Animated | src/components/canvas/NeuralNetworkEnhanced.tsx:87-90 | With \|sin\|, \|cos\| ≤ 1, the animated position is within 0.5, 0.6 and 0.4 of the base position in x, y and z. |
| ConnectionLines.UpdateSpheres | src/components/canvas/NeuralNetworkEnhanced.tsx:86-91 | Every sphere position is overwritten by its animated position. |
| ConnectionLines.RowPairsShape | src/components/canvas/NeuralNetworkEnhanced.tsx:95-99 | The inner loop for i emits only close pairs (i, k) with i < k, in increasing k, at most n - i - 1 of them. |
| ConnectionLines.RowPairsComplete | src/components/canvas/NeuralNetworkEnhanced.tsx:95-99 | The inner loop for i emits every close pair (i, k) with i < k. |
| ConnectionLines.AppendRow | src/components/canvas/NeuralNetworkEnhanced.tsx:94-99 | Appending row i to the earlier rows keeps every pair close and the list lexicographically sorted. |
| ConnectionLines.PairsBeforeShape | src/components/canvas/NeuralNetworkEnhanced.tsx:94-99 | The pairs of the first i rows are close, have h < k, and are in lexicographic order. |
| ConnectionLines.PairsBeforeComplete | src/components/canvas/NeuralNetworkEnhanced.tsx:94-99 | The first i rows contain every close pair whose first sphere is below i. |
| ConnectionLines.PairsBeforeCount | src/components/canvas/NeuralNetworkEnhanced.tsx:94-95 | The first i rows have at most i(2n - i - 1)/2 pairs. |
| ConnectionLines.ClosePairsExactly | src/components/canvas/NeuralNetworkEnhanced.tsx:94-100 | (i, j) is emitted iff i < j < n and `Close` holds: the spheres are less than 10 apart (line 100, as squared distance < 100). The list is strictly lexicographic, so no pair repeats and (i, i) never occurs. There are at most n(n - 1)/2 pairs. |
| ConnectionLines.SegmentsLength | src/components/canvas/NeuralNetworkEnhanced.tsx:100-107 | Six numbers per emitted pair. |
| ConnectionLines.SegmentsAt | src/components/canvas/NeuralNetworkEnhanced.tsx:100-107 | Segment number a is (x_i, y_i, z_i, x_j, y_j, z_j) for pair number a = (i, j). |
| ConnectionLines.RowSegmentsStep | src/components/canvas/NeuralNetworkEnhanced.tsx:96-108 | Column j of row i adds its segment iff the two spheres are close. |
| ConnectionLines.PushRow | src/components/canvas/NeuralNetworkEnhanced.tsx:95-109 | The inner loop pushes exactly the segments of row i. |
| ConnectionLines.ConnectionPositions | src/components/canvas/NeuralNetworkEnhanced.tsx:94-110 | The nested loops produce exactly the segments of the close pairs, in visiting order. |
| ConnectionLines.Frame | src/components/canvas/NeuralNetworkEnhanced.tsx:82-110 | Every sphere moves to its animated position, and the list is the segments of the close pairs at the new positions. |

## Left out

- Rendering: the three.js scene, camera, renderer, bloom pass, `composer.render`, the resize handler and dispose (src/components/canvas/DataFlowLines.tsx:47-86, 265-303). These are foreign library calls with no state the model needs.
- Scheduling and I/O: `requestAnimationFrame`, `setTimeout`/`clearTimeout`, `PerformanceObserver`, `performance.now`, `Date.now`, `THREE.Clock` and `Math.random` are parameters or explicit operations (`Fire`, `Frame`, `Animate`'s `now` and `time`). Real timer ordering is not modelled: any due timer may run at any later time.
- Floating point: all coordinates, times and colour components are reals, so `Float32Array` rounding and IEEE effects are not modelled. Cosine, sine and power are uninterpreted function values. Only |sin|, |cos| ≤ 1 is assumed, and only where a bound needs it.
- Colours: decoding the hex colour strings (`THREE.Color`) is not modelled. The two signal colours are parameters.
- DataFlowLines.Configure: the device probe (user-agent sniff, core count) is the `isLowPerf` parameter. The rendering-only settings are left out: background colour, line opacity, rotation, bloom, and the group offset `positionX`.
- DataFlowLines.Signal.DrawTrail: the `needsUpdate` flags are not modelled.
- DataFlowLines.RefreshLine: the `needsUpdate` flags are not modelled.
- NoiseTexture.GenerateNoiseTexture: the grey level is stored as an unbounded integer. `Uint8Array` wrap-around for noise sums outside [-1, 1] is not modelled, and neither is building the `DataTexture`.
- NoiseTexture.SimplexNoise.CornerGradients: the gradient arithmetic of `noise` (`dot`, the falloff terms and the final scaling) is floating point and not modelled. The integer cell (i, j) and the in-cell offsets are parameters rather than computed with `Math.floor` and the skew constants.
- The noise function used by the texture is a parameter, not `SimplexNoise.noise`.
- Default arguments: `generateNoiseTexture(width = 512, height = 512)` and `new SimplexNoise(seed = Math.random())` (src/lib/noiseTexture.ts:92, 16). The model takes width, height and seed as explicit parameters, so the defaults are not modelled.
- ConnectionLines.Frame: the early return when the line object is not mounted (src/components/canvas/NeuralNetworkEnhanced.tsx:80) and the three.js buffer attribute built from the list are not modelled.
- ConnectionLines.Segments: a pair naming a sphere that does not exist would contribute nothing. The loops never produce such a pair.
- The other metrics of the performance monitor (`measureLCP`, `measureFID`, `measureFCP`, `measureTTFB`), `initPerformanceMonitoring`, `reportBundleSize` and `logMetric` are observer registration and console output. The model only records logged CLS values and their ratings.
- PerformanceMonitor.FpsTick: the console message and its emoji thresholds are not modelled.
- Throttle.ThrottleCall: the closure captures `callback` and `delay` once per render (`useCallback` dependencies). The model fixes them per callback object.
- The rest of the site (the other canvas scenes, DOM components, hooks, store and build configuration) is not part of this model.

## Findings

| source | as written | input that shows it | evidently intended | confidence | as-written member | corrected member |
|---|---|---|---|---|---|---|
| src/lib/noiseTexture.ts:18-20 | Every slot of `p` is set to `floor(seed * 256)`, so the shuffle only permutes equal values and every corner of every cell gets the same gradient index. | Any seed in [0, 1): e.g. seed 0 gives p = [0, …, 0] and gradient 0 everywhere. | Slot i starts as i, so the shuffled table is a permutation of 0..255. | high, not executed | NoiseTexture.ConstantTableOneGradient | NoiseTexture.PermutationTable |
| src/hooks/useThrottle.ts:16-29 | A call that runs at once does not cancel a live timer. An overdue timer from an earlier deferred call can then run after it, passing older arguments last. | delay 100, created at 0: call at 50 (timer due 100), call at 105 runs at once, timer runs at 106 with the arguments of the call at 50. | An immediate run also clears the pending timer, so invocations follow call order. | low (needs the timer to be overdue when the next call arrives), not executed | Throttle.StaleArgumentsAfterImmediateRun | Throttle.ThrottleCallFixed |
