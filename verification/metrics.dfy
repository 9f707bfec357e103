/** Frame-timing metrics of the anchor plugin. Four systems share one state:
    the frame start, the fixed-step start and end that time the anchor
    simulation, and two render hooks that time rendering through a shared
    slot. Once a second the accumulated figures are logged and reset.
    Instants are natural numbers of nanoseconds on a monotonic clock and
    durations are natural numbers of nanoseconds. */
module Metrics {
  import opened Base

  const NanosPerSecond: nat := 1_000_000_000

  /** The last frame's durations, in nanoseconds. */
  datatype FrameTimings = FrameTimings(frame: nat, anchor: nat, render: nat)

  const ZeroTimings := FrameTimings(0, 0, 0)

  datatype MetricsState = MetricsState(
    frameStart: nat,
    frameInitialized: bool,
    anchorStart: Option<nat>,
    accumulatedAnchor: nat,
    lastLog: nat,
    framesSinceLog: nat,
    anchorStepsSinceLog: nat,
    totalTick: nat,
    frameDurationSinceLog: nat,
    anchorDurationSinceLog: nat,
    renderDurationSinceLog: nat)

  /** The state as created at instant `now`. */
  function DefaultState(now: nat): (s: MetricsState)
    ensures s.frameStart == now && s.lastLog == now && !s.frameInitialized
    ensures s.anchorStart.None? && s.totalTick == 0
  {
    MetricsState(now, false, None, 0, now, 0, 0, 0, 0, 0, 0)
  }

  /** The slot the render hooks write and the frame start drains. */
  datatype RenderTiming = RenderTiming(start: Option<nat>, end: Option<nat>)

  const EmptyRenderTiming := RenderTiming(None, None)

  /** The once-a-second log line. Averages are in milliseconds. */
  datatype FrameLog = FrameLog(
    tick: nat,
    frames: nat,
    anchorSteps: nat,
    avgFrameMs: real,
    avgAnchorMs: real,
    avgRenderMs: real)

  function AverageMs(totalNanos: nat, frames: nat): real {
    (totalNanos as real) / 1_000_000.0 / ((if frames == 0 then 1 else frames) as real)
  }

  /** Render time of the drained slot: only when both ends were recorded,
      and never negative. */
  function RenderDuration(shared: RenderTiming): (d: nat)
    ensures shared.start.None? || shared.end.None? ==> d == 0
    ensures shared.start.Some? && shared.end.Some? && shared.end.value >= shared.start.value ==>
      d + shared.start.value == shared.end.value
    ensures shared.start.Some? && shared.end.Some? && shared.end.value < shared.start.value ==> d == 0
  {
    if shared.start.Some? && shared.end.Some? then SatSub(shared.end.value, shared.start.value) else 0
  }

  datatype FrameResult = FrameResult(state: MetricsState, timings: FrameTimings, shared: RenderTiming, log: Option<FrameLog>)

  /** `begin_frame` at instant `now`. */
  function BeginFrame(s: MetricsState, timings: FrameTimings, shared: RenderTiming, now: nat): (r: FrameResult)
    // the slot is always drained and a new frame always starts
    ensures r.shared == EmptyRenderTiming
    ensures r.state.frameStart == now && r.state.accumulatedAnchor == 0 && r.state.frameInitialized
    ensures r.state.anchorStart == s.anchorStart && r.state.totalTick == s.totalTick
    // the very first frame only initialises
    ensures !s.frameInitialized ==>
      && r.timings == ZeroTimings && r.log.None?
      && r.state == s.(frameStart := now, accumulatedAnchor := 0, frameInitialized := true)
    // later frames report the frame just ended
    ensures s.frameInitialized ==>
      r.timings == FrameTimings(SatSub(now, s.frameStart), s.accumulatedAnchor, RenderDuration(shared))
    // and log exactly when a second has passed since the last log
    ensures s.frameInitialized ==> (r.log.Some? <==> SatSub(now, s.lastLog) >= NanosPerSecond)
    ensures s.frameInitialized && r.log.Some? ==>
      && r.log.value.tick == s.totalTick
      && r.log.value.frames == s.framesSinceLog + 1
      && r.log.value.anchorSteps == s.anchorStepsSinceLog
      && r.state.lastLog == now
      && r.state.framesSinceLog == 0 && r.state.anchorStepsSinceLog == 0
      && r.state.frameDurationSinceLog == 0 && r.state.anchorDurationSinceLog == 0
      && r.state.renderDurationSinceLog == 0
    ensures s.frameInitialized && r.log.None? ==>
      && r.state.lastLog == s.lastLog
      && r.state.framesSinceLog == s.framesSinceLog + 1
      && r.state.anchorStepsSinceLog == s.anchorStepsSinceLog
      && r.state.frameDurationSinceLog == s.frameDurationSinceLog + r.timings.frame
      && r.state.anchorDurationSinceLog == s.anchorDurationSinceLog + r.timings.anchor
      && r.state.renderDurationSinceLog == s.renderDurationSinceLog + r.timings.render
  {
    var frameDuration := SatSub(now, s.frameStart);
    var anchorDuration := s.accumulatedAnchor;
    var renderDuration := RenderDuration(shared);
    if !s.frameInitialized then
      FrameResult(s.(frameStart := now, accumulatedAnchor := 0, frameInitialized := true),
        ZeroTimings, EmptyRenderTiming, None)
    else
      var counted := s.(
        framesSinceLog := s.framesSinceLog + 1,
        frameDurationSinceLog := s.frameDurationSinceLog + frameDuration,
        anchorDurationSinceLog := s.anchorDurationSinceLog + anchorDuration,
        renderDurationSinceLog := s.renderDurationSinceLog + renderDuration);
      var newTimings := FrameTimings(frameDuration, anchorDuration, renderDuration);
      if SatSub(now, s.lastLog) >= NanosPerSecond then
        var log := FrameLog(counted.totalTick, counted.framesSinceLog, counted.anchorStepsSinceLog,
          AverageMs(counted.frameDurationSinceLog, counted.framesSinceLog),
          AverageMs(counted.anchorDurationSinceLog, counted.framesSinceLog),
          AverageMs(counted.renderDurationSinceLog, counted.framesSinceLog));
        var reset := counted.(
          lastLog := now, framesSinceLog := 0, anchorStepsSinceLog := 0,
          frameDurationSinceLog := 0, anchorDurationSinceLog := 0, renderDurationSinceLog := 0);
        FrameResult(reset.(frameStart := now, accumulatedAnchor := 0), newTimings, EmptyRenderTiming, Some(log))
      else
        FrameResult(counted.(frameStart := now, accumulatedAnchor := 0), newTimings, EmptyRenderTiming, None)
  }

  /** `mark_render_start`: a new render begins and any old end is dropped. */
  function MarkRenderStart(shared: RenderTiming, now: nat): (r: RenderTiming)
    ensures r.start == Some(now) && r.end.None?
  {
    RenderTiming(Some(now), None)
  }

  /** `finish_render_timer`: the render ends now; the start is kept. */
  function FinishRenderTimer(shared: RenderTiming, now: nat): (r: RenderTiming)
    ensures r.start == shared.start && r.end == Some(now)
  {
    shared.(end := Some(now))
  }

  /** `anchor_step_start`. */
  function AnchorStepStart(s: MetricsState, now: nat): (r: MetricsState)
    ensures r.anchorStart == Some(now)
    ensures r.(anchorStart := s.anchorStart) == s
  {
    s.(anchorStart := Some(now))
  }

  /** `anchor_step_end`: a step counts only when one was started. */
  function AnchorStepEnd(s: MetricsState, now: nat): (r: MetricsState)
    ensures r.anchorStart.None?
    ensures s.anchorStart.None? ==> r == s
    ensures s.anchorStart.Some? ==>
      && r.totalTick == s.totalTick + 1
      && r.anchorStepsSinceLog == s.anchorStepsSinceLog + 1
      && r.accumulatedAnchor == s.accumulatedAnchor + SatSub(now, s.anchorStart.value)
      && r.(anchorStart := s.anchorStart, totalTick := s.totalTick,
            anchorStepsSinceLog := s.anchorStepsSinceLog, accumulatedAnchor := s.accumulatedAnchor) == s
  {
    match s.anchorStart
    case None => s
    case Some(start) =>
      s.(anchorStart := None,
         accumulatedAnchor := s.accumulatedAnchor + SatSub(now, start),
         anchorStepsSinceLog := s.anchorStepsSinceLog + 1,
         totalTick := s.totalTick + 1)
  }

  // ---------------------------------------------------------------------------
  // Runs of events
  // ---------------------------------------------------------------------------

  /** One call of one of the systems, at the instant it reads the clock. */
  datatype Event =
    | FrameBegins(at: nat)
    | RenderStarts(at: nat)
    | RenderEnds(at: nat)
    | AnchorStepStarts(at: nat)
    | AnchorStepEnds(at: nat)

  datatype Metrics = Metrics(state: MetricsState, timings: FrameTimings, shared: RenderTiming)

  function Step(m: Metrics, e: Event): Metrics {
    match e
    case FrameBegins(t) =>
      var r := BeginFrame(m.state, m.timings, m.shared, t);
      Metrics(r.state, r.timings, r.shared)
    case RenderStarts(t) => m.(shared := MarkRenderStart(m.shared, t))
    case RenderEnds(t) => m.(shared := FinishRenderTimer(m.shared, t))
    case AnchorStepStarts(t) => m.(state := AnchorStepStart(m.state, t))
    case AnchorStepEnds(t) => m.(state := AnchorStepEnd(m.state, t))
  }

  function Run(m: Metrics, events: seq<Event>): Metrics
    decreases |events|
  {
    if |events| == 0 then m else Run(Step(m, events[0]), events[1..])
  }

  /** The events read a clock that never goes back, starting at `now`. */
  predicate Monotone(now: nat, events: seq<Event>) {
    (forall i :: 0 <= i < |events| ==> now <= events[i].at)
    && forall i, j :: 0 <= i < j < |events| ==> events[i].at <= events[j].at
  }

  function LastInstant(now: nat, events: seq<Event>): nat {
    if |events| == 0 then now else events[|events| - 1].at
  }

  predicate NotAfter(t: Option<nat>, now: nat) {
    t.Some? ==> t.value <= now
  }

  /** What holds of the metrics between any two calls at instant `now`. */
  predicate Invariant(m: Metrics, now: nat) {
    var s := m.state;
    && s.lastLog <= s.frameStart <= now
    // the frame time summed since the last log never exceeds the time
    // elapsed between that log and the current frame's start
    && s.frameDurationSinceLog <= s.frameStart - s.lastLog
    // steps since the last log are among all steps
    && s.anchorStepsSinceLog <= s.totalTick
    // nothing is counted before the first frame
    && (!s.frameInitialized ==>
          s.framesSinceLog == 0 && s.frameDurationSinceLog == 0
          && s.anchorDurationSinceLog == 0 && s.renderDurationSinceLog == 0)
    && NotAfter(s.anchorStart, now)
    && NotAfter(m.shared.start, now) && NotAfter(m.shared.end, now)
  }

  lemma InitialInvariant(now: nat)
    ensures Invariant(Metrics(DefaultState(now), ZeroTimings, EmptyRenderTiming), now)
  {
  }

  lemma StepKeepsInvariant(m: Metrics, now: nat, e: Event)
    requires Invariant(m, now) && now <= e.at
    ensures Invariant(Step(m, e), e.at)
  {
    if e.FrameBegins? {
      var s := m.state;
      var r := BeginFrame(s, m.timings, m.shared, e.at);
      if s.frameInitialized && r.log.None? {
        assert r.state.frameDurationSinceLog == s.frameDurationSinceLog + (e.at - s.frameStart);
      }
    }
  }

  lemma {:induction false} RunKeepsInvariant(m: Metrics, now: nat, events: seq<Event>)
    requires Invariant(m, now) && Monotone(now, events)
    ensures Invariant(Run(m, events), LastInstant(now, events))
    decreases |events|
  {
    if |events| > 0 {
      StepKeepsInvariant(m, now, events[0]);
      var rest := events[1..];
      assert Monotone(events[0].at, rest);
      RunKeepsInvariant(Step(m, events[0]), events[0].at, rest);
      assert LastInstant(events[0].at, rest) == LastInstant(now, events);
    }
  }

  /** The tick count counts exactly the completed anchor steps: an end
      without a start counts nothing, a second start before an end replaces
      the first. */
  function CompletedSteps(pending: bool, events: seq<Event>): nat
    decreases |events|
  {
    if |events| == 0 then 0
    else match events[0]
      case AnchorStepStarts(_) => CompletedSteps(true, events[1..])
      case AnchorStepEnds(_) => (if pending then 1 else 0) + CompletedSteps(false, events[1..])
      case _ => CompletedSteps(pending, events[1..])
  }

  lemma {:induction false} TotalTickCountsCompletedSteps(m: Metrics, events: seq<Event>)
    ensures Run(m, events).state.totalTick == m.state.totalTick + CompletedSteps(m.state.anchorStart.Some?, events)
    decreases |events|
  {
    if |events| > 0 {
      TotalTickCountsCompletedSteps(Step(m, events[0]), events[1..]);
    }
  }

  lemma RunFirst(m: Metrics, e: Event, rest: seq<Event>)
    ensures Run(m, [e] + rest) == Run(Step(m, e), rest)
  {
    assert ([e] + rest)[1..] == rest;
  }

  /** A frame that starts between a render's start and its end loses that
      render's time: the start is drained with no end, and the end that
      follows finds no start. */
  lemma RenderStraddlingFrameStartIsLost(m: Metrics, t0: nat, t1: nat, t2: nat, t3: nat)
    ensures var after := Run(m, [RenderStarts(t0), FrameBegins(t1), RenderEnds(t2), FrameBegins(t3)]);
      after.timings.render == 0
  {
    var m1 := Step(m, RenderStarts(t0));
    var m2 := Step(m1, FrameBegins(t1));
    var m3 := Step(m2, RenderEnds(t2));
    assert m3.shared == RenderTiming(None, Some(t2));
    RunFirst(m, RenderStarts(t0), [FrameBegins(t1), RenderEnds(t2), FrameBegins(t3)]);
    RunFirst(m1, FrameBegins(t1), [RenderEnds(t2), FrameBegins(t3)]);
    RunFirst(m2, RenderEnds(t2), [FrameBegins(t3)]);
    RunFirst(m3, FrameBegins(t3), []);
  }

  /** A render that completes within a frame is reported at the next frame
      start. */
  lemma RenderWithinFrameIsReported(m: Metrics, t0: nat, t1: nat, t2: nat)
    requires m.state.frameInitialized && t0 <= t1
    ensures var after := Run(m, [RenderStarts(t0), RenderEnds(t1), FrameBegins(t2)]);
      after.timings.render == t1 - t0
  {
    var m1 := Step(m, RenderStarts(t0));
    var m2 := Step(m1, RenderEnds(t1));
    assert m2.shared == RenderTiming(Some(t0), Some(t1));
    RunFirst(m, RenderStarts(t0), [RenderEnds(t1), FrameBegins(t2)]);
    RunFirst(m1, RenderEnds(t1), [FrameBegins(t2)]);
    RunFirst(m2, FrameBegins(t2), []);
  }
}
