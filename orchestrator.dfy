/** The control loop of `process_videos` in dp1140.py: lock-stepped reads of
    the two streams, sampling every `int(fps / FRAME_RATE)` frames, two
    recursive filters that only run once a previous frame exists, a result
    list and a report file that both grow inside one `try`, and a previous
    frame that only advances at the end of a successful `try`.

    The embedding model, the optical flow, the environment simulation and
    the exceptions they may raise are inputs of the run. */
module Orchestrator {
  import opened Common
  import opened Kalman
  import opened Correction
  import opened Horizon

  /** FRAME_RATE: frames analysed per second of video. */
  const FrameRate: real := 1.0

  /** A frame read from a stream; `image` is what the horizon detector sees in it. */
  datatype Frame = Frame(id: nat, image: Image)

  /** The two quantities of `calculate_optical_flow` the rest of the loop uses. */
  datatype Flow = Flow(magnitude: real, angle: real)

  /** What `calculate_optical_flow` returns without a previous frame. */
  const NoFlow: Flow := Flow(0.0, 0.0)

  /** Where the body of the `try` raises while a sampled frame is processed. */
  datatype Fault =
    | NoFault
    | InAnalysis    // features, cosine similarity or optical flow (before the filters)
    | InReport      // environment data or the correction command (after the filters)
    | InWrite       // appending to the report file (after `results.append`)
    | AfterWrite    // the console line or the frame copy (after the file append)

  /** One element of `results`: `(timestamp, similarity, command)`. */
  datatype Entry = Entry(timestamp: real, similarity: real, command: Recommendation)

  /** Everything the run reads from outside. */
  datatype Inputs = Inputs(
    openedA: bool,                           // cap_a2b.isOpened()
    openedB: bool,                           // cap_b2a.isOpened()
    fps: real,                               // CAP_PROP_FPS of stream A
    framesA: seq<Frame>,                     // the reads of stream A that succeed
    framesB: seq<Frame>,                     // the reads of stream B that succeed
    similarity: (Frame, Frame) -> real,      // cosine of the two embeddings, times 100
    flow: (Frame, Frame) -> Flow,            // optical flow from the previous frame to this one
    environment: real -> Environment,        // `get_environment_data(timestamp)`
    fault: nat -> Fault)                     // what raises while frame k is processed

  /** The local state of the loop. `report` holds the blocks appended to the output file. */
  datatype State = State(
    frameCount: nat,
    prevFrame: Option<Frame>,
    angleFilter: Estimate,
    magnitudeFilter: Estimate,
    results: seq<Entry>,
    report: seq<Recommendation>)

  /** What `process_videos` does to its caller: a result list, or the ZeroDivisionError of a zero interval. */
  datatype Outcome = Returned(results: seq<Entry>) | Raised

  /** The output file: left alone when a stream fails to open, otherwise the header and the appended blocks. */
  datatype ReportFile = Untouched | Written(blocks: seq<Recommendation>)

  datatype RunResult = RunResult(outcome: Outcome, file: ReportFile)

  /** How the loop ends: the first failed read, or the modulo by a zero interval. */
  datatype LoopEnd = Finished(state: State) | Crashed(state: State)

  /** `int(fps_a2b / FRAME_RATE)`, truncated. */
  function Interval(inp: Inputs): int
  {
    Trunc(inp.fps / FrameRate)
  }

  /** The number of iterations whose two reads both succeed. */
  function Reads(inp: Inputs): nat
  {
    if |inp.framesA| <= |inp.framesB| then |inp.framesA| else |inp.framesB|
  }

  const Start: State := State(0, None, Initial, Initial, [], [])

  /** The flow handed to the filters: zeros while there is no previous frame. */
  function RawFlow(inp: Inputs, s: State, a: Frame): Flow
  {
    if s.prevFrame.None? then NoFlow else inp.flow(s.prevFrame.value, a)
  }

  /** The outcome of the two filter updates: the new state, the flow the
      command uses, and whether an update raised. */
  datatype Smoothed = Smoothed(state: State, flow: Flow, raised: bool)

  /** Lines 210-214: both filters step only when a previous frame exists; an
      update that raises leaves the earlier one in place. */
  function Smooth(s: State, raw: Flow): (f: Smoothed)
    ensures s.prevFrame.None? ==> f == Smoothed(s, raw, false)
    ensures f.state == s.(angleFilter := f.state.angleFilter, magnitudeFilter := f.state.magnitudeFilter)
  {
    if s.prevFrame.None? then Smoothed(s, raw, false)
    else match Step(s.angleFilter, KalmanQ, KalmanR, raw.angle)
      case None => Smoothed(s, raw, true)
      case Some(fa) =>
        match Step(s.magnitudeFilter, KalmanQ, KalmanR, raw.magnitude)
        case None => Smoothed(s.(angleFilter := fa), raw, true)
        case Some(fm) =>
          Smoothed(s.(angleFilter := fa, magnitudeFilter := fm), Flow(fm.state, fa.state), false)
  }

  /** Lines 215-223: the command, `results.append`, the file append, then the previous frame. */
  function Conclude(inp: Inputs, s: State, a: Frame, similarity: real, flow: Flow): (s': State)
    requires Interval(inp) != 0
    ensures s'.frameCount == s.frameCount
    ensures s'.angleFilter == s.angleFilter && s'.magnitudeFilter == s.magnitudeFilter
  {
    var fault := inp.fault(s.frameCount);
    if fault == InReport then s
    else
      var timestamp := s.frameCount as real / inp.fps;
      var command := Synthesize(similarity, flow.angle, flow.magnitude,
                                inp.environment(timestamp), HorizonAngle(a.image));
      var s1 := s.(results := s.results + [Entry(timestamp, similarity, command)]);
      if fault == InWrite then s1
      else
        var s2 := s1.(report := s1.report + [command]);
        if fault == AfterWrite then s2 else s2.(prevFrame := Some(a))
  }

  /** The `try` block for a sampled frame pair. */
  function ProcessFrame(inp: Inputs, s: State, a: Frame, b: Frame): (s': State)
    requires Interval(inp) != 0
    ensures s'.frameCount == s.frameCount
    ensures s'.prevFrame == s.prevFrame || (s'.prevFrame == Some(a) && inp.fault(s.frameCount) == NoFault)
    ensures s'.results == s.results ||
            (&& |s'.results| == |s.results| + 1
             && s'.results[..|s.results|] == s.results
             && s'.results[|s.results|].timestamp == s.frameCount as real / inp.fps)
    ensures s'.report == s.report ||
            (&& |s'.results| == |s.results| + 1
             && s'.report == s.report + [s'.results[|s.results|].command])
  {
    if inp.fault(s.frameCount) == InAnalysis then s
    else
      var similarity := inp.similarity(a, b);
      var f := Smooth(s, RawFlow(inp, s, a));
      if f.raised then f.state else Conclude(inp, f.state, a, similarity, f.flow)
  }

  /** The `while True` loop from state `s` on. */
  function Loop(inp: Inputs, s: State): LoopEnd
    decreases Reads(inp) - s.frameCount
  {
    if s.frameCount >= Reads(inp) then Finished(s)
    else if Interval(inp) == 0 then Crashed(s)
    else if s.frameCount % Interval(inp) != 0 then Loop(inp, s.(frameCount := s.frameCount + 1))
    else
      var s' := ProcessFrame(inp, s, inp.framesA[s.frameCount], inp.framesB[s.frameCount]);
      Loop(inp, s'.(frameCount := s.frameCount + 1))
  }

  /** `process_videos(video_a2b, video_b2a, output_file)`. */
  function Run(inp: Inputs): RunResult
  {
    if !inp.openedA || !inp.openedB then RunResult(Returned([]), Untouched)
    else match Loop(inp, Start)
      case Finished(s) => RunResult(Returned(s.results), Written(s.report))
      case Crashed(s) => RunResult(Raised, Written(s.report))
  }

  /** `process_videos`, step by step, with the two filters as objects. */
  method ProcessVideos(inp: Inputs) returns (outcome: Outcome, file: ReportFile)
    ensures RunResult(outcome, file) == Run(inp)
  {
    var kalmanAngle := new SimpleKalmanFilter(KalmanQ, KalmanR);
    var kalmanMagnitude := new SimpleKalmanFilter(KalmanQ, KalmanR);
    if !inp.openedA || !inp.openedB {
      return Returned([]), Untouched;
    }
    var frameInterval := Trunc(inp.fps / FrameRate);
    var frameCount: nat := 0;
    var prevFrame: Option<Frame> := None;
    var results: seq<Entry> := [];
    var report: seq<Recommendation> := [];
    while true
      invariant frameCount <= Reads(inp)
      invariant kalmanAngle.processNoise == KalmanQ && kalmanAngle.measurementNoise == KalmanR
      invariant kalmanMagnitude.processNoise == KalmanQ && kalmanMagnitude.measurementNoise == KalmanR
      invariant Loop(inp, State(frameCount, prevFrame, kalmanAngle.Snapshot(), kalmanMagnitude.Snapshot(), results, report))
                == Loop(inp, Start)
      decreases Reads(inp) - frameCount
    {
      var successA := frameCount < |inp.framesA|;
      var successB := frameCount < |inp.framesB|;
      if !(successA && successB) {
        break;
      }
      var frameA, frameB := inp.framesA[frameCount], inp.framesB[frameCount];
      if frameInterval == 0 {
        return Raised, Written(report);
      }
      if frameCount % frameInterval != 0 {
        frameCount := frameCount + 1;
        continue;
      }
      ghost var before := State(frameCount, prevFrame, kalmanAngle.Snapshot(), kalmanMagnitude.Snapshot(), results, report);
      var fault := inp.fault(frameCount);
      if fault != InAnalysis {
        var similarity := inp.similarity(frameA, frameB);
        var flow := if prevFrame.None? then NoFlow else inp.flow(prevFrame.value, frameA);
        var raised := false;
        if prevFrame.Some? {
          var filteredAngle := kalmanAngle.Update(flow.angle);
          if filteredAngle.None? {
            raised := true;
          } else {
            var filteredMagnitude := kalmanMagnitude.Update(flow.magnitude);
            if filteredMagnitude.None? {
              raised := true;
            } else {
              flow := Flow(filteredMagnitude.value, filteredAngle.value);
            }
          }
        }
        ghost var smoothed := Smooth(before, RawFlow(inp, before, frameA));
        assert smoothed.state == State(frameCount, prevFrame, kalmanAngle.Snapshot(), kalmanMagnitude.Snapshot(), results, report);
        assert smoothed.raised == raised && (!raised ==> smoothed.flow == flow);
        if !raised && fault != InReport {
          var timestamp := frameCount as real / inp.fps;
          var env := inp.environment(timestamp);
          var horizon := DetectHorizonAngle(frameA.image);
          var command := Synthesize(similarity, flow.angle, flow.magnitude, env, horizon);
          results := results + [Entry(timestamp, similarity, command)];
          if fault != InWrite {
            report := report + [command];
            if fault != AfterWrite {
              prevFrame := Some(frameA);
            }
          }
        }
      }
      assert State(frameCount, prevFrame, kalmanAngle.Snapshot(), kalmanMagnitude.Snapshot(), results, report)
             == ProcessFrame(inp, before, frameA, frameB);
      frameCount := frameCount + 1;
    }
    return Returned(results), Written(report);
  }
}
