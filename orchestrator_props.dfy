/** What `process_videos` in dp1140.py guarantees about its results, its
    report file and its filters, proved about the model in `Orchestrator`. */
module OrchestratorProperties {
  import opened Common
  import opened Kalman
  import opened Correction
  import opened Horizon
  import opened Orchestrator

  /** No statement of the `try` ever raises. */
  ghost predicate NoFaults(inp: Inputs)
  {
    forall k :: inp.fault(k) == NoFault
  }

  /** The commands of a result list, in order. */
  function CommandsOf(results: seq<Entry>): (cs: seq<Recommendation>)
    ensures |cs| == |results|
    decreases |results|
  {
    if results == [] then [] else CommandsOf(results[..|results| - 1]) + [results[|results| - 1].command]
  }

  lemma CommandsOfAppend(results: seq<Entry>, e: Entry)
    ensures CommandsOf(results + [e]) == CommandsOf(results) + [e.command]
  {
    assert (results + [e])[..|results|] == results;
  }

  /** `t` is the timestamp `k / fps` of a sampled index `k`. */
  predicate SampleAt(inp: Inputs, k: nat, t: real)
    requires Interval(inp) != 0
  {
    k % Interval(inp) == 0 && t == k as real / inp.fps
  }

  /** `t` is the timestamp of a sampled index below `bound`. */
  ghost predicate IsSampleTime(inp: Inputs, bound: nat, t: real)
    requires Interval(inp) != 0
  {
    exists k: nat :: k < bound && SampleAt(inp, k, t)
  }

  predicate StrictlyIncreasing(results: seq<Entry>)
  {
    forall i, j :: 0 <= i < j < |results| ==> results[i].timestamp < results[j].timestamp
  }

  /** What holds of the loop's state at the top of every iteration. */
  ghost predicate Inv(inp: Inputs, s: State)
    requires Interval(inp) != 0
  {
    && s.frameCount <= Reads(inp)
    && s.angleFilter.covariance >= 0.0 && s.magnitudeFilter.covariance >= 0.0
    && (s.prevFrame.None? ==> s.angleFilter == Initial && s.magnitudeFilter == Initial)
    && |s.report| <= |s.results| <= CountMultiples(s.frameCount, Interval(inp))
    && (forall i :: 0 <= i < |s.results| ==> IsSampleTime(inp, s.frameCount, s.results[i].timestamp))
    && (inp.fps > 0.0 ==>
          && StrictlyIncreasing(s.results)
          && forall i :: 0 <= i < |s.results| ==> s.results[i].timestamp < s.frameCount as real / inp.fps)
    && (NoFaults(inp) ==>
          && |s.results| == CountMultiples(s.frameCount, Interval(inp))
          && s.report == CommandsOf(s.results))
  }

  /** With non-negative variances the filter updates of the pipeline never
      raise, the variances stay non-negative, and both filters step exactly
      when a previous frame exists. */
  lemma SmoothNeverRaises(s: State, raw: Flow)
    requires s.angleFilter.covariance >= 0.0 && s.magnitudeFilter.covariance >= 0.0
    ensures var f := Smooth(s, raw);
            && !f.raised
            && f.state.angleFilter.covariance >= 0.0 && f.state.magnitudeFilter.covariance >= 0.0
            && (s.prevFrame.Some? ==>
                  && f.state.angleFilter == Step(s.angleFilter, KalmanQ, KalmanR, raw.angle).value
                  && f.state.magnitudeFilter == Step(s.magnitudeFilter, KalmanQ, KalmanR, raw.magnitude).value
                  && f.flow == Flow(f.state.magnitudeFilter.state, f.state.angleFilter.state))
  {
    if s.prevFrame.Some? {
      StepProperties(s.angleFilter, KalmanQ, KalmanR, raw.angle);
      StepProperties(s.magnitudeFilter, KalmanQ, KalmanR, raw.magnitude);
    }
  }

  /** While there is no previous frame the filters are not touched, and a
      command built in that iteration sees a flow of zeros, hence no yaw. */
  lemma FirstFrameUnfiltered(inp: Inputs, s: State, a: Frame, b: Frame)
    requires Interval(inp) != 0 && s.prevFrame.None?
    ensures var s' := ProcessFrame(inp, s, a, b);
            && s'.angleFilter == s.angleFilter && s'.magnitudeFilter == s.magnitudeFilter
            && (forall i :: |s.results| <= i < |s'.results| ==>
                  && s'.results[i].command.flowAngle == 0.0
                  && s'.results[i].command.flowMagnitude == 0.0
                  && s'.results[i].command.yaw == 0.0)
  {
  }

  /** A sampled frame that raises nowhere is reported in full: one result,
      one block with the same command, and it becomes the previous frame. */
  lemma FullIterationCommits(inp: Inputs, s: State, a: Frame, b: Frame)
    requires Interval(inp) != 0 && inp.fault(s.frameCount) == NoFault
    requires s.angleFilter.covariance >= 0.0 && s.magnitudeFilter.covariance >= 0.0
    ensures var s' := ProcessFrame(inp, s, a, b);
            && s'.prevFrame == Some(a)
            && |s'.results| == |s.results| + 1
            && s'.report == s.report + [s'.results[|s.results|].command]
  {
    SmoothNeverRaises(s, RawFlow(inp, s, a));
  }

  /** A failing file append comes after `results.append` and after both
      filter updates: the result and the filters stay changed, the file gets
      no block, and the previous frame does not move. */
  lemma WriteFailureKeepsResultAndFilters(inp: Inputs, s: State, a: Frame, b: Frame)
    requires Interval(inp) != 0 && inp.fault(s.frameCount) == InWrite
    requires s.angleFilter.covariance >= 0.0 && s.magnitudeFilter.covariance >= 0.0
    ensures var s' := ProcessFrame(inp, s, a, b);
            && |s'.results| == |s.results| + 1
            && s'.report == s.report
            && s'.prevFrame == s.prevFrame
            && (s.prevFrame.Some? ==>
                  && s'.angleFilter == Step(s.angleFilter, KalmanQ, KalmanR, inp.flow(s.prevFrame.value, a).angle).value
                  && s'.magnitudeFilter == Step(s.magnitudeFilter, KalmanQ, KalmanR, inp.flow(s.prevFrame.value, a).magnitude).value)
  {
    SmoothNeverRaises(s, RawFlow(inp, s, a));
  }

  /** A failure while the command is built still leaves both filters
      stepped, with no result, no block and the previous frame unchanged. */
  lemma ReportFailureKeepsFilters(inp: Inputs, s: State, a: Frame, b: Frame)
    requires Interval(inp) != 0 && inp.fault(s.frameCount) == InReport
    requires s.angleFilter.covariance >= 0.0 && s.magnitudeFilter.covariance >= 0.0
    requires s.prevFrame.Some?
    ensures var s' := ProcessFrame(inp, s, a, b);
            && s'.results == s.results && s'.report == s.report && s'.prevFrame == s.prevFrame
            && s'.angleFilter == Step(s.angleFilter, KalmanQ, KalmanR, inp.flow(s.prevFrame.value, a).angle).value
            && s'.magnitudeFilter == Step(s.magnitudeFilter, KalmanQ, KalmanR, inp.flow(s.prevFrame.value, a).magnitude).value
  {
    SmoothNeverRaises(s, RawFlow(inp, s, a));
  }

  /** A failure before the filters leaves the whole state as it was. */
  lemma AnalysisFailureChangesNothing(inp: Inputs, s: State, a: Frame, b: Frame)
    requires Interval(inp) != 0 && inp.fault(s.frameCount) == InAnalysis
    ensures ProcessFrame(inp, s, a, b) == s
  {
  }

  lemma SampleTimeWiden(inp: Inputs, bound: nat, bound': nat, t: real)
    requires Interval(inp) != 0 && bound <= bound'
    requires IsSampleTime(inp, bound, t)
    ensures IsSampleTime(inp, bound', t)
  {
    var k: nat :| k < bound && SampleAt(inp, k, t);
    assert k < bound' && SampleAt(inp, k, t);
  }

  lemma DivideIncreasing(j: nat, k: nat, fps: real)
    requires fps > 0.0 && j < k
    ensures j as real / fps < k as real / fps
  {
    assert k as real / fps - j as real / fps == (k - j) as real / fps;
  }

  /** An index that is skipped keeps the invariant. */
  lemma SkipPreserves(inp: Inputs, s: State)
    requires Interval(inp) != 0 && Inv(inp, s) && s.frameCount < Reads(inp)
    requires s.frameCount % Interval(inp) != 0
    ensures Inv(inp, s.(frameCount := s.frameCount + 1))
  {
    var s' := s.(frameCount := s.frameCount + 1);
    forall i | 0 <= i < |s.results| ensures IsSampleTime(inp, s'.frameCount, s.results[i].timestamp) {
      SampleTimeWiden(inp, s.frameCount, s'.frameCount, s.results[i].timestamp);
    }
    if inp.fps > 0.0 {
      DivideIncreasing(s.frameCount, s'.frameCount, inp.fps);
    }
  }

  /** The invariant survives any successor of a sampled index that grows
      the result list and the report at most by this index's entry. */
  lemma GrowthPreserves(inp: Inputs, s: State, s': State)
    requires Interval(inp) != 0 && Inv(inp, s) && s.frameCount < Reads(inp)
    requires s.frameCount % Interval(inp) == 0 && s'.frameCount == s.frameCount + 1
    requires s'.angleFilter.covariance >= 0.0 && s'.magnitudeFilter.covariance >= 0.0
    requires s'.prevFrame.None? ==> s'.angleFilter == Initial && s'.magnitudeFilter == Initial
    requires s'.results == s.results ||
             (&& |s'.results| == |s.results| + 1
              && s'.results[..|s.results|] == s.results
              && s'.results[|s.results|].timestamp == s.frameCount as real / inp.fps)
    requires s'.report == s.report ||
             (&& |s'.results| == |s.results| + 1
              && s'.report == s.report + [s'.results[|s.results|].command])
    requires NoFaults(inp) ==>
               && |s'.results| == |s.results| + 1
               && s'.report == s.report + [s'.results[|s.results|].command]
    ensures Inv(inp, s')
  {
    var k := s.frameCount;
    var n := |s.results|;
    assert CountMultiples(k + 1, Interval(inp)) == CountMultiples(k, Interval(inp)) + 1;
    assert SampleAt(inp, k, k as real / inp.fps);
    forall i | 0 <= i < |s'.results| ensures IsSampleTime(inp, k + 1, s'.results[i].timestamp) {
      if i < n {
        assert s'.results[i] == s'.results[..n][i] == s.results[i];
        SampleTimeWiden(inp, k, k + 1, s.results[i].timestamp);
      }
    }
    if inp.fps > 0.0 {
      DivideIncreasing(k, k + 1, inp.fps);
      forall i | 0 <= i < |s'.results| ensures s'.results[i].timestamp < (k + 1) as real / inp.fps {
        if i < n {
          assert s'.results[i] == s'.results[..n][i] == s.results[i];
        }
      }
      forall i, j | 0 <= i < j < |s'.results| ensures s'.results[i].timestamp < s'.results[j].timestamp {
        if j < n {
          assert s'.results[i] == s'.results[..n][i] == s.results[i];
          assert s'.results[j] == s'.results[..n][j] == s.results[j];
        } else {
          assert s'.results[i] == s'.results[..n][i] == s.results[i];
        }
      }
    }
    if NoFaults(inp) {
      assert s'.results == s.results + [s'.results[n]];
      CommandsOfAppend(s.results, s'.results[n]);
    }
  }

  /** A sampled index keeps the invariant. */
  lemma SamplePreserves(inp: Inputs, s: State)
    requires Interval(inp) != 0 && Inv(inp, s) && s.frameCount < Reads(inp)
    requires s.frameCount % Interval(inp) == 0
    ensures Inv(inp, ProcessFrame(inp, s, inp.framesA[s.frameCount], inp.framesB[s.frameCount]).(frameCount := s.frameCount + 1))
  {
    var k := s.frameCount;
    var a, b := inp.framesA[k], inp.framesB[k];
    var p := ProcessFrame(inp, s, a, b);
    SmoothNeverRaises(s, RawFlow(inp, s, a));
    if s.prevFrame.None? {
      FirstFrameUnfiltered(inp, s, a, b);
    }
    if NoFaults(inp) {
      FullIterationCommits(inp, s, a, b);
    }
    GrowthPreserves(inp, s, p.(frameCount := k + 1));
  }

  /** From any state satisfying the invariant the loop reads to the end of
      the shorter stream and the invariant holds at its end. */
  lemma {:induction false} LoopPreserves(inp: Inputs, s: State)
    requires Interval(inp) != 0 && Inv(inp, s)
    ensures Loop(inp, s).Finished?
    ensures Loop(inp, s).state.frameCount == Reads(inp)
    ensures Inv(inp, Loop(inp, s).state)
    decreases Reads(inp) - s.frameCount
  {
    if s.frameCount < Reads(inp) {
      if s.frameCount % Interval(inp) != 0 {
        SkipPreserves(inp, s);
        LoopPreserves(inp, s.(frameCount := s.frameCount + 1));
      } else {
        SamplePreserves(inp, s);
        var p := ProcessFrame(inp, s, inp.framesA[s.frameCount], inp.framesB[s.frameCount]);
        LoopPreserves(inp, p.(frameCount := s.frameCount + 1));
      }
    }
  }

  /** If either stream fails to open the run returns `[]` and does not touch the file. */
  lemma OpenFailureReturnsEmpty(inp: Inputs)
    requires !inp.openedA || !inp.openedB
    ensures Run(inp) == RunResult(Returned([]), Untouched)
  {
  }

  /** An interval of 0 (fps below FRAME_RATE) raises at the modulo of the
      first successful read, after the header was written; with no
      successful read the loop ends first and the run returns `[]`. */
  lemma ZeroIntervalRaises(inp: Inputs)
    requires inp.openedA && inp.openedB && Interval(inp) == 0
    ensures Reads(inp) > 0 ==> Run(inp) == RunResult(Raised, Written([]))
    ensures Reads(inp) == 0 ==> Run(inp) == RunResult(Returned([]), Written([]))
  {
  }

  /** The interval is truncated: 29.97 fps samples every 29th frame, 0.5 fps never works. */
  lemma IntervalTruncates(inp: Inputs)
    ensures inp.fps == 29.97 ==> Interval(inp) == 29
    ensures inp.fps == 0.5 ==> Interval(inp) == 0
  {
  }

  /** A fault that leaves `results.append` done: none, or one in the file append or after it. */
  predicate Keeps(f: Fault)
  {
    f != InAnalysis && f != InReport
  }

  /** A fault that leaves the block written: none, or one after the file append. */
  predicate Logs(f: Fault)
  {
    f == NoFault || f == AfterWrite
  }

  /** The sampled indices below `n` whose fault satisfies `pick`, in increasing order. */
  function Sampled(inp: Inputs, n: nat, pick: Fault -> bool): (ks: seq<nat>)
    requires Interval(inp) != 0
    ensures forall k: nat :: k in ks <==> k < n && k % Interval(inp) == 0 && pick(inp.fault(k))
    ensures forall i :: 0 <= i < |ks| ==> ks[i] < n
    ensures forall i, j :: 0 <= i < j < |ks| ==> ks[i] < ks[j]
  {
    if n == 0 then []
    else
      var ks := Sampled(inp, n - 1, pick);
      if (n - 1) % Interval(inp) == 0 && pick(inp.fault(n - 1)) then ks + [n - 1] else ks
  }

  /** The results whose sampled index `ks[j]` has its block written. */
  function Selected(inp: Inputs, results: seq<Entry>, ks: seq<nat>): seq<Entry>
    requires |results| == |ks|
    decreases |results|
  {
    if results == [] then []
    else
      var rest := Selected(inp, results[..|results| - 1], ks[..|ks| - 1]);
      if Logs(inp.fault(ks[|ks| - 1])) then rest + [results[|results| - 1]] else rest
  }

  /** The results belong one to one, in order, to the indices `ks`, and the
      report holds the commands of those whose block was written, as many as
      the indices `logged`. */
  predicate Follows(inp: Inputs, results: seq<Entry>, report: seq<Recommendation>, ks: seq<nat>, logged: seq<nat>)
    requires inp.fps != 0.0
  {
    && |results| == |ks|
    && (forall j :: 0 <= j < |ks| ==> results[j].timestamp == ks[j] as real / inp.fps)
    && report == CommandsOf(Selected(inp, results, ks))
    && |report| == |logged|
  }

  /** Which sampled indices left a result and a block, by fault. */
  ghost predicate FaultInv(inp: Inputs, s: State)
    requires Interval(inp) != 0
  {
    Follows(inp, s.results, s.report, Sampled(inp, s.frameCount, Keeps), Sampled(inp, s.frameCount, Logs))
  }

  /** What a sampled frame pair adds, by the kind of fault it meets. */
  lemma FaultEffect(inp: Inputs, s: State, a: Frame, b: Frame)
    requires Interval(inp) != 0
    requires s.angleFilter.covariance >= 0.0 && s.magnitudeFilter.covariance >= 0.0
    ensures var s' := ProcessFrame(inp, s, a, b);
            var f := inp.fault(s.frameCount);
            && (Keeps(f) ==> |s'.results| == |s.results| + 1)
            && (!Keeps(f) ==> s'.results == s.results)
            && (Logs(f) ==> s'.report == s.report + [s'.results[|s.results|].command])
            && (!Logs(f) ==> s'.report == s.report)
  {
    SmoothNeverRaises(s, RawFlow(inp, s, a));
  }

  /** The entry a sampled pair records: its timestamp, the similarity of the
      pair, and the command built from that similarity, the smoothed flow,
      the environment at that time and the horizon of frame `a`; with a
      previous frame, the flow in the command is the two filters' new states. */
  lemma RecordedEntry(inp: Inputs, s: State, a: Frame, b: Frame)
    requires Interval(inp) != 0 && Keeps(inp.fault(s.frameCount))
    requires s.angleFilter.covariance >= 0.0 && s.magnitudeFilter.covariance >= 0.0
    ensures var s' := ProcessFrame(inp, s, a, b);
            var f := Smooth(s, RawFlow(inp, s, a));
            var ts := s.frameCount as real / inp.fps;
            var similarity := inp.similarity(a, b);
            && |s'.results| == |s.results| + 1
            && s'.results[|s.results|]
               == Entry(ts, similarity, Synthesize(similarity, f.flow.angle, f.flow.magnitude,
                                                   inp.environment(ts), HorizonAngle(a.image)))
            && (s.prevFrame.Some? ==>
                  && s'.results[|s.results|].command.flowAngle == s'.angleFilter.state
                  && s'.results[|s.results|].command.flowMagnitude == s'.magnitudeFilter.state)
  {
    SmoothNeverRaises(s, RawFlow(inp, s, a));
  }

  lemma SkipKeepsFaultInv(inp: Inputs, s: State)
    requires Interval(inp) != 0 && FaultInv(inp, s)
    requires s.frameCount % Interval(inp) != 0
    ensures FaultInv(inp, s.(frameCount := s.frameCount + 1))
  {
    var k := s.frameCount;
    assert Sampled(inp, k + 1, Keeps) == Sampled(inp, k, Keeps);
    assert Sampled(inp, k + 1, Logs) == Sampled(inp, k, Logs);
  }

  /** A sampled index whose fault comes before `results.append` adds nothing. */
  lemma DroppedKeepsFaultInv(inp: Inputs, s: State, s': State)
    requires Interval(inp) != 0 && FaultInv(inp, s)
    requires s.frameCount % Interval(inp) == 0 && !Keeps(inp.fault(s.frameCount))
    requires s'.frameCount == s.frameCount + 1 && s'.results == s.results && s'.report == s.report
    ensures FaultInv(inp, s')
  {
    var k := s.frameCount;
    assert Sampled(inp, k + 1, Keeps) == Sampled(inp, k, Keeps);
    assert Sampled(inp, k + 1, Logs) == Sampled(inp, k, Logs);
  }

  lemma SelectedAppend(inp: Inputs, results: seq<Entry>, ks: seq<nat>, e: Entry, k: nat)
    requires |results| == |ks|
    ensures Selected(inp, results + [e], ks + [k])
            == Selected(inp, results, ks) + (if Logs(inp.fault(k)) then [e] else [])
  {
    assert (results + [e])[..|results|] == results;
    assert (ks + [k])[..|ks|] == ks;
  }

  /** One more kept index, with its result and, when it was written, its block. */
  lemma FollowsAppend(inp: Inputs, results: seq<Entry>, report: seq<Recommendation>, ks: seq<nat>, logged: seq<nat>,
                      e: Entry, k: nat)
    requires inp.fps != 0.0
    requires Follows(inp, results, report, ks, logged) && e.timestamp == k as real / inp.fps
    ensures Logs(inp.fault(k)) ==> Follows(inp, results + [e], report + [e.command], ks + [k], logged + [k])
    ensures !Logs(inp.fault(k)) ==> Follows(inp, results + [e], report, ks + [k], logged)
  {
    SelectedAppend(inp, results, ks, e, k);
    if Logs(inp.fault(k)) {
      CommandsOfAppend(Selected(inp, results, ks), e);
    }
  }

  /** A sampled index past `results.append` adds one result, and its block when that was written. */
  lemma KeptKeepsFaultInv(inp: Inputs, s: State, s': State, e: Entry)
    requires Interval(inp) != 0 && FaultInv(inp, s)
    requires s.frameCount % Interval(inp) == 0 && Keeps(inp.fault(s.frameCount))
    requires s'.frameCount == s.frameCount + 1 && s'.results == s.results + [e]
    requires e.timestamp == s.frameCount as real / inp.fps
    requires Logs(inp.fault(s.frameCount)) ==> s'.report == s.report + [e.command]
    requires !Logs(inp.fault(s.frameCount)) ==> s'.report == s.report
    ensures FaultInv(inp, s')
  {
    var k := s.frameCount;
    var ks, logged := Sampled(inp, k, Keeps), Sampled(inp, k, Logs);
    assert Sampled(inp, k + 1, Keeps) == ks + [k];
    assert Sampled(inp, k + 1, Logs) == if Logs(inp.fault(k)) then logged + [k] else logged;
    FollowsAppend(inp, s.results, s.report, ks, logged, e, k);
  }

  lemma SampleKeepsFaultInv(inp: Inputs, s: State, a: Frame, b: Frame)
    requires Interval(inp) != 0 && FaultInv(inp, s)
    requires s.angleFilter.covariance >= 0.0 && s.magnitudeFilter.covariance >= 0.0
    requires s.frameCount % Interval(inp) == 0
    ensures FaultInv(inp, ProcessFrame(inp, s, a, b).(frameCount := s.frameCount + 1))
  {
    var p := ProcessFrame(inp, s, a, b);
    FaultEffect(inp, s, a, b);
    if Keeps(inp.fault(s.frameCount)) {
      var e := p.results[|s.results|];
      assert p.results == s.results + [e];
      KeptKeepsFaultInv(inp, s, p.(frameCount := s.frameCount + 1), e);
    } else {
      DroppedKeepsFaultInv(inp, s, p.(frameCount := s.frameCount + 1));
    }
  }

  /** The state at the top of the next iteration. */
  function Advance(inp: Inputs, s: State): State
    requires Interval(inp) != 0 && s.frameCount < Reads(inp)
  {
    var k := s.frameCount;
    if k % Interval(inp) != 0 then s.(frameCount := k + 1)
    else ProcessFrame(inp, s, inp.framesA[k], inp.framesB[k]).(frameCount := k + 1)
  }

  /** One iteration keeps both invariants. */
  lemma AdvanceKeepsInvariants(inp: Inputs, s: State)
    requires Interval(inp) != 0 && s.frameCount < Reads(inp) && Inv(inp, s) && FaultInv(inp, s)
    ensures Loop(inp, s) == Loop(inp, Advance(inp, s))
    ensures Advance(inp, s).frameCount == s.frameCount + 1
    ensures Inv(inp, Advance(inp, s)) && FaultInv(inp, Advance(inp, s))
  {
    var k := s.frameCount;
    if k % Interval(inp) != 0 {
      SkipPreserves(inp, s);
      SkipKeepsFaultInv(inp, s);
    } else {
      SamplePreserves(inp, s);
      SampleKeepsFaultInv(inp, s, inp.framesA[k], inp.framesB[k]);
    }
  }

  /** From a state satisfying both invariants the loop ends in one satisfying `FaultInv`. */
  lemma {:induction false} LoopKeepsFaultInv(inp: Inputs, s: State)
    requires Interval(inp) != 0 && Inv(inp, s) && FaultInv(inp, s)
    ensures Loop(inp, s).Finished? && FaultInv(inp, Loop(inp, s).state)
    decreases Reads(inp) - s.frameCount
  {
    if s.frameCount < Reads(inp) {
      AdvanceKeepsInvariants(inp, s);
      LoopKeepsFaultInv(inp, Advance(inp, s));
    }
  }

  /** With a usable interval the run returns normally; every result carries
      the timestamp of a sampled index of a lock-stepped read; there are at
      most as many results as sampled indices and at most as many report
      blocks as results; and with a positive frame rate the timestamps
      strictly increase. */
  lemma RunSamplesAndOrders(inp: Inputs)
    requires inp.openedA && inp.openedB && Interval(inp) != 0
    ensures Run(inp).outcome.Returned? && Run(inp).file.Written?
    ensures var results := Run(inp).outcome.results;
            && |Run(inp).file.blocks| <= |results| <= CountMultiples(Reads(inp), Interval(inp))
            && (forall i :: 0 <= i < |results| ==> IsSampleTime(inp, Reads(inp), results[i].timestamp))
            && (inp.fps > 0.0 ==> StrictlyIncreasing(results))
    ensures var results, ks := Run(inp).outcome.results, Sampled(inp, Reads(inp), Keeps);
            && |results| == |ks|
            && (forall j :: 0 <= j < |ks| ==> results[j].timestamp == ks[j] as real / inp.fps)
            && Run(inp).file.blocks == CommandsOf(Selected(inp, results, ks))
            && |Run(inp).file.blocks| == |Sampled(inp, Reads(inp), Logs)|
  {
    StartInv(inp);
    LoopPreserves(inp, Start);
    LoopKeepsFaultInv(inp, Start);
  }

  /** When nothing raises, every sampled index gives one result and one
      report block, in the same order: one of each per multiple of the
      interval below the number of reads, which is ceil(reads / interval)
      by `CountMultiplesFormula`. */
  lemma RunWithoutFaults(inp: Inputs)
    requires inp.openedA && inp.openedB && Interval(inp) > 0 && NoFaults(inp)
    ensures Run(inp).outcome.Returned? && Run(inp).file.Written?
    ensures |Run(inp).outcome.results| == CountMultiples(Reads(inp), Interval(inp))
    ensures Run(inp).file.blocks == CommandsOf(Run(inp).outcome.results)
  {
    StartInv(inp);
    LoopPreserves(inp, Start);
    RunOfFinished(inp);
    InvWithoutFaults(inp, Loop(inp, Start).state);
  }

  /** When the loop finishes, the run returns its results and writes its report. */
  lemma RunOfFinished(inp: Inputs)
    requires inp.openedA && inp.openedB && Loop(inp, Start).Finished?
    ensures Run(inp) == RunResult(Returned(Loop(inp, Start).state.results), Written(Loop(inp, Start).state.report))
  {
  }

  lemma InvWithoutFaults(inp: Inputs, s: State)
    requires Interval(inp) != 0 && Inv(inp, s) && NoFaults(inp)
    ensures |s.results| == CountMultiples(s.frameCount, Interval(inp)) && s.report == CommandsOf(s.results)
  {
  }

  /** The loop starts in a state that satisfies the invariant. */
  lemma StartInv(inp: Inputs)
    requires Interval(inp) != 0
    ensures Inv(inp, Start)
  {
  }
}
