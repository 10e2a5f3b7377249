/** `extract_frames` of CutVideo.py: read a video frame by frame until the
    first failed read, and write every `int(fps / frame_rate)`-th frame as
    `frame_{k}.jpg` with consecutive `k`. The capture is an input: its frame
    rate and what each read returns. */
module CutVideo {
  import opened Common

  /** What `cv2.VideoCapture` gives: `CAP_PROP_FPS` and what each
      `cap.read()` returns, `None` for a failed read; every read past the end
      of `attempts` fails. */
  datatype Video<F> = Video(fps: real, attempts: seq<Option<F>>)

  /** The frames read before the first failed read. */
  function Successes<F>(attempts: seq<Option<F>>): (frames: seq<F>)
    ensures |frames| <= |attempts|
    ensures forall k :: 0 <= k < |frames| ==> attempts[k] == Some(frames[k])
    ensures |frames| == |attempts| || attempts[|frames|].None?
    decreases |attempts|
  {
    if attempts == [] || attempts[0].None? then [] else [attempts[0].value] + Successes(attempts[1..])
  }

  /** `cap.read()` for the frame at index `k`. */
  function Read<F>(video: Video<F>, k: nat): Option<F>
  {
    if k < |video.attempts| then video.attempts[k] else None
  }

  /** One `cv2.imwrite` into the output folder. */
  datatype Written<F> = Written(name: string, frame: F)

  /** The files written, and whether `extract_frames` returned or raised
      `ZeroDivisionError` (a zero `frame_rate`, or a zero interval). */
  datatype Extraction<F> = Done(files: seq<Written<F>>) | Raised(files: seq<Written<F>>)

  /** `frame_interval = int(video_fps / frame_rate)`. */
  function Interval(fps: real, frameRate: real): (d: int)
    requires frameRate != 0.0
    ensures fps / frameRate >= 0.0 ==> d >= 0 && d as real <= fps / frameRate < d as real + 1.0
    ensures fps / frameRate < 0.0 ==> d <= 0
  {
    Trunc(fps / frameRate)
  }

  /** The files written while the first `n` reads succeed, for a non-zero
      interval `d`: frame `k` goes out as `frame_{k // d}.jpg` when
      `k % d == 0`. */
  function Sampled<F>(frames: seq<F>, d: int, n: nat): seq<Written<F>>
    requires d != 0 && n <= |frames|
  {
    if n == 0 then []
    else
      var k := n - 1;
      Sampled(frames, d, k) + (if k % d == 0 then [Written(FrameFileName(k / d), frames[k])] else [])
  }

  /** What `extract_frames(video_path, output_folder, frame_rate)` does. A
      zero interval only raises once a read succeeds, because `success and
      ...` does not evaluate the modulo after a failed read. */
  function Extract<F>(video: Video<F>, frameRate: real): Extraction<F>
  {
    if frameRate == 0.0 then Raised([])
    else
      var d := Interval(video.fps, frameRate);
      var frames := Successes(video.attempts);
      if d == 0 then (if frames == [] then Done([]) else Raised([]))
      else Done(Sampled(frames, d, |frames|))
  }

  /** The `while success` loop of `extract_frames`. */
  method ExtractFrames<F(==)>(video: Video<F>, frameRate: real) returns (result: Extraction<F>)
    ensures result == Extract(video, frameRate)
  {
    if frameRate == 0.0 {
      return Raised([]);
    }
    var frameInterval := Trunc(video.fps / frameRate);
    ghost var frames := Successes(video.attempts);
    var files: seq<Written<F>> := [];
    var frameCount := 0;
    var success := true;
    while success
      invariant success ==> frameCount <= |frames|
      invariant !success ==> frameCount == |frames| + 1
      invariant frameInterval == 0 ==> files == [] && (if success then frameCount == 0 else frameCount == 1)
      invariant frameInterval != 0 ==> files == Sampled(frames, frameInterval, if success then frameCount else |frames|)
      decreases |frames| + 1 - frameCount
    {
      var read := Read(video, frameCount);
      success := read.Some?;
      if success {
        var frame := read.value;
        if frameInterval == 0 {
          return Raised(files);
        }
        assert frameCount < |frames| && frame == frames[frameCount];
        if frameCount % frameInterval == 0 {
          files := files + [Written(FrameFileName(frameCount / frameInterval), frame)];
        }
      } else {
        assert frameCount == |frames|;
      }
      frameCount := frameCount + 1;
    }
    return Done(files);
  }

  /** For a positive interval `d` there is one file per multiple of `d` among the frame indices. */
  lemma {:induction false} SampledLength<F>(frames: seq<F>, d: int, n: nat)
    requires d > 0 && n <= |frames|
    ensures |Sampled(frames, d, n)| == CountMultiples(n, d)
  {
    if n > 0 {
      SampledLength(frames, d, n - 1);
    }
  }

  /** The file added for frame `k` of a positive interval is number `k / d`, the next free one. */
  lemma NextFileNumber(k: nat, d: int)
    requires d > 0 && k % d == 0
    ensures CountMultiples(k, d) == k / d
  {
    CountMultiplesFormula(k, d);
    assert k == d * (k / d);
    DivUnique(k + d - 1, d, k / d);
  }

  /** When frame `k` is a multiple of `d`, it becomes the last file, number `k / d`. */
  lemma LastFile<F>(frames: seq<F>, d: int, k: nat)
    requires d > 0 && k < |frames| && k % d == 0
    ensures |Sampled(frames, d, k + 1)| == k / d + 1
    ensures Sampled(frames, d, k + 1)[k / d] == Written(FrameFileName(k / d), frames[k])
  {
    SampledLength(frames, d, k);
    NextFileNumber(k, d);
  }

  /** The quotient of an exact division times the divisor is the dividend. */
  lemma ExactQuotient(k: int, d: int)
    requires d > 0 && k % d == 0
    ensures (k / d) * d == k
  {
    assert k == d * (k / d) + k % d;
  }

  /** For a positive interval `d`, file `j` is `frame_{j}.jpg` and holds frame `j * d`. */
  lemma {:induction false} SampledAt<F>(frames: seq<F>, d: int, n: nat, j: nat)
    requires d > 0 && n <= |frames| && j < |Sampled(frames, d, n)|
    ensures j * d < n && Sampled(frames, d, n)[j] == Written(FrameFileName(j), frames[j * d])
  {
    var k := n - 1;
    var before := Sampled(frames, d, k);
    if j < |before| {
      SampledAt(frames, d, k, j);
      assert Sampled(frames, d, n)[j] == before[j];
    } else {
      assert k % d == 0;
      LastFile(frames, d, k);
      assert j == k / d;
      ExactQuotient(k, d);
    }
  }

  /** For a positive interval `d`, the files are `frame_0.jpg`, `frame_1.jpg`,
      ... with no gaps, and file `j` holds frame `j * d`. */
  lemma SampledFiles<F>(frames: seq<F>, d: int)
    requires d > 0
    ensures var files := Sampled(frames, d, |frames|);
            forall j :: 0 <= j < |files| ==> j * d < |frames| && files[j] == Written(FrameFileName(j), frames[j * d])
  {
    forall j | 0 <= j < |Sampled(frames, d, |frames|)|
      ensures j * d < |frames| && Sampled(frames, d, |frames|)[j] == Written(FrameFileName(j), frames[j * d])
    {
      SampledAt(frames, d, |frames|, j);
    }
  }

  /** For a positive interval `d`, frame `k` with `k % d == 0` is file number `k / d`. */
  lemma SampledHas<F>(frames: seq<F>, d: int, n: nat, k: nat)
    requires d > 0 && k < n <= |frames| && k % d == 0
    ensures k / d < |Sampled(frames, d, n)| && Sampled(frames, d, n)[k / d] == Written(FrameFileName(k / d), frames[k])
  {
    SampledLength(frames, d, n);
    CountMultiplesFormula(n, d);
    QuotientBelow(k, n, d);
    SampledAt(frames, d, n, k / d);
    ExactQuotient(k, d);
  }

  /** A multiple of `d` below `n` has a quotient below ceil(n / d). */
  lemma QuotientBelow(k: nat, n: nat, d: int)
    requires d > 0 && k < n && k % d == 0
    ensures k / d < (n + d - 1) / d
  {
    var q := k / d;
    ExactQuotient(k, d);
    DivUnique(k + d, d, q + 1);
    DivMonotone(k + d, n + d - 1, d);
  }

  /** Integer division by a positive number is monotone. */
  lemma DivMonotone(x: int, y: int, d: int)
    requires d > 0 && x <= y
    ensures x / d <= y / d
  {
    var qx, qy := x / d, y / d;
    assert d * qx <= x && y < d * qy + d;
    assert d * qx - d * qy == d * (qx - qy);
    MulAtLeast(d, qx - qy);
  }

  /** A multiple of `d` leaves no remainder. */
  lemma MultipleRemainder(j: int, d: int)
    requires d > 0
    ensures (j * d) % d == 0
  {
    DivUnique(j * d, d, j);
  }

  /** For a positive interval `d`, frame `k` is written exactly when
      `k % d == 0` (file `j` holds frame `j * d`). */
  lemma SampledFrame<F>(frames: seq<F>, d: int, k: nat)
    requires d > 0 && k < |frames|
    ensures k % d == 0 <==> exists j :: 0 <= j < |Sampled(frames, d, |frames|)| && j * d == k
  {
    var files := Sampled(frames, d, |frames|);
    if k % d == 0 {
      var j := k / d;
      SampledHas(frames, d, |frames|, k);
      ExactQuotient(k, d);
      assert j < |files| && j * d == k;
    } else {
      forall j | 0 <= j < |files| ensures j * d != k {
        MultipleRemainder(j, d);
      }
    }
  }

  /** The number of files written from `n` successful reads is ceil(n / d). */
  lemma SampledCount<F>(frames: seq<F>, d: int)
    requires d > 0
    ensures |Sampled(frames, d, |frames|)| == (|frames| + d - 1) / d
  {
    SampledLength(frames, d, |frames|);
    CountMultiplesFormula(|frames|, d);
  }

  /** No two written files share a name. */
  lemma SampledNamesDistinct<F>(frames: seq<F>, d: int, i: nat, j: nat)
    requires d > 0
    requires i < j < |Sampled(frames, d, |frames|)|
    ensures Sampled(frames, d, |frames|)[i].name != Sampled(frames, d, |frames|)[j].name
  {
    SampledAt(frames, d, |frames|, i);
    SampledAt(frames, d, |frames|, j);
    FrameFileNameInjective(i, j);
  }

  /** A zero `frame_rate` raises before any frame is written; a frame rate
      above the video's (a zero interval) raises at the first successful
      read, also with nothing written. */
  lemma ZeroIntervalWritesNothing<F>(video: Video<F>, frameRate: real)
    requires frameRate == 0.0 || (frameRate > 0.0 && 0.0 <= video.fps < frameRate && Read(video, 0).Some?)
    ensures Extract(video, frameRate) == Raised([])
  {
    if frameRate != 0.0 {
      QuotientBelowOne(video.fps, frameRate);
      assert Interval(video.fps, frameRate) == 0;
      assert Successes(video.attempts) != [];
    }
  }

  /** A non-negative number divided by a larger one is below 1. */
  lemma QuotientBelowOne(a: real, b: real)
    requires 0.0 <= a < b
    ensures 0.0 <= a / b < 1.0
  {
    var q := a / b;
    assert q * b == a;
    if q >= 1.0 {
      assert false;
    }
  }

  /** `int()` truncates: a 29.97 fps video sampled once a second keeps every
      29th frame, and 30 frames give two files. */
  lemma TruncatedInterval()
    ensures Interval(29.97, 1.0) == 29
    ensures forall frames: seq<nat> :: |frames| == 30 ==> |Sampled(frames, 29, 30)| == 2
  {
    forall frames: seq<nat> | |frames| == 30 ensures |Sampled(frames, 29, 30)| == 2 {
      SampledCount(frames, 29);
    }
  }

  /** Reads after the first failed one are never looked at: whatever
      follows a failed read, the result is the same. */
  lemma StopsAtFirstFailure<F>(video: Video<F>, after: seq<Option<F>>, frameRate: real)
    requires forall k :: 0 <= k < |video.attempts| ==> video.attempts[k].Some?
    ensures Extract(Video(video.fps, video.attempts + [None] + after), frameRate) == Extract(video, frameRate)
  {
    assert video.attempts + [None] + after == video.attempts + ([None] + after);
    SuccessesOfPrefix(video.attempts, [None] + after);
  }

  /** Whatever follows a failed read does not change the frames read before it. */
  lemma {:induction false} SuccessesOfPrefix<F>(attempts: seq<Option<F>>, rest: seq<Option<F>>)
    requires forall k :: 0 <= k < |attempts| ==> attempts[k].Some?
    requires rest != [] && rest[0].None?
    ensures Successes(attempts + rest) == Successes(attempts)
    decreases |attempts|
  {
    if attempts == [] {
      assert attempts + rest == rest;
    } else {
      assert (attempts + rest)[1..] == attempts[1..] + rest;
      SuccessesOfPrefix(attempts[1..], rest);
    }
  }
}
