/** The candidate filter and median of `detect_horizon_angle` in dp1140.py.
    Edge and line detection and the `arctan2` angle of each line are
    external: a frame carries what the detector would report for it. */
module Horizon {
  import opened Common

  /** One detected line segment: `x2 - x1` and its angle in degrees. */
  datatype Candidate = Candidate(dx: int, angle: real)

  /** What the detector yields for a frame: an exception, no lines at all, or line candidates. */
  datatype Detection = DetectorError | NoLines | Lines(candidates: seq<Candidate>)

  /** The frame handed to the estimator: None, an image of size 0, or an image. */
  datatype Image = NoImage | EmptyImage | Picture(detection: Detection)

  /** A candidate is kept when it is not near-vertical (|dx| >= 20) and its
      angle is below 30 degrees in magnitude. */
  predicate Survives(c: Candidate)
  {
    AbsInt(c.dx) >= 20 && AbsReal(c.angle) < 30.0
  }

  /** The angles of the surviving candidates, in detection order. */
  function Survivors(cs: seq<Candidate>): (angles: seq<real>)
    ensures |angles| <= |cs|
    ensures forall i :: 0 <= i < |angles| ==> -30.0 < angles[i] < 30.0
    decreases |cs|
  {
    if cs == [] then []
    else
      var last := cs[|cs| - 1];
      Survivors(cs[..|cs| - 1]) + (if Survives(last) then [last.angle] else [])
  }

  /** The indices of the surviving candidates with angle `x`. */
  ghost function CarriersOf(cs: seq<Candidate>, x: real): set<int>
  {
    set i | 0 <= i < |cs| && Survives(cs[i]) && cs[i].angle == x
  }

  lemma CarriersStep(cs: seq<Candidate>, x: real)
    requires cs != []
    ensures var n := |cs| - 1;
            |CarriersOf(cs, x)| == |CarriersOf(cs[..n], x)| + (if Survives(cs[n]) && cs[n].angle == x then 1 else 0)
  {
    var n := |cs| - 1;
    var before, after := CarriersOf(cs[..n], x), CarriersOf(cs, x);
    assert n !in before;
    if Survives(cs[n]) && cs[n].angle == x {
      assert after == before + {n};
    } else {
      assert after == before;
    }
  }

  /** Each angle occurs among the survivors as often as surviving candidates carry it. */
  lemma {:induction false} SurvivorsCount(cs: seq<Candidate>, x: real)
    ensures multiset(Survivors(cs))[x] == |CarriersOf(cs, x)|
    decreases |cs|
  {
    if cs == [] {
      assert CarriersOf(cs, x) == {};
    } else {
      var n := |cs| - 1;
      SurvivorsCount(cs[..n], x);
      CarriersStep(cs, x);
    }
  }

  /** An angle is among the survivors exactly when some surviving candidate has it. */
  lemma {:induction false} SurvivorsMembers(cs: seq<Candidate>, x: real)
    ensures x in Survivors(cs) <==> exists i :: 0 <= i < |cs| && Survives(cs[i]) && cs[i].angle == x
    decreases |cs|
  {
    if cs != [] {
      var init := cs[..|cs| - 1];
      SurvivorsMembers(init, x);
      if x in Survivors(init) {
        var i :| 0 <= i < |init| && Survives(init[i]) && init[i].angle == x;
        assert cs[i] == init[i];
      }
      if exists i :: 0 <= i < |cs| && Survives(cs[i]) && cs[i].angle == x {
        var i :| 0 <= i < |cs| && Survives(cs[i]) && cs[i].angle == x;
        if i < |cs| - 1 {
          assert init[i] == cs[i];
        }
      }
    }
  }

  predicate Sorted(s: seq<real>)
  {
    forall i, j :: 0 <= i < j < |s| ==> s[i] <= s[j]
  }

  /** Inserts `x` into a sorted sequence. */
  function Insert(x: real, s: seq<real>): (r: seq<real>)
    requires Sorted(s)
    ensures Sorted(r) && multiset(r) == multiset(s) + multiset{x}
    decreases |s|
  {
    if s == [] || x <= s[0] then
      InsertFront(x, s);
      [x] + s
    else
      var rest := Insert(x, s[1..]);
      InsertBehind(x, s, rest);
      [s[0]] + rest
  }

  lemma InsertFront(x: real, s: seq<real>)
    requires Sorted(s) && (s == [] || x <= s[0])
    ensures Sorted([x] + s) && multiset([x] + s) == multiset(s) + multiset{x}
  {
  }

  lemma InsertBehind(x: real, s: seq<real>, rest: seq<real>)
    requires Sorted(s) && s != [] && s[0] < x
    requires Sorted(rest) && multiset(rest) == multiset(s[1..]) + multiset{x}
    ensures Sorted([s[0]] + rest) && multiset([s[0]] + rest) == multiset(s) + multiset{x}
  {
    assert s == [s[0]] + s[1..];
    forall k | 0 <= k < |rest| ensures s[0] <= rest[k] {
      assert rest[k] in multiset(rest);
      if rest[k] != x {
        assert rest[k] in multiset(s[1..]);
        var j :| 0 <= j < |s[1..]| && s[1..][j] == rest[k];
        assert s[j + 1] == rest[k];
      }
    }
  }

  /** The values of `s` in ascending order (the ordering `np.median` works on). */
  function SortValues(s: seq<real>): (r: seq<real>)
    ensures Sorted(r) && multiset(r) == multiset(s)
    decreases |s|
  {
    if s == [] then []
    else
      assert s == [s[0]] + s[1..];
      Insert(s[0], SortValues(s[1..]))
  }

  /** `np.median`: the middle value, or the mean of the two middle values. */
  function Median(s: seq<real>): real
    requires |s| > 0
  {
    var t := SortValues(s);
    var n := |t|;
    if n % 2 == 1 then t[n / 2] else (t[n / 2 - 1] + t[n / 2]) / 2.0
  }

  /** The median of values that all lie in (lo, hi) lies in (lo, hi) too. */
  lemma MedianWithin(s: seq<real>, lo: real, hi: real)
    requires |s| > 0
    requires forall i :: 0 <= i < |s| ==> lo < s[i] < hi
    ensures lo < Median(s) < hi
  {
    var t := SortValues(s);
    forall k | 0 <= k < |t| ensures lo < t[k] < hi {
      assert t[k] in multiset(t);
      assert t[k] in multiset(s);
    }
  }

  /** `detect_horizon_angle(image)` as a value. */
  function HorizonAngle(image: Image): (a: real)
    ensures -30.0 < a < 30.0
  {
    match image
    case NoImage => 0.0
    case EmptyImage => 0.0
    case Picture(DetectorError) => 0.0
    case Picture(NoLines) => 0.0
    case Picture(Lines(cs)) =>
      var angles := Survivors(cs);
      if angles == [] then 0.0
      else
        MedianWithin(angles, -30.0, 30.0);
        Median(angles)
  }

  /** The horizon is level (0.0) without an image, without lines, on a
      detector failure, and when every candidate is filtered out. */
  lemma HorizonZeroCases(image: Image)
    ensures image == NoImage || image == EmptyImage ==> HorizonAngle(image) == 0.0
    ensures image == Picture(DetectorError) || image == Picture(NoLines) ==> HorizonAngle(image) == 0.0
    ensures image.Picture? && image.detection.Lines? &&
            (forall i :: 0 <= i < |image.detection.candidates| ==> !Survives(image.detection.candidates[i])) ==>
              HorizonAngle(image) == 0.0
    ensures image.Picture? && image.detection.Lines? && Survivors(image.detection.candidates) != [] ==>
              HorizonAngle(image) == Median(Survivors(image.detection.candidates))
  {
    if image.Picture? && image.detection.Lines? {
      var cs := image.detection.candidates;
      if forall i :: 0 <= i < |cs| ==> !Survives(cs[i]) {
        if Survivors(cs) != [] {
          SurvivorsMembers(cs, Survivors(cs)[0]);
        }
      }
    }
  }

  /** A line at exactly 30 degrees or a near-vertical one does not count. */
  lemma BoundaryCandidatesDiscarded()
    ensures HorizonAngle(Picture(Lines([Candidate(100, 30.0)]))) == 0.0
    ensures HorizonAngle(Picture(Lines([Candidate(19, 5.0)]))) == 0.0
  {
    assert Survivors([Candidate(100, 30.0)]) == [] by {
      assert [Candidate(100, 30.0)][..0] == [];
    }
    assert Survivors([Candidate(19, 5.0)]) == [] by {
      assert [Candidate(19, 5.0)][..0] == [];
    }
  }

  /** Two values are put in order. */
  lemma SortTwoValues(a: real, b: real)
    ensures SortValues([a, b]) == if a <= b then [a, b] else [b, a]
  {
    assert [a, b][1..] == [b];
    assert SortValues([b]) == [b] by {
      assert [b][1..] == [];
    }
    if b < a {
      assert [b][1..] == [];
    }
  }

  /** The median of two values is their mean, in either order. */
  lemma MedianOfTwo(a: real, b: real)
    ensures Median([a, b]) == (a + b) / 2.0
  {
    SortTwoValues(a, b);
  }

  /** `detect_horizon_angle`: the early returns, then the candidate loop
      building `angles`, then the median. */
  method DetectHorizonAngle(image: Image) returns (angle: real)
    ensures angle == HorizonAngle(image)
  {
    if image == NoImage || image == EmptyImage {
      return 0.0;
    }
    if image.detection == DetectorError || image.detection == NoLines {
      return 0.0;
    }
    var lines := image.detection.candidates;
    var angles: seq<real> := [];
    for i := 0 to |lines|
      invariant angles == Survivors(lines[..i])
    {
      assert lines[..i + 1][..i] == lines[..i];
      var line := lines[i];
      if AbsInt(line.dx) < 20 {
        continue;
      }
      if AbsReal(line.angle) < 30.0 {
        angles := angles + [line.angle];
      }
    }
    assert lines[..|lines|] == lines;
    if angles == [] {
      return 0.0;
    }
    return Median(angles);
  }
}
