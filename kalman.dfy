/** The scalar recursive filter `SimpleKalmanFilter` of dp1140.py: a static
    identity process model, one estimate and one variance. */
module Kalman {
  import opened Common

  /** KALMAN_Q and KALMAN_R, the noises both pipeline filters are built with. */
  const KalmanQ: real := 0.01
  const KalmanR: real := 0.1

  /** The mutable part of a filter: its estimate and its variance. */
  datatype Estimate = Estimate(state: real, covariance: real)

  /** A new filter starts at state 0.0 with covariance 1.0. */
  const Initial: Estimate := Estimate(0.0, 1.0)

  /** The noises the filter's invariants need: both positive, variance non-negative. */
  predicate Sane(e: Estimate, q: real, r: real)
  {
    q > 0.0 && r > 0.0 && e.covariance >= 0.0
  }

  /** The gain `p / (p + R)` with the predicted variance `p = covariance + Q`. */
  function Gain(e: Estimate, q: real, r: real): (k: real)
    requires e.covariance + q + r != 0.0
    ensures Sane(e, q, r) ==> 0.0 < k < 1.0
  {
    var p := e.covariance + q;
    assert Sane(e, q, r) ==> p > 0.0 && p < p + r;
    p / (p + r)
  }

  /** One `update(measurement)`; None where `p + R` is zero, the point at
      which Python raises ZeroDivisionError before touching the fields. */
  function Step(e: Estimate, q: real, r: real, m: real): Option<Estimate>
  {
    if e.covariance + q + r == 0.0 then None
    else
      var k := Gain(e, q, r);
      Some(Estimate(e.state + k * (m - e.state), (1.0 - k) * (e.covariance + q)))
  }

  /** The measurements fed to a filter one after the other; None once an update raises. */
  function Updates(e: Estimate, q: real, r: real, ms: seq<real>): Option<Estimate>
    decreases |ms|
  {
    if ms == [] then Some(e)
    else match Step(e, q, r, ms[0])
      case None => None
      case Some(e1) => Updates(e1, q, r, ms[1..])
  }

  /** With positive noises an update never raises; the new variance is
      non-negative, below the predicted variance and below R; the new state
      lies between the old state and the measurement and is no farther from it. */
  lemma StepProperties(e: Estimate, q: real, r: real, m: real)
    requires Sane(e, q, r)
    ensures Step(e, q, r, m).Some?
    ensures var e1 := Step(e, q, r, m).value;
            && 0.0 <= e1.covariance < e.covariance + q
            && e1.covariance < r
            && (e.state <= m ==> e.state <= e1.state <= m)
            && (m <= e.state ==> m <= e1.state <= e.state)
            && AbsReal(e1.state - m) <= AbsReal(e.state - m)
  {
    var p := e.covariance + q;
    var k := Gain(e, q, r);
    var e1 := Step(e, q, r, m).value;
    assert k * (p + r) == p;
    assert (1.0 - k) * p == r * k by {
      assert (1.0 - k) * p == p - k * p;
      assert k * (p + r) == k * p + k * r;
    }
    assert e1.covariance == (1.0 - k) * p;
    assert 0.0 < (1.0 - k) * p < p;
    assert r * k < r;
    assert e1.state - m == (1.0 - k) * (e.state - m);
    if e.state <= m {
      assert k * (m - e.state) <= m - e.state;
    } else {
      assert k * (e.state - m) <= e.state - m;
    }
  }

  /** Feeding the same measurement `m` again and again never increases the
      distance of the estimate from `m`, and the variance stays non-negative. */
  lemma {:induction false} ConstantMeasurementsApproach(e: Estimate, q: real, r: real, m: real, ms: seq<real>)
    requires Sane(e, q, r)
    requires forall i :: 0 <= i < |ms| ==> ms[i] == m
    ensures Updates(e, q, r, ms).Some?
    ensures AbsReal(Updates(e, q, r, ms).value.state - m) <= AbsReal(e.state - m)
    ensures Updates(e, q, r, ms).value.covariance >= 0.0
    decreases |ms|
  {
    if ms != [] {
      StepProperties(e, q, r, m);
      var e1 := Step(e, q, r, m).value;
      ConstantMeasurementsApproach(e1, q, r, m, ms[1..]);
    }
  }

  /** If the estimate and every measurement lie in [lo, hi], so does every later estimate. */
  lemma {:induction false} UpdatesStayInInterval(e: Estimate, q: real, r: real, ms: seq<real>, lo: real, hi: real)
    requires Sane(e, q, r) && lo <= e.state <= hi
    requires forall i :: 0 <= i < |ms| ==> lo <= ms[i] <= hi
    ensures Updates(e, q, r, ms).Some?
    ensures lo <= Updates(e, q, r, ms).value.state <= hi
    ensures Updates(e, q, r, ms).value.covariance >= 0.0
    decreases |ms|
  {
    if ms != [] {
      StepProperties(e, q, r, ms[0]);
      var e1 := Step(e, q, r, ms[0]).value;
      UpdatesStayInInterval(e1, q, r, ms[1..], lo, hi);
    }
  }

  /** A fresh filter fed measurements from an interval around 0 stays in that interval. */
  lemma FreshFilterStaysInInterval(q: real, r: real, ms: seq<real>, lo: real, hi: real)
    requires q > 0.0 && r > 0.0 && lo <= 0.0 <= hi
    requires forall i :: 0 <= i < |ms| ==> lo <= ms[i] <= hi
    ensures Updates(Initial, q, r, ms).Some?
    ensures lo <= Updates(Initial, q, r, ms).value.state <= hi
  {
    UpdatesStayInInterval(Initial, q, r, ms, lo, hi);
  }

  /** After at least one update the variance of a filter is below R. */
  lemma {:induction false} UpdatesCovarianceBelowR(e: Estimate, q: real, r: real, ms: seq<real>)
    requires Sane(e, q, r) && ms != []
    ensures Updates(e, q, r, ms).Some?
    ensures 0.0 <= Updates(e, q, r, ms).value.covariance < r
    decreases |ms|
  {
    StepProperties(e, q, r, ms[0]);
    var e1 := Step(e, q, r, ms[0]).value;
    if |ms| > 1 {
      UpdatesCovarianceBelowR(e1, q, r, ms[1..]);
    } else {
      assert ms[1..] == [];
    }
  }

  /** The variance after an update depends on the old variance alone: `R - R*R / (P + R)`. */
  lemma StepCovariance(e: Estimate, q: real, r: real, m: real)
    requires Sane(e, q, r)
    ensures Step(e, q, r, m).Some?
    ensures Step(e, q, r, m).value.covariance == r - r * r / (e.covariance + q + r)
  {
    var p := e.covariance + q;
    var k := Gain(e, q, r);
    var d := p + r;
    assert d > 0.0;
    assert k * d == p;
    assert (1.0 - k) * d == r;
    assert r / d * d == r;
    CancelPositive(1.0 - k, r / d, d);
    assert (1.0 - k) * p == r - (1.0 - k) * r;
    assert r / d * r == r * r / d;
  }

  lemma CancelPositive(x: real, y: real, d: real)
    requires d > 0.0 && x * d == y * d
    ensures x == y
  {
  }

  lemma DivideAntitone(a: real, x: real, y: real)
    requires a >= 0.0 && 0.0 < x <= y
    ensures a / y <= a / x
  {
    assert a / x - a / y == a * (y - x) / (x * y);
  }

  /** A larger variance before an update gives a larger (or equal) one after it. */
  lemma StepCovarianceMonotone(e1: Estimate, e2: Estimate, q: real, r: real, m1: real, m2: real)
    requires Sane(e1, q, r) && Sane(e2, q, r) && e1.covariance <= e2.covariance
    ensures Step(e1, q, r, m1).Some? && Step(e2, q, r, m2).Some?
    ensures Step(e1, q, r, m1).value.covariance <= Step(e2, q, r, m2).value.covariance
  {
    StepCovariance(e1, q, r, m1);
    StepCovariance(e2, q, r, m2);
    DivideAntitone(r * r, e1.covariance + q + r, e2.covariance + q + r);
  }

  /** An update from `e`, whatever the measurement, does not raise the variance. */
  ghost predicate Settling(e: Estimate, q: real, r: real)
  {
    e.covariance + q + r != 0.0 && r - r * r / (e.covariance + q + r) <= e.covariance
  }

  /** From a settling filter the variance never increases from one update to
      the next, whatever the measurements. */
  lemma {:induction false} VarianceNonIncreasing(e: Estimate, q: real, r: real, ms: seq<real>, i: nat)
    requires Sane(e, q, r) && Settling(e, q, r) && i < |ms|
    ensures Updates(e, q, r, ms[..i]).Some? && Updates(e, q, r, ms[..i + 1]).Some?
    ensures Updates(e, q, r, ms[..i + 1]).value.covariance <= Updates(e, q, r, ms[..i]).value.covariance
    decreases i
  {
    StepCovariance(e, q, r, ms[0]);
    var e1 := Step(e, q, r, ms[0]).value;
    StepProperties(e, q, r, ms[0]);
    if i == 0 {
      assert ms[..1][1..] == [];
    } else {
      StepCovarianceMonotone(e1, e, q, r, 0.0, 0.0);
      StepCovariance(e1, q, r, 0.0);
      StepCovariance(e, q, r, 0.0);
      assert ms[..i + 1][1..] == ms[1..][..i];
      assert ms[..i][1..] == ms[1..][..i - 1];
      VarianceNonIncreasing(e1, q, r, ms[1..], i - 1);
    }
  }

  /** A fresh pipeline filter (variance 1.0, Q = 0.01, R = 0.1) never
      increases its variance from one update to the next. */
  lemma FreshFilterVarianceNonIncreasing(ms: seq<real>, i: nat)
    requires i < |ms|
    ensures Updates(Initial, KalmanQ, KalmanR, ms[..i]).Some? && Updates(Initial, KalmanQ, KalmanR, ms[..i + 1]).Some?
    ensures Updates(Initial, KalmanQ, KalmanR, ms[..i + 1]).value.covariance
            <= Updates(Initial, KalmanQ, KalmanR, ms[..i]).value.covariance
  {
    assert Settling(Initial, KalmanQ, KalmanR);
    VarianceNonIncreasing(Initial, KalmanQ, KalmanR, ms, i);
  }

  /** `SimpleKalmanFilter`: the noises are fixed at construction, `update`
      moves the estimate and the variance. */
  class SimpleKalmanFilter {
    var state: real
    var covariance: real
    const processNoise: real
    const measurementNoise: real

    function Snapshot(): Estimate
      reads this
    {
      Estimate(state, covariance)
    }

    constructor (processNoise: real, measurementNoise: real)
      ensures Snapshot() == Initial
      ensures this.processNoise == processNoise && this.measurementNoise == measurementNoise
    {
      state := 0.0;
      covariance := 1.0;
      this.processNoise := processNoise;
      this.measurementNoise := measurementNoise;
    }

    /** `update(measurement)`: returns the new state; None stands for the
        ZeroDivisionError raised (with the fields untouched) when `p + R` is zero. */
    method Update(measurement: real) returns (result: Option<real>)
      modifies this
      ensures Step(old(Snapshot()), processNoise, measurementNoise, measurement).None? ==>
                result.None? && Snapshot() == old(Snapshot())
      ensures Step(old(Snapshot()), processNoise, measurementNoise, measurement).Some? ==>
                && Snapshot() == Step(old(Snapshot()), processNoise, measurementNoise, measurement).value
                && result == Some(state)
    {
      var predictedState := state;
      var predictedCovariance := covariance + processNoise;
      if predictedCovariance + measurementNoise == 0.0 {
        return None;
      }
      var kalmanGain := predictedCovariance / (predictedCovariance + measurementNoise);
      state := predictedState + kalmanGain * (measurement - predictedState);
      covariance := (1.0 - kalmanGain) * predictedCovariance;
      return Some(state);
    }
  }
}
