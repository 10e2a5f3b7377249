/** The decision rules of `generate_correction_command` in dp1140.py: the
    deviation status, the yaw, roll and pitch corrections and the compass
    sector of the flow angle. */
module Correction {
  import opened Common

  /** The four deviation statuses, best first. */
  datatype Status = Normal | Moderate | Significant | Critical

  function StatusLabel(s: Status): string
  {
    match s
    case Normal => "Нормальное отклонение"
    case Moderate => "Умеренное отклонение"
    case Significant => "Значительное отклонение"
    case Critical => "КРИТИЧЕСКОЕ ОТКЛОНЕНИЕ"
  }

  /** 0 for the best status, 3 for the worst. */
  function Severity(s: Status): nat
  {
    match s
    case Normal => 0
    case Moderate => 1
    case Significant => 2
    case Critical => 3
  }

  /** The status of a similarity percentage: strict thresholds 30, 25 and 20. */
  function ClassifyStatus(similarity: real): (s: Status)
    ensures s == Normal <==> similarity > 30.0
    ensures s == Moderate <==> 25.0 < similarity <= 30.0
    ensures s == Significant <==> 20.0 < similarity <= 25.0
    ensures s == Critical <==> similarity <= 20.0
  {
    if similarity > 30.0 then Normal
    else if similarity > 25.0 then Moderate
    else if similarity > 20.0 then Significant
    else Critical
  }

  /** A boundary value falls into the worse class. */
  lemma StatusBoundaries()
    ensures ClassifyStatus(30.0) == Moderate
    ensures ClassifyStatus(25.0) == Significant
    ensures ClassifyStatus(20.0) == Critical
  {
  }

  /** A higher similarity never gives a worse status. */
  lemma StatusMonotone(s1: real, s2: real)
    requires s1 <= s2
    ensures Severity(ClassifyStatus(s2)) <= Severity(ClassifyStatus(s1))
  {
  }

  /** `-angle * (1 - similarity/100)`: no yaw at full similarity or zero flow
      angle; against the flow angle, and no larger than it, for a similarity in [0, 100]. */
  function YawCorrection(flowAngle: real, similarity: real): (y: real)
    ensures similarity == 100.0 ==> y == 0.0
    ensures flowAngle == 0.0 ==> y == 0.0
    ensures similarity < 100.0 && flowAngle > 0.0 ==> y < 0.0
    ensures similarity < 100.0 && flowAngle < 0.0 ==> y > 0.0
    ensures 0.0 <= similarity <= 100.0 ==> AbsReal(y) <= AbsReal(flowAngle)
  {
    var w := 1.0 - similarity / 100.0;
    assert AbsReal(-flowAngle * w) == AbsReal(flowAngle) * AbsReal(w);
    assert 0.0 <= similarity <= 100.0 ==> AbsReal(flowAngle) * AbsReal(w) <= AbsReal(flowAngle) by {
      if 0.0 <= similarity <= 100.0 {
        ScaleDown(AbsReal(flowAngle), AbsReal(w));
      }
    }
    -flowAngle * w
  }

  lemma ScaleDown(x: real, w: real)
    requires x >= 0.0 && 0.0 <= w <= 1.0
    ensures x * w <= x
  {
    assert x * (1.0 - w) >= 0.0;
  }

  /** `-horizon * 0.7`: against the tilt, zero exactly for no tilt, and
      within (-21, 21) for a tilt within (-30, 30). */
  function RollCorrection(horizonAngle: real): (c: real)
    ensures c == 0.0 <==> horizonAngle == 0.0
    ensures horizonAngle > 0.0 ==> c < 0.0
    ensures horizonAngle < 0.0 ==> c > 0.0
    ensures -30.0 < horizonAngle < 30.0 ==> -21.0 < c < 21.0
  {
    -horizonAngle * 0.7
  }

  /** The unclipped pitch sum of altitude, velocity and temperature terms. */
  function PitchSum(altitude: real, velocity: real, temperature: real): real
  {
    (altitude - 100.0) * 0.01 + (velocity - 15.0) * 0.05 + (temperature - 20.0) * 0.002
  }

  /** `np.clip(sum, -10, 10)`. */
  function PitchCorrection(altitude: real, velocity: real, temperature: real): (p: real)
    ensures -10.0 <= p <= 10.0
    ensures -10.0 <= PitchSum(altitude, velocity, temperature) <= 10.0 ==>
              p == PitchSum(altitude, velocity, temperature)
    ensures PitchSum(altitude, velocity, temperature) > 10.0 ==> p == 10.0
    ensures PitchSum(altitude, velocity, temperature) < -10.0 ==> p == -10.0
  {
    var s := PitchSum(altitude, velocity, temperature);
    if s < -10.0 then -10.0 else if s > 10.0 then 10.0 else s
  }

  /** No pitch correction at the reference point H=100 m, V=15 m/s, T=20 C. */
  lemma PitchNeutralPoint()
    ensures PitchCorrection(100.0, 15.0, 20.0) == 0.0
  {
  }

  /** The pitch correction never decreases when altitude, velocity or temperature grows. */
  lemma PitchMonotone(a1: real, v1: real, t1: real, a2: real, v2: real, t2: real)
    requires a1 <= a2 && v1 <= v2 && t1 <= t2
    ensures PitchCorrection(a1, v1, t1) <= PitchCorrection(a2, v2, t2)
  {
    assert PitchSum(a1, v1, t1) <= PitchSum(a2, v2, t2);
  }

  /** The eight compass labels, clockwise from north. */
  const Directions: seq<string> := ["С", "СВ", "В", "ЮВ", "Ю", "ЮЗ", "З", "СЗ"]

  /** The sector index of `get_direction`: 360 added once to a negative
      angle, then `int((angle + 22.5) / 45) % 8` with truncating `int`. */
  function DirectionIndex(angle: real): (i: nat)
    ensures i < 8
  {
    var a := if angle < 0.0 then angle + 360.0 else angle;
    Trunc((a + 22.5) / 45.0) % 8
  }

  /** `get_direction(angle)`: always one of the eight labels. */
  function GetDirection(angle: real): (d: string)
    ensures d in Directions
    ensures d == Directions[DirectionIndex(angle)]
  {
    Directions[DirectionIndex(angle)]
  }

  /** The reference rule: reduce the angle into [0, 360), then the nearest
      multiple of 45 degrees, counted modulo 8. */
  function CompassIndex(angle: real): (i: nat)
    ensures i < 8
  {
    var turns := (angle / 360.0).Floor;
    var reduced := angle - 360.0 * turns as real;
    ((reduced + 22.5) / 45.0).Floor % 8
  }

  /** For a non-negative angle the sector index is the nearest multiple of 45 degrees. */
  lemma DirectionIndexNonNegative(angle: real)
    requires angle >= 0.0
    ensures DirectionIndex(angle) == ((angle + 22.5) / 45.0).Floor % 8
  {
  }

  /** From -360 degrees up, `get_direction` picks the sector of the reference rule. */
  lemma DirectionMatchesCompass(angle: real)
    requires angle >= -360.0
    ensures DirectionIndex(angle) == CompassIndex(angle)
  {
    var a := if angle < 0.0 then angle + 360.0 else angle;
    var turns := (angle / 360.0).Floor;
    var reduced := angle - 360.0 * turns as real;
    if angle < 0.0 {
      assert turns == -1;
    }
    assert a >= 0.0 && a == reduced + 360.0 * (turns + (if angle < 0.0 then 1 else 0)) as real;
    var extra := turns + (if angle < 0.0 then 1 else 0);
    assert extra >= 0;
    assert (a + 22.5) / 45.0 == (reduced + 22.5) / 45.0 + (8 * extra) as real;
    FloorShift((reduced + 22.5) / 45.0, 8 * extra);
    var f := ((reduced + 22.5) / 45.0).Floor;
    assert (f + 8 * extra) % 8 == f % 8;
  }

  /** A whole turn more gives the same label, for every non-negative angle. */
  lemma DirectionFullTurn(angle: real)
    requires angle >= 0.0
    ensures GetDirection(angle + 360.0) == GetDirection(angle)
  {
    assert (angle + 360.0 + 22.5) / 45.0 == (angle + 22.5) / 45.0 + 8 as real;
    FloorShift((angle + 22.5) / 45.0, 8);
    var f := ((angle + 22.5) / 45.0).Floor;
    assert (f + 8) % 8 == f % 8;
  }

  /** A negative angle from -360 up gets the label of that angle plus 360. */
  lemma DirectionNegativeWraps(angle: real)
    requires -360.0 <= angle < 0.0
    ensures GetDirection(angle) == GetDirection(angle + 360.0)
  {
  }

  /** Below -360 a single added turn is not enough: -400 lands in the north
      sector by truncation, while -40 (the same bearing) is north-west. */
  lemma DirectionBelowFullTurn()
    ensures GetDirection(-400.0) == "С"
    ensures GetDirection(-40.0) == "СЗ"
  {
    assert Trunc((-40.0 + 22.5) / 45.0) == 0;
    assert Trunc((320.0 + 22.5) / 45.0) == 7;
  }

  /** The labels for a few angles: sectors are centred on multiples of 45
      degrees, so north ends at 22.5 and 44 is already north-east. */
  lemma DirectionExamples()
    ensures GetDirection(0.0) == "С" && GetDirection(22.4) == "С"
    ensures GetDirection(22.5) == "СВ" && GetDirection(44.0) == "СВ" && GetDirection(46.0) == "СВ"
    ensures GetDirection(-90.0) == "З"
  {
    assert Trunc(22.5 / 45.0) == 0;
    assert Trunc(44.9 / 45.0) == 0;
    assert Trunc(66.5 / 45.0) == 1;
    assert Trunc(45.0 / 45.0) == 1;
    assert Trunc(68.5 / 45.0) == 1;
    assert Trunc(292.5 / 45.0) == 6;
  }

  /** What the rules read from the environment snapshot (the simulated
      telemetry of `get_environment_data`). */
  datatype Environment = Environment(altitude: real, velocity: real, temperature: real)

  /** The structured part of the recommendation returned by
      `generate_correction_command`. */
  datatype Recommendation = Recommendation(
    status: Status,
    similarity: real,
    yaw: real,
    direction: string,
    roll: real,
    pitch: real,
    flowAngle: real,
    flowMagnitude: real,
    horizonAngle: real)

  /** `generate_correction_command` with the horizon angle already detected. */
  function Synthesize(similarity: real, flowAngle: real, flowMagnitude: real,
                      env: Environment, horizonAngle: real): (rec: Recommendation)
    ensures rec.status == ClassifyStatus(similarity) && rec.similarity == similarity
    ensures rec.direction in Directions
    ensures -10.0 <= rec.pitch <= 10.0
    ensures -30.0 < horizonAngle < 30.0 ==> -21.0 < rec.roll < 21.0
    ensures similarity == 100.0 ==> rec.yaw == 0.0
    ensures rec.yaw == YawCorrection(flowAngle, similarity) && rec.direction == GetDirection(flowAngle)
    ensures rec.roll == RollCorrection(horizonAngle)
    ensures rec.pitch == PitchCorrection(env.altitude, env.velocity, env.temperature)
    ensures rec.flowAngle == flowAngle && rec.flowMagnitude == flowMagnitude && rec.horizonAngle == horizonAngle
  {
    Recommendation(
      ClassifyStatus(similarity),
      similarity,
      YawCorrection(flowAngle, similarity),
      GetDirection(flowAngle),
      RollCorrection(horizonAngle),
      PitchCorrection(env.altitude, env.velocity, env.temperature),
      flowAngle,
      flowMagnitude,
      horizonAngle)
  }
}
