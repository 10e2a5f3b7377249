/** Helpers shared by the scripts' models: Python's `int()` on a float, the
    decimal rendering used by f-strings, and its inverse over digit strings. */
module Common {

  datatype Option<T> = None | Some(value: T)

  function AbsInt(x: int): nat { if x < 0 then -x else x }

  function AbsReal(x: real): real { if x < 0.0 then -x else x }

  /** Python's `int(x)` for a float `x`: truncation toward zero. */
  function Trunc(x: real): (n: int)
    ensures x >= 0.0 ==> 0 <= n && n as real <= x < n as real + 1.0
    ensures x < 0.0 ==> n <= 0 && n as real - 1.0 < x <= n as real
  {
    if x >= 0.0 then x.Floor else -((-x).Floor)
  }

  /** Shifting a real by a whole number shifts its floor by the same amount. */
  lemma FloorShift(x: real, n: int)
    ensures (x + n as real).Floor == x.Floor + n
  {
    var f := x.Floor;
    assert (f + n) as real <= x + n as real < (f + n) as real + 1.0;
  }

  predicate IsDigit(c: char) { '0' <= c <= '9' }

  predicate AllDigits(s: string) { forall i :: 0 <= i < |s| ==> IsDigit(s[i]) }

  function DigitChar(d: nat): (c: char)
    requires d < 10
    ensures IsDigit(c)
  {
    ('0' as int + d) as char
  }

  function DigitOf(c: char): (d: nat)
    requires IsDigit(c)
    ensures d < 10
  {
    c as int - '0' as int
  }

  /** f"{n}" for a natural number: its decimal digits, most significant first. */
  function NatToString(n: nat): (s: string)
    ensures |s| >= 1 && AllDigits(s)
    decreases n
  {
    if n < 10 then [DigitChar(n)] else NatToString(n / 10) + [DigitChar(n % 10)]
  }

  /** f"{k}" for any integer. */
  function IntToString(k: int): (s: string)
    ensures |s| >= 1
  {
    if k < 0 then "-" + NatToString(-k) else NatToString(k)
  }

  /** The end of the run of digits that starts at `i`. */
  function DigitRunEnd(s: string, i: nat): (j: nat)
    requires i <= |s|
    ensures i <= j <= |s| && AllDigits(s[i..j]) && (j == |s| || !IsDigit(s[j]))
    decreases |s| - i
  {
    if i < |s| && IsDigit(s[i]) then DigitRunEnd(s, i + 1) else i
  }

  /** A digit string followed by a non-digit (or the end) is the whole run. */
  lemma {:induction false} DigitRunOf(s: string, i: nat, d: string)
    requires AllDigits(d) && i + |d| <= |s| && s[i..i + |d|] == d
    requires i + |d| == |s| || !IsDigit(s[i + |d|])
    ensures DigitRunEnd(s, i) == i + |d|
    decreases |d|
  {
    if d != [] {
      assert s[i] == d[0];
      assert s[i + 1..i + 1 + |d[1..]|] == d[1..];
      DigitRunOf(s, i + 1, d[1..]);
    }
  }

  /** The value of a string of decimal digits (what `float` and `int` read). */
  function DigitsValue(s: string): (v: nat)
    requires AllDigits(s)
    decreases |s|
  {
    if |s| == 0 then 0 else DigitsValue(s[..|s| - 1]) * 10 + DigitOf(s[|s| - 1])
  }

  function Pow10(k: nat): (p: nat)
    ensures p >= 1
  {
    if k == 0 then 1 else 10 * Pow10(k - 1)
  }

  /** The value of the decimal literal `ip.fp`. */
  function DecimalValue(ip: string, fp: string): real
    requires AllDigits(ip) && AllDigits(fp)
  {
    DigitsValue(ip) as real + DigitsValue(fp) as real / Pow10(|fp|) as real
  }

  /** Reading back the decimal rendering of a number gives that number. */
  lemma {:induction false} NatToStringRoundTrip(n: nat)
    ensures DigitsValue(NatToString(n)) == n
    decreases n
  {
    if n >= 10 {
      var s := NatToString(n);
      assert s[..|s| - 1] == NatToString(n / 10);
      NatToStringRoundTrip(n / 10);
    }
  }

  /** Distinct numbers have distinct renderings. */
  lemma NatToStringInjective(m: nat, n: nat)
    ensures NatToString(m) == NatToString(n) ==> m == n
  {
    NatToStringRoundTrip(m);
    NatToStringRoundTrip(n);
  }

  lemma IntToStringInjective(j: int, k: int)
    ensures IntToString(j) == IntToString(k) ==> j == k
  {
    if IntToString(j) == IntToString(k) {
      if j < 0 && k < 0 {
        assert IntToString(j)[1..] == NatToString(-j);
        assert IntToString(k)[1..] == NatToString(-k);
        NatToStringInjective(-j, -k);
      } else if j >= 0 && k >= 0 {
        NatToStringInjective(j, k);
      }
    }
    if j < 0 && k >= 0 {
      assert IntToString(j)[0] == '-' && IsDigit(IntToString(k)[0]);
    } else if j >= 0 && k < 0 {
      assert IntToString(k)[0] == '-' && IsDigit(IntToString(j)[0]);
    }
  }

  /** `round(x * 100)` for a non-negative value, halves rounded up. */
  function Hundredths(x: real): (h: nat)
    requires x >= 0.0
    ensures h as real - 0.5 <= x * 100.0 < h as real + 0.5
  {
    (x * 100.0 + 0.5).Floor
  }

  /** The digits of f"{x:.2f}" for a value of `h` hundredths: integer part, '.', two digits. */
  function HundredthsToString(h: nat): (s: string)
  {
    NatToString(h / 100) + "." + Cents(h % 100)
  }

  /** The two digits after the point for `r` hundredths. */
  function Cents(r: nat): (s: string)
    requires r < 100
    ensures |s| == 2 && AllDigits(s)
  {
    [DigitChar(r / 10), DigitChar(r % 10)]
  }

  /** f"{x:.2f}": a minus sign for a negative value, then the rounded magnitude. */
  function Fixed2(x: real): (s: string)
    ensures x >= 0.0 ==> s == HundredthsToString(Hundredths(x))
    ensures x < 0.0 ==> |s| > 0 && s[0] == '-'
    ensures x < 0.0 ==> s == "-" + HundredthsToString(Hundredths(-x))
  {
    if x < 0.0 then "-" + HundredthsToString(Hundredths(-x)) else HundredthsToString(Hundredths(x))
  }

  /** The two digits after the point read back as the number of hundredths. */
  lemma CentsValue(r: nat)
    requires r < 100
    ensures DigitsValue(Cents(r)) == r
  {
    var d1, d0 := r / 10, r % 10;
    var s := Cents(r);
    assert s[..1] == [DigitChar(d1)] && s[..1][..0] == [];
    assert DigitOf(DigitChar(d1)) == d1 && DigitOf(DigitChar(d0)) == d0;
    assert DigitsValue(s[..1]) == d1;
    assert d1 * 10 + d0 == r;
  }

  /** The rendering of `h` hundredths reads back as `h / 100`. */
  lemma HundredthsRoundTrip(h: nat)
    ensures DecimalValue(NatToString(h / 100), Cents(h % 100)) == h as real / 100.0
  {
    var q, r := h / 100, h % 100;
    NatToStringRoundTrip(q);
    CentsValue(r);
    assert Pow10(2) == 100;
    HundredthsSplit(h, q, r);
  }

  lemma HundredthsSplit(h: nat, q: nat, r: nat)
    requires h == q * 100 + r
    ensures h as real / 100.0 == q as real + r as real / 100.0
  {
    assert h as real == q as real * 100.0 + r as real;
  }

  /** The number of indices in [0, k) that are multiples of `d` (`j % d == 0`). */
  function CountMultiples(k: nat, d: int): nat
    requires d != 0
  {
    if k == 0 then 0 else CountMultiples(k - 1, d) + (if (k - 1) % d == 0 then 1 else 0)
  }

  /** Integer division is determined by its bounds. */
  lemma DivUnique(x: int, d: int, q: int)
    requires d > 0 && d * q <= x < d * q + d
    ensures x / d == q
  {
    var q0 := x / d;
    assert d * q0 <= x < d * q0 + d;
    assert d * q0 - d * q == d * (q0 - q);
    MulAtLeast(d, q0 - q);
  }

  lemma MulAtLeast(d: int, a: int)
    requires d > 0
    ensures a >= 1 ==> d * a >= d
    ensures a <= -1 ==> d * a <= -d
  {
  }

  /** One more index adds one multiple exactly when that index is a multiple. */
  lemma CeilStep(j: nat, d: int)
    requires d > 0
    ensures (j + d) / d == (j + d - 1) / d + (if j % d == 0 then 1 else 0)
  {
    var q, r := j / d, j % d;
    assert j == d * q + r && 0 <= r < d;
    var m := d * q;
    assert d * (q + 1) == m + d;
    if r == 0 {
      DivUnique(j + d - 1, d, q);
    } else {
      DivUnique(j + d - 1, d, q + 1);
    }
    DivUnique(j + d, d, q + 1);
  }

  /** There are ceil(k / d) multiples of a positive `d` below `k`. */
  lemma {:induction false} CountMultiplesFormula(k: nat, d: int)
    requires d > 0
    ensures CountMultiples(k, d) == (k + d - 1) / d
  {
    if k == 0 {
      DivUnique(d - 1, d, 0);
    } else {
      CountMultiplesFormula(k - 1, d);
      CeilStep(k - 1, d);
    }
  }

  /** `os.path.join(folder, name)`, kept as its two parts. */
  datatype Path = Path(folder: string, name: string)

  /** The directory tree as the scripts see it: `os.listdir` of a folder and
      `os.path.isfile` of a path. */
  datatype FileSystem = FileSystem(listdir: string -> seq<string>, isFile: Path -> bool)

  /** One planned file write: the file at `src` is stored at `dst`. */
  datatype Copy = Copy(src: Path, dst: Path)

  /** f"frame_{k}.jpg". */
  function FrameFileName(k: int): (name: string)
    ensures |name| >= 11 && name[..6] == "frame_"
  {
    "frame_" + IntToString(k) + ".jpg"
  }

  /** Different numbers give different frame file names. */
  lemma FrameFileNameInjective(j: int, k: int)
    ensures FrameFileName(j) == FrameFileName(k) ==> j == k
  {
    if FrameFileName(j) == FrameFileName(k) {
      var a, b := FrameFileName(j), FrameFileName(k);
      assert a[6..|a| - 4] == IntToString(j);
      assert b[6..|b| - 4] == IntToString(k);
      IntToStringInjective(j, k);
    }
  }
}
