/** Python's ordering of `str` values (lexicographic by code point, a proper
    prefix first) and `sorted(names)` / `sorted(names, reverse=True)` over a
    directory listing, as ANALIZ.py and reclean.py use them. */
module Listing {

  /** `a < b` on Python strings. */
  predicate Below(a: string, b: string)
    decreases |a|
  {
    |b| > 0 && (|a| == 0 || a[0] < b[0] || (a[0] == b[0] && Below(a[1..], b[1..])))
  }

  predicate AtMost(a: string, b: string)
  {
    a == b || Below(a, b)
  }

  lemma {:induction false} BelowIrreflexive(a: string)
    ensures !Below(a, a)
    decreases |a|
  {
    if |a| > 0 {
      BelowIrreflexive(a[1..]);
    }
  }

  lemma {:induction false} BelowAsymmetric(a: string, b: string)
    ensures !(Below(a, b) && Below(b, a))
    decreases |a|
  {
    if |a| > 0 && |b| > 0 && a[0] == b[0] {
      BelowAsymmetric(a[1..], b[1..]);
    }
  }

  lemma {:induction false} BelowTransitive(a: string, b: string, c: string)
    requires Below(a, b) && Below(b, c)
    ensures Below(a, c)
    decreases |a|
  {
    if |a| > 0 && a[0] == b[0] && b[0] == c[0] {
      BelowTransitive(a[1..], b[1..], c[1..]);
    }
  }

  /** Two different strings are always ordered one way or the other. */
  lemma {:induction false} BelowTotal(a: string, b: string)
    requires a != b
    ensures Below(a, b) || Below(b, a)
    decreases |a|
  {
    if |a| > 0 && |b| > 0 && a[0] == b[0] {
      assert a == [a[0]] + a[1..] && b == [b[0]] + b[1..];
      BelowTotal(a[1..], b[1..]);
    }
  }

  lemma AtMostTransitive(a: string, b: string, c: string)
    requires AtMost(a, b) && AtMost(b, c)
    ensures AtMost(a, c)
  {
    if Below(a, b) && Below(b, c) {
      BelowTransitive(a, b, c);
    }
  }

  lemma AtMostAntisymmetric(a: string, b: string)
    requires AtMost(a, b) && AtMost(b, a)
    ensures a == b
  {
    BelowAsymmetric(a, b);
  }

  predicate Ascending(s: seq<string>)
  {
    forall i, j :: 0 <= i < j < |s| ==> AtMost(s[i], s[j])
  }

  predicate Descending(s: seq<string>)
  {
    forall i, j :: 0 <= i < j < |s| ==> AtMost(s[j], s[i])
  }

  /** Puts `x` into an ascending sequence. */
  function Insert(x: string, s: seq<string>): (r: seq<string>)
    requires Ascending(s)
    ensures |r| == |s| + 1
    ensures Ascending(r) && multiset(r) == multiset(s) + multiset{x}
    decreases |s|
  {
    if s == [] || AtMost(x, s[0]) then
      InsertFront(x, s);
      [x] + s
    else
      BelowTotal(x, s[0]);
      var rest := Insert(x, s[1..]);
      InsertBehind(x, s, rest);
      [s[0]] + rest
  }

  lemma InsertFront(x: string, s: seq<string>)
    requires Ascending(s) && (s == [] || AtMost(x, s[0]))
    ensures Ascending([x] + s) && multiset([x] + s) == multiset(s) + multiset{x}
  {
    forall j | 0 <= j < |s| ensures AtMost(x, s[j]) {
      AtMostTransitive(x, s[0], s[j]);
    }
  }

  lemma InsertBehind(x: string, s: seq<string>, rest: seq<string>)
    requires Ascending(s) && s != [] && Below(s[0], x)
    requires Ascending(rest) && multiset(rest) == multiset(s[1..]) + multiset{x}
    ensures Ascending([s[0]] + rest) && multiset([s[0]] + rest) == multiset(s) + multiset{x}
  {
    assert s == [s[0]] + s[1..];
    forall k | 0 <= k < |rest| ensures AtMost(s[0], rest[k]) {
      assert rest[k] in multiset(rest);
      if rest[k] != x {
        assert rest[k] in multiset(s[1..]);
        var j :| 0 <= j < |s[1..]| && s[1..][j] == rest[k];
        assert s[j + 1] == rest[k];
      }
    }
  }

  /** `sorted(names)`. */
  function SortAsc(names: seq<string>): (r: seq<string>)
    ensures |r| == |names|
    ensures Ascending(r) && multiset(r) == multiset(names)
    decreases |names|
  {
    if names == [] then []
    else
      assert names == [names[0]] + names[1..];
      Insert(names[0], SortAsc(names[1..]))
  }

  function Reverse(s: seq<string>): (r: seq<string>)
    ensures |r| == |s| && forall i :: 0 <= i < |s| ==> r[i] == s[|s| - 1 - i]
    decreases |s|
  {
    if s == [] then [] else [s[|s| - 1]] + Reverse(s[..|s| - 1])
  }

  /** `sorted(names, reverse=True)`: equal strings are identical, so this is
      the ascending order read backwards. */
  function SortDesc(names: seq<string>): (r: seq<string>)
    ensures |r| == |names|
    ensures Descending(r) && multiset(r) == multiset(names)
  {
    var up := SortAsc(names);
    var r := Reverse(up);
    assert multiset(r) == multiset(up) by {
      ReverseMultiset(up);
    }
    r
  }

  lemma {:induction false} ReverseMultiset(s: seq<string>)
    ensures multiset(Reverse(s)) == multiset(s)
    decreases |s|
  {
    if s != [] {
      ReverseMultiset(s[..|s| - 1]);
      assert s == s[..|s| - 1] + [s[|s| - 1]];
    }
  }

  /** There is only one ascending arrangement of a multiset of strings, so
      `sorted` is determined by its two properties. */
  lemma {:induction false} AscendingUnique(a: seq<string>, b: seq<string>)
    requires Ascending(a) && Ascending(b) && multiset(a) == multiset(b)
    ensures a == b
    decreases |a|
  {
    if a != [] {
      assert |b| == |multiset(b)| == |multiset(a)| == |a|;
      SameFirst(a, b);
      SameRest(a, b);
      AscendingUnique(a[1..], b[1..]);
      assert a == [a[0]] + a[1..] && b == [b[0]] + b[1..];
    }
  }

  /** Two non-empty ascending arrangements of one multiset start alike. */
  lemma SameFirst(a: seq<string>, b: seq<string>)
    requires Ascending(a) && Ascending(b) && multiset(a) == multiset(b) && a != [] && b != []
    ensures a[0] == b[0]
  {
    assert a[0] in multiset(b) && b[0] in multiset(a);
    var i :| 0 <= i < |b| && b[i] == a[0];
    var j :| 0 <= j < |a| && a[j] == b[0];
    assert AtMost(b[0], a[0]) by {
      if i > 0 {
        assert AtMost(b[0], b[i]);
      }
    }
    assert AtMost(a[0], b[0]) by {
      if j > 0 {
        assert AtMost(a[0], a[j]);
      }
    }
    AtMostAntisymmetric(a[0], b[0]);
  }

  /** Removing the same first element leaves the same multiset. */
  lemma SameRest(a: seq<string>, b: seq<string>)
    requires multiset(a) == multiset(b) && a != [] && b != [] && a[0] == b[0]
    ensures multiset(a[1..]) == multiset(b[1..])
  {
    assert a == [a[0]] + a[1..] && b == [b[0]] + b[1..];
    assert multiset(a[1..]) == multiset(a) - multiset{a[0]};
    assert multiset(b[1..]) == multiset(b) - multiset{a[0]};
  }

  /** A common prefix does not change the order. */
  lemma {:induction false} BelowCommonPrefix(p: string, x: string, y: string)
    requires Below(x, y)
    ensures Below(p + x, p + y)
    decreases |p|
  {
    if p != [] {
      BelowCommonPrefix(p[1..], x, y);
      var px, py := p + x, p + y;
      assert px[1..] == p[1..] + x && py[1..] == p[1..] + y;
      assert px[0] == p[0] == py[0];
      assert Below(px[1..], py[1..]);
    } else {
      assert p + x == x && p + y == y;
    }
  }

  /** Reverse order is string order, not numeric: `frame_2.jpg` comes
      before `frame_10.jpg`. */
  lemma ReverseOrderIsTextual()
    ensures SortDesc(["frame_10.jpg", "frame_2.jpg"]) == ["frame_2.jpg", "frame_10.jpg"]
    ensures SortAsc(["frame_2.jpg", "frame_10.jpg"]) == ["frame_10.jpg", "frame_2.jpg"]
  {
    TenBeforeTwo();
    SortDescTwo("frame_10.jpg", "frame_2.jpg");
    SortOutOfOrder("frame_10.jpg", "frame_2.jpg");
  }

  lemma TenBeforeTwo()
    ensures Below("frame_10.jpg", "frame_2.jpg")
  {
    assert "frame_10.jpg" == "frame_" + "10.jpg" && "frame_2.jpg" == "frame_" + "2.jpg";
    assert Below("10.jpg", "2.jpg");
    BelowCommonPrefix("frame_", "10.jpg", "2.jpg");
  }

  /** Two names in order stay in order. */
  lemma SortInOrder(lo: string, hi: string)
    requires Below(lo, hi)
    ensures SortAsc([lo, hi]) == [lo, hi]
  {
    assert Ascending([lo, hi]);
    AscendingUnique(SortAsc([lo, hi]), [lo, hi]);
  }

  /** Two names out of order are swapped. */
  lemma SortOutOfOrder(lo: string, hi: string)
    requires Below(lo, hi)
    ensures SortAsc([hi, lo]) == [lo, hi]
  {
    assert Ascending([lo, hi]);
    assert multiset([hi, lo]) == multiset([lo, hi]);
    AscendingUnique(SortAsc([hi, lo]), [lo, hi]);
  }

  /** In reverse order the greater name comes first. */
  lemma SortDescTwo(lo: string, hi: string)
    requires Below(lo, hi)
    ensures SortDesc([lo, hi]) == [hi, lo]
  {
    SortInOrder(lo, hi);
    assert Reverse([lo, hi]) == [hi, lo];
  }
}
