/**
 * The version comparator of the consolidator (`_compare_versions`): dotted
 * numeric versions are compared segment by segment after padding the shorter
 * one with zero segments; when either side has a piece that is not a run of
 * decimal digits, the two whole strings are compared as Python compares
 * strings (code point by code point).
 */
module Versions {
  import opened PyJson

  predicate IsDigit(c: char) {
    '0' <= c <= '9'
  }

  /** `s.split(".")`: n dots give n + 1 pieces, empty pieces included. */
  function SplitDots(s: string): (parts: seq<string>)
    ensures |parts| >= 1
    decreases |s|
  {
    if s == [] then [[]]
    else if s[0] == '.' then [[]] + SplitDots(s[1..])
    else
      var rest := SplitDots(s[1..]);
      [[s[0]] + rest[0]] + rest[1..]
  }

  /** `".".join(parts)`, the inverse of SplitDots. */
  function JoinDots(parts: seq<string>): string
    requires |parts| >= 1
    decreases |parts|
  {
    if |parts| == 1 then parts[0] else parts[0] + "." + JoinDots(parts[1..])
  }

  /** Splitting loses nothing: the pieces are dot-free and join back to the input. */
  lemma SplitDotsRoundTrip(s: string)
    ensures JoinDots(SplitDots(s)) == s
    ensures forall k :: 0 <= k < |SplitDots(s)| ==> '.' !in SplitDots(s)[k]
  {
    SplitDotsJoin(s);
    SplitDotsDotFree(s);
  }

  lemma {:induction false} SplitDotsJoin(s: string)
    ensures JoinDots(SplitDots(s)) == s
    decreases |s|
  {
    if s != [] {
      SplitDotsJoin(s[1..]);
      if s[0] == '.' {
        JoinAfterDot(s);
      } else {
        JoinAfterChar(s);
      }
    }
  }

  lemma JoinAfterDot(s: string)
    requires s != [] && s[0] == '.' && JoinDots(SplitDots(s[1..])) == s[1..]
    ensures JoinDots(SplitDots(s)) == s
  {
    var rest := SplitDots(s[1..]);
    assert SplitDots(s) == [[]] + rest;
    assert JoinDots(SplitDots(s)) == [] + "." + JoinDots(rest);
    assert s == "." + s[1..];
  }

  lemma JoinAfterChar(s: string)
    requires s != [] && s[0] != '.' && JoinDots(SplitDots(s[1..])) == s[1..]
    ensures JoinDots(SplitDots(s)) == s
  {
    var rest := SplitDots(s[1..]);
    var head := [s[0]] + rest[0];
    assert SplitDots(s) == [head] + rest[1..];
    assert s == [s[0]] + s[1..];
    if |rest| == 1 {
      assert JoinDots([head] + rest[1..]) == head;
    } else {
      JoinMore(s[0], rest);
    }
  }

  lemma JoinMore(c: char, rest: seq<string>)
    requires |rest| > 1
    ensures JoinDots([[c] + rest[0]] + rest[1..]) == [c] + JoinDots(rest)
  {
    var p0 := [c] + rest[0];
    var parts := [p0] + rest[1..];
    var tail := JoinDots(rest[1..]);
    assert |parts| > 1 && parts[0] == p0;
    assert parts[1..] == rest[1..];
    assert JoinDots(parts) == p0 + "." + tail;
    assert JoinDots(rest) == rest[0] + "." + tail;
    ConcatAssoc([c], rest[0], ".", tail);
  }

  lemma ConcatAssoc(a: string, b: string, d: string, e: string)
    ensures (a + b) + d + e == a + (b + d + e)
  {
  }

  lemma {:induction false} SplitDotsDotFree(s: string)
    ensures forall k :: 0 <= k < |SplitDots(s)| ==> '.' !in SplitDots(s)[k]
    decreases |s|
  {
    if s != [] {
      var rest := SplitDots(s[1..]);
      SplitDotsDotFree(s[1..]);
      var parts := SplitDots(s);
      if s[0] == '.' {
        assert parts == [[]] + rest;
        forall k | 0 <= k < |parts|
          ensures '.' !in parts[k]
        {
          if k > 0 {
            assert parts[k] == rest[k - 1];
          }
        }
      } else {
        assert parts == [[s[0]] + rest[0]] + rest[1..];
        forall k | 0 <= k < |parts|
          ensures '.' !in parts[k]
        {
          if k == 0 {
            assert parts[0] == [s[0]] + rest[0];
          } else {
            assert parts[k] == rest[k];
          }
        }
      }
    }
  }

  /** The value of a run of decimal digits (`int(x)` for such an `x`). */
  function DigitsValue(s: string): nat
    requires forall i :: 0 <= i < |s| ==> IsDigit(s[i])
    decreases |s|
  {
    if s == [] then 0 else DigitsValue(s[..|s| - 1]) * 10 + DigitValue(s[|s| - 1])
  }

  function DigitValue(c: char): nat
    requires IsDigit(c)
  {
    c as int - '0' as int
  }

  /** A piece `int()` accepts in this model: a non-empty run of ASCII digits. */
  predicate IsSegment(p: string) {
    |p| > 0 && forall i :: 0 <= i < |p| ==> IsDigit(p[i])
  }

  /**
   * `[int(x) for x in parts]`; None where some piece is not a digit run (the
   * ValueError that sends `_compare_versions` to its string fallback).
   */
  function ParseSegments(parts: seq<string>): (r: Option<seq<nat>>)
    ensures r.Some? <==> forall k :: 0 <= k < |parts| ==> IsSegment(parts[k])
    ensures r.Some? ==> |r.value| == |parts|
    ensures r.Some? ==> forall k :: 0 <= k < |parts| ==> r.value[k] == DigitsValue(parts[k])
    decreases |parts|
  {
    if parts == [] then Some([])
    else
      var last := parts[|parts| - 1];
      match ParseSegments(parts[..|parts| - 1])
      case None => None
      case Some(init) => if IsSegment(last) then Some(init + [DigitsValue(last)]) else None
  }

  function ParseVersion(v: string): Option<seq<nat>> {
    ParseSegments(SplitDots(v))
  }

  /** A dotted numeric version such as "1.2.3": every piece parses as an integer. */
  predicate WellFormed(v: string) {
    ParseVersion(v).Some?
  }

  /** `xs.extend([0] * (n - len(xs)))`. */
  function Pad(xs: seq<nat>, n: nat): (r: seq<nat>)
    requires |xs| <= n
    ensures |r| == n && r[..|xs|] == xs
    ensures forall k :: |xs| <= k < n ==> r[k] == 0
  {
    xs + seq(n - |xs|, _ => 0)
  }

  /** The zip loop: the first differing segment decides. */
  function CompareAligned(a: seq<nat>, b: seq<nat>): (r: int)
    requires |a| == |b|
    ensures -1 <= r <= 1
    decreases |a|
  {
    if a == [] then 0
    else if a[0] > b[0] then 1
    else if a[0] < b[0] then -1
    else CompareAligned(a[1..], b[1..])
  }

  function Max(x: nat, y: nat): nat {
    if x >= y then x else y
  }

  /** Numeric comparison after padding both segment lists to the longer length. */
  function CompareSegments(a: seq<nat>, b: seq<nat>): int {
    var n := Max(|a|, |b|);
    CompareAligned(Pad(a, n), Pad(b, n))
  }

  /** The fallback: Python's ordering of two strings, as 1, -1 or 0. */
  function CompareText(a: string, b: string): (r: int)
    ensures -1 <= r <= 1
    decreases |a|
  {
    if a == [] then (if b == [] then 0 else -1)
    else if b == [] then 1
    else if a[0] < b[0] then -1
    else if a[0] > b[0] then 1
    else CompareText(a[1..], b[1..])
  }

  /** `_compare_versions(v1, v2)` on two strings: 1 if v1 is newer, -1 if older, 0 if equal. */
  function Compare(v1: string, v2: string): (r: int)
    ensures r == -1 || r == 0 || r == 1
  {
    match (ParseVersion(v1), ParseVersion(v2))
    case (Some(a), Some(b)) => CompareSegments(a, b)
    case _ => CompareText(v1, v2)
  }

  function Sign(x: int): int {
    if x > 0 then 1 else if x < 0 then -1 else 0
  }

  /** A number or boolean, the values Python's `>` orders numerically. */
  function NumericValue(j: Json): Option<int> {
    match j
    case JNum(n) => Some(n)
    case JBool(b) => Some(if b then 1 else 0)
    case _ => None
  }

  /**
   * `_compare_versions` on two parsed JSON values. Two strings go through
   * Compare; two numbers (or booleans) fail `.split` and reach the fallback,
   * which orders them numerically; any other pair reaches the fallback and
   * raises TypeError there, which is None here.
   */
  function CompareJson(v1: Json, v2: Json): (r: Option<int>)
    ensures v1.JStr? && v2.JStr? ==> r == Some(Compare(v1.s, v2.s))
    ensures r.Some? ==> -1 <= r.value <= 1
    ensures r.None? ==> !(v1.JStr? && v2.JStr?)
  {
    if v1.JStr? && v2.JStr? then Some(Compare(v1.s, v2.s))
    else if NumericValue(v1).Some? && NumericValue(v2).Some? then
      Some(Sign(NumericValue(v1).value - NumericValue(v2).value))
    else None
  }

  // ---------------------------------------------------------------------
  // Properties of the comparator

  lemma {:induction false} CompareAlignedAntisymmetric(a: seq<nat>, b: seq<nat>)
    requires |a| == |b|
    ensures CompareAligned(a, b) == -CompareAligned(b, a)
    decreases |a|
  {
    if a != [] && a[0] == b[0] {
      CompareAlignedAntisymmetric(a[1..], b[1..]);
    }
  }

  lemma {:induction false} CompareTextAntisymmetric(a: string, b: string)
    ensures CompareText(a, b) == -CompareText(b, a)
    decreases |a|
  {
    if a != [] && b != [] && a[0] == b[0] {
      CompareTextAntisymmetric(a[1..], b[1..]);
    }
  }

  /** Swapping the arguments negates the answer, on every pair of strings. */
  lemma CompareAntisymmetric(v1: string, v2: string)
    ensures Compare(v1, v2) == -Compare(v2, v1)
  {
    match (ParseVersion(v1), ParseVersion(v2))
    case (Some(a), Some(b)) =>
      var n := Max(|a|, |b|);
      CompareAlignedAntisymmetric(Pad(a, n), Pad(b, n));
    case _ =>
      CompareTextAntisymmetric(v1, v2);
  }

  lemma {:induction false} CompareAlignedReflexive(a: seq<nat>)
    ensures CompareAligned(a, a) == 0
    decreases |a|
  {
    if a != [] {
      CompareAlignedReflexive(a[1..]);
    }
  }

  lemma {:induction false} CompareTextReflexive(a: string)
    ensures CompareText(a, a) == 0
    decreases |a|
  {
    if a != [] {
      CompareTextReflexive(a[1..]);
    }
  }

  /** Every string is equal to itself, well-formed or not. */
  lemma CompareReflexive(v: string)
    ensures Compare(v, v) == 0
  {
    match ParseVersion(v)
    case Some(a) =>
      CompareAlignedReflexive(Pad(a, |a|));
    case None =>
      CompareTextReflexive(v);
  }

  /** A common tail of equal length decides only when the heads are equal. */
  lemma {:induction false} CompareAlignedConcat(x: seq<nat>, y: seq<nat>, u: seq<nat>, w: seq<nat>)
    requires |x| == |y| && |u| == |w|
    ensures CompareAligned(x + u, y + w)
         == if CompareAligned(x, y) != 0 then CompareAligned(x, y) else CompareAligned(u, w)
    decreases |x|
  {
    if x == [] {
      assert x + u == u && y + w == w;
    } else {
      assert (x + u)[0] == x[0] && (y + w)[0] == y[0];
      assert (x + u)[1..] == x[1..] + u && (y + w)[1..] == y[1..] + w;
      if x[0] == y[0] {
        CompareAlignedConcat(x[1..], y[1..], u, w);
      }
    }
  }

  /** Padding both sides further with zeros does not change the numeric comparison. */
  lemma CompareSegmentsAt(a: seq<nat>, b: seq<nat>, m: nat)
    requires |a| <= m && |b| <= m
    ensures CompareSegments(a, b) == CompareAligned(Pad(a, m), Pad(b, m))
  {
    var n := Max(|a|, |b|);
    var z := seq(m - n, _ => 0);
    assert Pad(a, m) == Pad(a, n) + z;
    assert Pad(b, m) == Pad(b, n) + z;
    CompareAlignedConcat(Pad(a, n), Pad(b, n), z, z);
    CompareAlignedReflexive(z);
  }

  lemma {:induction false} CompareAlignedTransitive(a: seq<nat>, b: seq<nat>, c: seq<nat>)
    requires |a| == |b| == |c|
    requires CompareAligned(a, b) >= 0 && CompareAligned(b, c) >= 0
    ensures CompareAligned(a, c) >= 0
    ensures CompareAligned(a, b) > 0 || CompareAligned(b, c) > 0 ==> CompareAligned(a, c) > 0
    decreases |a|
  {
    if a != [] && a[0] == b[0] && b[0] == c[0] {
      CompareAlignedTransitive(a[1..], b[1..], c[1..]);
    }
  }

  /**
   * On well-formed versions the comparator is a total preorder: "at least as
   * new" is transitive, and strictly newer anywhere in the chain makes the
   * ends strictly ordered.
   */
  lemma CompareTransitive(v1: string, v2: string, v3: string)
    requires WellFormed(v1) && WellFormed(v2) && WellFormed(v3)
    requires Compare(v1, v2) >= 0 && Compare(v2, v3) >= 0
    ensures Compare(v1, v3) >= 0
    ensures Compare(v1, v2) > 0 || Compare(v2, v3) > 0 ==> Compare(v1, v3) > 0
  {
    var a, b, c := ParseVersion(v1).value, ParseVersion(v2).value, ParseVersion(v3).value;
    var m := Max(Max(|a|, |b|), |c|);
    CompareSegmentsAt(a, b, m);
    CompareSegmentsAt(b, c, m);
    CompareSegmentsAt(a, c, m);
    CompareAlignedTransitive(Pad(a, m), Pad(b, m), Pad(c, m));
  }

  lemma {:induction false} SplitDotsNoDot(s: string)
    requires '.' !in s
    ensures SplitDots(s) == [s]
    decreases |s|
  {
    if s != [] {
      assert '.' !in s[1..];
      SplitDotsNoDot(s[1..]);
      assert s == [s[0]] + s[1..];
    }
  }

  /** A dot-free head splits off as the first piece. */
  lemma {:induction false} SplitDotsCons(a: string, b: string)
    requires '.' !in a
    ensures SplitDots(a + "." + b) == [a] + SplitDots(b)
    decreases |a|
  {
    if a == [] {
      assert a + "." + b == "." + b;
      assert ("." + b)[1..] == b;
    } else {
      var s := a + "." + b;
      assert s[0] == a[0] && s[1..] == a[1..] + "." + b;
      assert '.' !in a[1..];
      SplitDotsCons(a[1..], b);
      assert a == [a[0]] + a[1..];
    }
  }

  lemma {:induction false} SplitDotsAppendZero(s: string)
    ensures SplitDots(s + ".0") == SplitDots(s) + ["0"]
    decreases |s|
  {
    if s == [] {
      assert s + ".0" == "" + "." + "0";
      SplitDotsCons("", "0");
      SplitDotsNoDot("0");
    } else {
      assert (s + ".0")[1..] == s[1..] + ".0";
      assert (s + ".0")[0] == s[0];
      SplitDotsAppendZero(s[1..]);
    }
  }

  lemma ParseSegmentsSnoc(parts: seq<string>, p: string)
    ensures ParseSegments(parts + [p])
         == if ParseSegments(parts).Some? && IsSegment(p)
            then Some(ParseSegments(parts).value + [DigitsValue(p)]) else None
  {
    assert (parts + [p])[..|parts|] == parts;
  }

  lemma ParseAppendZero(v: string)
    requires WellFormed(v)
    ensures ParseVersion(v + ".0") == Some(ParseVersion(v).value + [0])
  {
    SplitDotsAppendZero(v);
    var parts := SplitDots(v);
    var parts' := parts + ["0"];
    assert parts'[..|parts'| - 1] == parts;
    assert IsSegment("0");
    assert DigitsValue("0") == 0 by {
      assert "0"[..0] == "";
    }
  }

  /** `xs + [0]` and `xs` compare the same against anything. */
  lemma CompareSegmentsTrailingZero(a: seq<nat>, b: seq<nat>)
    ensures CompareSegments(a + [0], b) == CompareSegments(a, b)
  {
    var m := Max(|a| + 1, |b|);
    assert Pad(a + [0], m) == Pad(a, m);
    CompareSegmentsAt(a, b, m);
  }

  /**
   * A trailing ".0" segment never changes the answer between well-formed
   * versions ("1" and "1.0" are the same version).
   */
  lemma CompareIgnoresTrailingZero(v1: string, v2: string)
    requires WellFormed(v1) && WellFormed(v2)
    ensures Compare(v1 + ".0", v2) == Compare(v1, v2)
    ensures Compare(v1, v2 + ".0") == Compare(v1, v2)
  {
    ParseAppendZero(v1);
    ParseAppendZero(v2);
    CompareSegmentsTrailingZero(ParseVersion(v1).value, ParseVersion(v2).value);
    CompareSegmentsTrailingZero(ParseVersion(v2).value, ParseVersion(v1).value);
    CompareAntisymmetric(v1, v2 + ".0");
    CompareAntisymmetric(v1, v2);
  }

  lemma DigitExamples()
    ensures IsSegment("0") && DigitsValue("0") == 0
    ensures IsSegment("1") && DigitsValue("1") == 1
    ensures IsSegment("2") && DigitsValue("2") == 2
    ensures IsSegment("3") && DigitsValue("3") == 3
    ensures IsSegment("9") && DigitsValue("9") == 9
    ensures IsSegment("10") && DigitsValue("10") == 10
    ensures !IsSegment("5x")
  {
    assert "0"[..0] == "" && "1"[..0] == "" && "2"[..0] == "" && "3"[..0] == "" && "9"[..0] == "";
    assert "10"[..1] == "1";
    assert "5x"[1] == 'x';
  }

  lemma ParseOne(x: string)
    requires IsSegment(x)
    ensures ParseSegments([x]) == Some([DigitsValue(x)])
  {
    assert ParseSegments([]) == Some([]);
    ParseSegmentsSnoc([], x);
    assert [] + [x] == [x];
    assert ParseSegments([x]) == Some([] + [DigitsValue(x)]);
    assert [] + [DigitsValue(x)] == [DigitsValue(x)];
  }

  /** ParseVersion of "x.y" and "x.y.z" for digit pieces. */
  lemma ParseTwo(x: string, y: string)
    requires IsSegment(x) && IsSegment(y) && '.' !in x && '.' !in y
    ensures ParseVersion(x + "." + y) == Some([DigitsValue(x), DigitsValue(y)])
  {
    SplitTwo(x, y);
    ParseTwoPieces(x, y);
  }

  lemma SplitTwo(x: string, y: string)
    requires '.' !in x && '.' !in y
    ensures SplitDots(x + "." + y) == [x, y]
  {
    SplitDotsCons(x, y);
    SplitDotsNoDot(y);
  }

  lemma SplitThree(x: string, y: string, z: string)
    requires '.' !in x && '.' !in y && '.' !in z
    ensures SplitDots(x + "." + y + "." + z) == [x, y, z]
  {
    var tail := y + "." + z;
    assert x + "." + y + "." + z == x + "." + tail;
    SplitTwo(y, z);
    SplitDotsCons(x, tail);
  }

  lemma ParseThree(x: string, y: string, z: string)
    requires IsSegment(x) && IsSegment(y) && IsSegment(z)
    requires '.' !in x && '.' !in y && '.' !in z
    ensures ParseVersion(x + "." + y + "." + z) == Some([DigitsValue(x), DigitsValue(y), DigitsValue(z)])
  {
    SplitThree(x, y, z);
    ParseTwoPieces(x, y);
    assert [x, y, z] == [x, y] + [z];
    ParseSegmentsSnoc([x, y], z);
    assert [DigitsValue(x), DigitsValue(y)] + [DigitsValue(z)] == [DigitsValue(x), DigitsValue(y), DigitsValue(z)];
  }

  lemma ParseTwoPieces(x: string, y: string)
    requires IsSegment(x) && IsSegment(y)
    ensures ParseSegments([x, y]) == Some([DigitsValue(x), DigitsValue(y)])
  {
    ParseOne(x);
    ParseSegmentsSnoc([x], y);
    assert [x] + [y] == [x, y];
    assert [DigitsValue(x)] + [DigitsValue(y)] == [DigitsValue(x), DigitsValue(y)];
  }

  lemma NotParsed(x: string, y: string)
    requires '.' !in x && '.' !in y && !IsSegment(y)
    ensures ParseVersion(x + "." + y).None?
  {
    SplitDotsCons(x, y);
    SplitDotsNoDot(y);
    assert SplitDots(x + "." + y)[1] == y;
  }

  /** "2.0" is newer than "1.0". */
  lemma CompareTwoOne()
    ensures Compare("2.0", "1.0") == 1
  {
    DigitExamples();
    assert "2.0" == "2" + "." + "0" && "1.0" == "1" + "." + "0";
    ParseTwo("2", "0");
    ParseTwo("1", "0");
    assert Pad([2, 0], 2) == [2, 0] && Pad([1, 0], 2) == [1, 0];
  }

  /** "1.2.3" is newer than "1.2.1". */
  lemma CompareThreeSegments()
    ensures Compare("1.2.3", "1.2.1") == 1
  {
    DigitExamples();
    assert "1.2.3" == "1" + "." + "2" + "." + "3";
    assert "1.2.1" == "1" + "." + "2" + "." + "1";
    ParseThree("1", "2", "3");
    ParseThree("1", "2", "1");
    assert Pad([1, 2, 3], 3) == [1, 2, 3] && Pad([1, 2, 1], 3) == [1, 2, 1];
  }

  /** The comparisons the test suite asserts. */
  lemma CompareExamples()
    ensures Compare("2.0", "1.0") == 1
    ensures Compare("1.0", "2.0") == -1
    ensures Compare("1.0", "1.0") == 0
    ensures Compare("1.2.3", "1.2.1") == 1
  {
    CompareTwoOne();
    CompareThreeSegments();
    CompareAntisymmetric("1.0", "2.0");
    CompareReflexive("1.0");
  }

  /**
   * Outside well-formed versions there is no order at all: "1.10" is newer
   * than "1.9" numerically, "1.9" is after "1.5x" as text, and "1.5x" is
   * after "1.10" as text.
   */
  lemma MixedVersionsCycle()
    ensures Compare("1.10", "1.9") == 1
    ensures Compare("1.9", "1.5x") == 1
    ensures Compare("1.5x", "1.10") == 1
  {
    DigitExamples();
    assert "1.10" == "1" + "." + "10" && "1.9" == "1" + "." + "9" && "1.5x" == "1" + "." + "5x";
    ParseTwo("1", "10");
    ParseTwo("1", "9");
    NotParsed("1", "5x");
    assert Pad([1, 10], 2) == [1, 10] && Pad([1, 9], 2) == [1, 9];
    assert CompareText("1.9", "1.5x") == CompareText(".9", ".5x") == CompareText("9", "5x");
    assert CompareText("1.5x", "1.10") == CompareText(".5x", ".10") == CompareText("5x", "10");
  }
}
