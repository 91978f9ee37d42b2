/**
 * The string operations the application relies on, written out over
 * `seq<char>` (a sequence of Unicode scalar values): the UTF-16 length and the
 * relational `<` of JavaScript strings, `String.prototype.trim`, a lower-case
 * fold and `String.prototype.includes`.
 */
module Strings {

  /** The UTF-16 code units that encode one character. */
  function CodeUnits(c: char): (u: seq<int>)
    ensures 1 <= |u| <= 2
    ensures |u| == 1 <==> (c as int) < 0x10000
    ensures forall i :: 0 <= i < |u| ==> 0 <= u[i] < 0x10000
    ensures |u| == 1 ==> u[0] == c as int
    ensures |u| == 2 ==> 0xD800 <= u[0] < 0xDC00 && 0xDC00 <= u[1] < 0xE000
  {
    var n := c as int;
    if n < 0x10000 then [n]
    else [0xD800 + (n - 0x10000) / 0x400, 0xDC00 + (n - 0x10000) % 0x400]
  }

  /** `s.length`: the number of UTF-16 code units of `s`. */
  function Utf16Length(s: string): (n: nat)
    ensures |s| <= n <= 2 * |s|
    decreases |s|
  {
    if s == [] then 0 else Utf16Length(s[..|s| - 1]) + |CodeUnits(s[|s| - 1])|
  }

  /** A string of characters below U+10000 has one code unit per character. */
  lemma {:induction false} Utf16LengthBmp(s: string)
    requires forall i :: 0 <= i < |s| ==> (s[i] as int) < 0x10000
    ensures Utf16Length(s) == |s|
    decreases |s|
  {
    if s != [] { Utf16LengthBmp(s[..|s| - 1]); }
  }

  /** A string of characters above U+FFFF has two code units per character. */
  lemma {:induction false} Utf16LengthAstral(s: string)
    requires forall i :: 0 <= i < |s| ==> (s[i] as int) >= 0x10000
    ensures Utf16Length(s) == 2 * |s|
    decreases |s|
  {
    if s != [] { Utf16LengthAstral(s[..|s| - 1]); }
  }

  /**
   * The place of a character in the order of its code units: characters
   * below U+D800 first, then those above U+FFFF (whose lead unit is a
   * surrogate, 0xD800..0xDBFF), then U+E000..U+FFFF.
   */
  function UnitRank(c: char): int {
    var n := c as int;
    if n < 0xD800 then n
    else if n >= 0x10000 then n - 0x10000 + 0xD800
    else n + 0x100000
  }

  /** Lexicographic order on code-unit sequences. */
  predicate UnitsBefore(u: seq<int>, v: seq<int>) {
    if |u| == 0 then |v| > 0
    else if |v| == 0 then false
    else if u[0] != v[0] then u[0] < v[0]
    else UnitsBefore(u[1..], v[1..])
  }

  /**
   * Ranking two different characters orders them as their code units do,
   * and no two characters share a rank.
   */
  lemma UnitRankOrdersCodeUnits(c: char, d: char)
    requires c != d
    ensures UnitRank(c) != UnitRank(d)
    ensures UnitRank(c) < UnitRank(d) <==> UnitsBefore(CodeUnits(c), CodeUnits(d))
  {
  }

  /**
   * `a < b` on JavaScript strings: lexicographic order on UTF-16 code units,
   * decided at the first character where the strings differ.
   */
  predicate Less(a: string, b: string) {
    if |a| == 0 then |b| > 0
    else if |b| == 0 then false
    else if a[0] != b[0] then UnitRank(a[0]) < UnitRank(b[0])
    else Less(a[1..], b[1..])
  }

  /** The UTF-16 code units of a whole string, character by character. */
  function Units(s: string): (u: seq<int>)
    ensures |s| <= |u| <= 2 * |s|
  {
    if s == [] then [] else CodeUnits(s[0]) + Units(s[1..])
  }

  /** Two different characters' encodings differ at a position both of them have. */
  lemma CodeUnitsDiffer(c: char, d: char)
    requires c != d
    ensures exists k :: 0 <= k < |CodeUnits(c)| && k < |CodeUnits(d)| && CodeUnits(c)[k] != CodeUnits(d)[k]
  {
    var u, v := CodeUnits(c), CodeUnits(d);
    if u[0] == v[0] {
      var n, m := c as int, d as int;
      assert n >= 0x10000 && m >= 0x10000;
      assert (n - 0x10000) / 0x400 == (m - 0x10000) / 0x400;
      assert (n - 0x10000) % 0x400 != (m - 0x10000) % 0x400;
      assert u[1] != v[1];
    }
  }

  /** Code-unit order is decided at a position where the two sides differ, whatever follows. */
  lemma {:induction false} UnitsBeforeDecided(x: seq<int>, y: seq<int>, u: seq<int>, v: seq<int>, k: nat)
    requires k < |x| && k < |y| && x[k] != y[k]
    ensures UnitsBefore(x + u, y + v) <==> UnitsBefore(x, y)
    decreases k
  {
    if x[0] == y[0] {
      assert (x + u)[1..] == x[1..] + u && (y + v)[1..] == y[1..] + v;
      UnitsBeforeDecided(x[1..], y[1..], u, v, k - 1);
    }
  }

  /** A common prefix does not change code-unit order. */
  lemma {:induction false} UnitsBeforeCommonPrefix(p: seq<int>, u: seq<int>, v: seq<int>)
    ensures UnitsBefore(p + u, p + v) <==> UnitsBefore(u, v)
    decreases |p|
  {
    if p != [] {
      assert (p + u)[1..] == p[1..] + u && (p + v)[1..] == p[1..] + v;
      UnitsBeforeCommonPrefix(p[1..], u, v);
    } else {
      assert p + u == u && p + v == v;
    }
  }

  /** `Less` is exactly lexicographic order on the strings' UTF-16 code units. */
  lemma {:induction false} LessIsCodeUnitOrder(a: string, b: string)
    ensures Less(a, b) <==> UnitsBefore(Units(a), Units(b))
    decreases |a|
  {
    if |a| > 0 && |b| > 0 {
      if a[0] != b[0] {
        UnitRankOrdersCodeUnits(a[0], b[0]);
        CodeUnitsDiffer(a[0], b[0]);
        var k :| 0 <= k < |CodeUnits(a[0])| && k < |CodeUnits(b[0])| && CodeUnits(a[0])[k] != CodeUnits(b[0])[k];
        UnitsBeforeDecided(CodeUnits(a[0]), CodeUnits(b[0]), Units(a[1..]), Units(b[1..]), k);
      } else {
        UnitsBeforeCommonPrefix(CodeUnits(a[0]), Units(a[1..]), Units(b[1..]));
        LessIsCodeUnitOrder(a[1..], b[1..]);
      }
    }
  }

  /** U+E000 sorts after U+10000: its one code unit exceeds the lead surrogate 0xD800. */
  lemma SurrogateOrder()
    ensures Less("\U{10000}", "\U{E000}") && !Less("\U{E000}", "\U{10000}")
  {
  }

  lemma {:induction false} LessIrreflexive(a: string)
    ensures !Less(a, a)
  {
    if |a| > 0 { LessIrreflexive(a[1..]); }
  }

  lemma {:induction false} LessAsymmetric(a: string, b: string)
    ensures Less(a, b) ==> !Less(b, a)
  {
    if |a| > 0 && |b| > 0 && a[0] == b[0] { LessAsymmetric(a[1..], b[1..]); }
  }

  lemma {:induction false} LessTransitive(a: string, b: string, c: string)
    requires Less(a, b) && Less(b, c)
    ensures Less(a, c)
  {
    if |a| > 0 && |b| > 0 && |c| > 0 && a[0] == b[0] && b[0] == c[0] {
      LessTransitive(a[1..], b[1..], c[1..]);
    } else if |a| > 0 && |b| > 0 && |c| > 0 && a[0] != c[0] {
      UnitRankOrdersCodeUnits(a[0], c[0]);
    }
  }

  /** Two different strings are always ordered one way or the other. */
  lemma {:induction false} LessTotal(a: string, b: string)
    ensures a == b || Less(a, b) || Less(b, a)
  {
    if |a| > 0 && |b| > 0 && a[0] == b[0] {
      LessTotal(a[1..], b[1..]);
      if a[1..] == b[1..] {
        assert a == [a[0]] + a[1..] && b == [b[0]] + b[1..];
      }
    } else if |a| > 0 && |b| > 0 {
      UnitRankOrdersCodeUnits(a[0], b[0]);
    }
  }

  /**
   * The characters `String.prototype.trim` strips: the ECMAScript WhiteSpace
   * set (TAB, VT, FF, ZWNBSP and the Unicode space separators) and the
   * LineTerminator set (LF, CR, LS, PS).
   */
  predicate IsSpace(c: char) {
    var n := c as int;
    n == 0x09 || n == 0x0A || n == 0x0B || n == 0x0C || n == 0x0D || n == 0x20 ||
    n == 0xA0 || n == 0x1680 || (0x2000 <= n <= 0x200A) ||
    n == 0x2028 || n == 0x2029 || n == 0x202F || n == 0x205F || n == 0x3000 || n == 0xFEFF
  }

  predicate AllSpace(s: string) {
    forall i :: 0 <= i < |s| ==> IsSpace(s[i])
  }

  function TrimStart(s: string): (r: string)
    ensures |r| <= |s| && r == s[|s| - |r|..]
    ensures r == [] || !IsSpace(r[0])
    ensures AllSpace(s[..|s| - |r|])
  {
    if |s| > 0 && IsSpace(s[0]) then
      var r := TrimStart(s[1..]);
      assert s[1..][..|s| - 1 - |r|] == s[1..|s| - |r|];
      r
    else s
  }

  function TrimEnd(s: string): (r: string)
    ensures |r| <= |s| && r == s[..|r|]
    ensures r == [] || !IsSpace(r[|r| - 1])
    ensures AllSpace(s[|r|..])
  {
    if |s| > 0 && IsSpace(s[|s| - 1]) then
      var r := TrimEnd(s[..|s| - 1]);
      assert s[|r|..] == s[..|s| - 1][|r|..] + [s[|s| - 1]];
      r
    else s
  }

  /**
   * `s.trim()`: `s` without its leading and trailing white space. Every
   * white-space character is below U+10000, so trimming by characters and
   * by code units agree.
   */
  function Trim(s: string): (r: string)
    ensures |r| <= |s|
    ensures r == [] || (!IsSpace(r[0]) && !IsSpace(r[|r| - 1]))
    ensures exists i, j :: 0 <= i <= j <= |s| && r == s[i..j] && AllSpace(s[..i]) && AllSpace(s[j..])
  {
    var t := TrimStart(s);
    var r := TrimEnd(t);
    SliceInSlice(s, t, r);
    r
  }

  /** A prefix `r` of a suffix `t` of `s`, each cut off white space only, is a slice of `s` with white space around it. */
  lemma SliceInSlice(s: string, t: string, r: string)
    requires |t| <= |s| && t == s[|s| - |t|..] && AllSpace(s[..|s| - |t|])
    requires |r| <= |t| && r == t[..|r|] && AllSpace(t[|r|..])
    ensures exists i, j :: 0 <= i <= j <= |s| && r == s[i..j] && AllSpace(s[..i]) && AllSpace(s[j..])
  {
    var i, j := |s| - |t|, |s| - |t| + |r|;
    assert r == s[i..j];
    assert s[j..] == t[|r|..];
  }

  /** A string that neither begins nor ends with white space trims to itself. */
  lemma TrimKeeps(s: string)
    requires s == [] || (!IsSpace(s[0]) && !IsSpace(s[|s| - 1]))
    ensures Trim(s) == s
  {
  }

  lemma {:induction false} TrimStartAllSpace(s: string)
    requires AllSpace(s)
    ensures TrimStart(s) == []
  {
    if |s| > 0 { TrimStartAllSpace(s[1..]); }
  }

  /** A string trims to nothing exactly when it is made of white space only. */
  lemma TrimEmptyIffAllSpace(s: string)
    ensures Trim(s) == [] <==> AllSpace(s)
  {
    var t := TrimStart(s);
    if Trim(s) == [] {
      assert AllSpace(t[0..]) && t[0..] == t;
      assert s == s[..|s| - |t|] + t;
    }
    if AllSpace(s) { TrimStartAllSpace(s); }
  }

  /** `toLowerCase`, folded on the ASCII letters. */
  function LowerChar(c: char): char {
    if 'A' <= c <= 'Z' then (c as int + 32) as char else c
  }

  function Lower(s: string): (r: string)
    ensures |r| == |s|
    ensures forall i :: 0 <= i < |s| ==> r[i] == LowerChar(s[i])
  {
    if s == [] then [] else [LowerChar(s[0])] + Lower(s[1..])
  }

  /** `s.includes(sub)`: `sub` occurs in `s` at some offset. */
  predicate Contains(s: string, sub: string): (b: bool)
    ensures sub == [] ==> b
    ensures b ==> |sub| <= |s|
    ensures |sub| <= |s| && s[..|sub|] == sub ==> b
  {
    assert |sub| <= |s| ==> OccursAt(s, sub, 0) == (s[..|sub|] == sub);
    exists i :: 0 <= i <= |s| - |sub| && OccursAt(s, sub, i)
  }

  predicate OccursAt(s: string, sub: string, i: int)
    requires 0 <= i <= |s| - |sub|
  {
    s[i..i + |sub|] == sub
  }
}
