/** String operations of the JavaScript runtime that the modelled code relies
    on: the `\s` character class, `trim`, `join`, `includes`, the case
    mappings and the decimal rendering of a number. */
module Text {

  /** JavaScript's white space and line terminators: the set matched by the
      regular-expression class `\s` and removed by `String.prototype.trim`. */
  predicate IsSpace(c: char)
    ensures c == ' ' || c == '\t' || c == '\n' || c == '\r' || c == '\U{00A0}' ==> IsSpace(c)
  {
    || ('\t' <= c <= '\r')
    || c == ' ' || c == '\U{00A0}' || c == '\U{1680}'
    || ('\U{2000}' <= c <= '\U{200A}')
    || c == '\U{2028}' || c == '\U{2029}' || c == '\U{202F}'
    || c == '\U{205F}' || c == '\U{3000}' || c == '\U{FEFF}'
  }

  /** The regular-expression class `\d`: ASCII digits only. */
  predicate IsDigit(c: char)
  {
    '0' <= c <= '9'
  }

  predicate AllSpaces(s: string)
  {
    forall i :: 0 <= i < |s| ==> IsSpace(s[i])
  }

  /** The end of the white space that starts at `i`. */
  function SkipForward(s: string, i: nat): (j: nat)
    requires i <= |s|
    ensures i <= j <= |s| && (forall k :: i <= k < j ==> IsSpace(s[k]))
    ensures j < |s| ==> !IsSpace(s[j])
    decreases |s| - i
  {
    if i < |s| && IsSpace(s[i]) then SkipForward(s, i + 1) else i
  }

  /** The start of the white space that ends at `j`. */
  function SkipBackward(s: string, j: nat): (i: nat)
    requires j <= |s|
    ensures i <= j && (forall k :: i <= k < j ==> IsSpace(s[k]))
    ensures i > 0 ==> !IsSpace(s[i - 1])
  {
    if j > 0 && IsSpace(s[j - 1]) then SkipBackward(s, j - 1) else j
  }

  /** Number of leading white-space characters. */
  function Lead(s: string): (n: nat)
    ensures n <= |s| && AllSpaces(s[..n])
    ensures n < |s| ==> !IsSpace(s[n])
  {
    var n := SkipForward(s, 0);
    assert forall k :: 0 <= k < n ==> s[..n][k] == s[k];
    n
  }

  /** Number of trailing white-space characters. */
  function Trail(s: string): (n: nat)
    ensures n <= |s| && AllSpaces(s[|s| - n..])
    ensures n < |s| ==> !IsSpace(s[|s| - n - 1])
  {
    var i := SkipBackward(s, |s|);
    assert forall k :: 0 <= k < |s| - i ==> s[i..][k] == s[i + k];
    |s| - i
  }

  /** Neither end of the text is white space. */
  predicate IsTrimmed(s: string)
  {
    s != [] ==> !IsSpace(s[0]) && !IsSpace(s[|s| - 1])
  }

  predicate StartsWith(s: string, p: string)
  {
    |p| <= |s| && s[..|p|] == p
  }

  predicate EndsWith(s: string, p: string)
  {
    |p| <= |s| && s[|s| - |p|..] == p
  }

  /** `String.prototype.trim`: the text without its leading and trailing
      white space. */
  function Trim(s: string): (r: string)
    ensures Lead(s) + |r| <= |s|
    ensures r == s[Lead(s)..Lead(s) + |r|]
    ensures AllSpaces(s[..Lead(s)]) && AllSpaces(s[Lead(s) + |r|..])
    ensures IsTrimmed(r)
  {
    var a := Lead(s);
    var t := s[a..];
    var b := |s| - Trail(t);
    assert t[|t| - Trail(t)..] == s[b..];
    if a == b then [] else
      assert s[a] == t[0] && s[b - 1] == t[|t| - Trail(t) - 1];
      assert !IsSpace(s[a]) && !IsSpace(s[b - 1]);
      s[a..b]
  }

  /** Trimming removes white space only at the ends: a text that neither
      starts nor ends with white space is left as it is. */
  lemma TrimKeepsTrimmed(s: string)
    requires IsTrimmed(s)
    ensures Trim(s) == s
  {
    if s != [] {
      assert Lead(s) == 0;
      assert Trail(s) == 0;
    }
  }

  /** Trimming twice is trimming once. */
  lemma TrimIdempotent(s: string)
    ensures Trim(Trim(s)) == Trim(s)
  {
    TrimKeepsTrimmed(Trim(s));
  }

  /** The trimmed text is empty exactly when the text is blank. */
  lemma TrimEmptyIffBlank(s: string)
    ensures Trim(s) == [] <==> AllSpaces(s)
  {
    var r := Trim(s);
    if r == [] {
      assert Lead(s) == |s|;
      assert s[..Lead(s)] == s;
    } else {
      assert s[Lead(s)] == r[0];
    }
  }

  /** Trimming a text that starts, after white space, with a piece that
      begins and ends with a visible character keeps that piece in front. */
  lemma TrimStartsWith(pre: string, p: string, rest: string)
    requires AllSpaces(pre) && p != [] && IsTrimmed(p)
    ensures StartsWith(Trim(pre + p + rest), p)
  {
    var s := pre + p + rest;
    var n := Lead(s);
    assert s[|pre|] == p[0];
    assert n == |pre|;
    var r := Trim(s);
    var last := |pre| + |p| - 1;
    assert s[last] == p[|p| - 1];
    assert s[n..n + |p|] == p;
  }

  /** The lengths of the parts added up. */
  function TotalLength(parts: seq<string>): nat
  {
    if parts == [] then 0 else |parts[0]| + TotalLength(parts[1..])
  }

  /** `Array.prototype.join(sep)` on an array of strings: the parts with one
      separator between each two neighbours and none at either end. */
  function Join(sep: string, parts: seq<string>): string
  {
    if |parts| == 0 then ""
    else if |parts| == 1 then parts[0]
    else parts[0] + sep + Join(sep, parts[1..])
  }

  /** A join is as long as its parts and one separator for each two
      neighbours: empty for no parts, and nothing added at either end. */
  lemma {:induction false} JoinLength(sep: string, parts: seq<string>)
    ensures |parts| == 0 ==> Join(sep, parts) == ""
    ensures |parts| > 0 ==> |Join(sep, parts)| == TotalLength(parts) + (|parts| - 1) * |sep|
  {
    if |parts| > 1 {
      JoinLength(sep, parts[1..]);
      assert (|parts| - 1) * |sep| == |sep| + (|parts| - 2) * |sep|;
    } else if |parts| == 1 {
      assert parts[1..] == [];
    }
  }

  /** `String.prototype.includes`: `sub` occurs somewhere inside `s`. */
  predicate Contains(s: string, sub: string)
    ensures Contains(s, sub) ==> |sub| <= |s|
  {
    exists i :: 0 <= i <= |s| - |sub| && OccursAt(s, sub, i)
  }

  predicate OccursAt(s: string, sub: string, i: int)
  {
    0 <= i <= |s| - |sub| && s[i..i + |sub|] == sub
  }

  lemma ContainsEmpty(s: string)
    ensures Contains(s, "")
  {
    assert OccursAt(s, "", 0);
  }

  lemma ContainsSelf(s: string)
    ensures Contains(s, s)
  {
    assert s[0..|s|] == s;
    assert OccursAt(s, s, 0);
  }

  lemma ContainsLeft(a: string, b: string)
    ensures Contains(a + b, a)
  {
    assert (a + b)[0..|a|] == a;
    assert OccursAt(a + b, a, 0);
  }

  lemma ContainsRight(a: string, b: string)
    ensures Contains(a + b, b)
  {
    assert (a + b)[|a|..|a| + |b|] == b;
    assert OccursAt(a + b, b, |a|);
  }

  /** A piece occurs in any text built around it. */
  lemma ContainsMiddle(a: string, b: string, c: string)
    ensures Contains(a + b + c, b)
  {
    ContainsRight(a, b);
    ContainsLeft(a + b, c);
    ContainsTransitive(a + b + c, a + b, b);
  }

  lemma StartsWithContains(s: string, p: string)
    requires StartsWith(s, p)
    ensures Contains(s, p)
  {
    assert OccursAt(s, p, 0);
  }

  /** A piece of a piece of a text is a piece of the text. */
  lemma ContainsTransitive(s: string, m: string, sub: string)
    requires Contains(s, m) && Contains(m, sub)
    ensures Contains(s, sub)
  {
    var i :| 0 <= i <= |s| - |m| && OccursAt(s, m, i);
    var j :| 0 <= j <= |m| - |sub| && OccursAt(m, sub, j);
    assert forall k :: 0 <= k < |sub| ==> s[i + j + k] == m[j + k] == sub[k];
    assert s[i + j..i + j + |sub|] == sub;
    assert OccursAt(s, sub, i + j);
  }

  /** A text that continues a prefix keeps continuing it behind a common head. */
  lemma StartsWithBehind(a: string, x: string, p: string)
    requires StartsWith(x, p)
    ensures StartsWith(a + x, a + p)
  {
    assert forall k :: 0 <= k < |a + p| ==> (a + x)[k] == (a + p)[k];
    assert (a + x)[..|a + p|] == a + p;
  }

  /** A text whose first and last characters are visible is trimmed, whatever
      lies between them. */
  lemma VisibleEnds(a: string, m: string, b: string)
    requires a != [] && b != [] && !IsSpace(a[0]) && !IsSpace(b[|b| - 1])
    ensures IsTrimmed(a + m + b)
  {
    var s := a + m + b;
    assert s[0] == a[0];
    assert s[|s| - 1] == b[|b| - 1];
  }

  /** A piece that neither starts nor ends with white space survives
      trimming the text it occurs in. */
  lemma ContainsSurvivesTrim(s: string, b: string)
    requires Contains(s, b) && b != [] && IsTrimmed(b)
    ensures Contains(Trim(s), b)
  {
    var i :| 0 <= i <= |s| - |b| && OccursAt(s, b, i);
    InsideSpaces(s, Trim(s), Lead(s), b, i);
  }

  /** A trimmed piece of `s` lies inside the part `r` of `s` that only white
      space surrounds. */
  lemma InsideSpaces(s: string, r: string, a: nat, b: string, i: nat)
    requires a + |r| <= |s| && r == s[a..a + |r|] && AllSpaces(s[..a]) && AllSpaces(s[a + |r|..])
    requires OccursAt(s, b, i) && b != [] && IsTrimmed(b)
    ensures Contains(r, b)
  {
    EndsVisible(s, b, i);
    SpacesBefore(s, a, i);
    SpacesAfter(s, a + |r|, i + |b| - 1);
    OccursInside(s, r, a, b, i);
  }

  /** The first and last characters of a trimmed piece are visible where it
      occurs. */
  lemma EndsVisible(s: string, b: string, i: nat)
    requires OccursAt(s, b, i) && b != [] && IsTrimmed(b)
    ensures i + |b| <= |s| && !IsSpace(s[i]) && !IsSpace(s[i + |b| - 1])
  {
    assert s[i] == b[0];
    assert s[i + |b| - 1] == b[|b| - 1];
  }

  lemma OccursInside(s: string, r: string, a: nat, b: string, i: nat)
    requires a + |r| <= |s| && r == s[a..a + |r|]
    requires a <= i && i + |b| <= a + |r| && OccursAt(s, b, i)
    ensures Contains(r, b)
  {
    SliceInside(s, a, a + |r|, i, |b|);
    assert OccursAt(r, b, i - a);
  }

  /** A piece of a slice is the same piece of the whole text. */
  lemma SliceInside(s: string, lo: nat, hi: nat, i: nat, n: nat)
    requires lo <= i && i + n <= hi <= |s|
    ensures s[lo..hi][i - lo..i - lo + n] == s[i..i + n]
  {
    var u := s[lo..hi][i - lo..i - lo + n];
    assert forall k :: 0 <= k < n ==> u[k] == s[i + k];
  }

  /** A visible character lies after a run of leading white space. */
  lemma SpacesBefore(s: string, n: nat, i: nat)
    requires n <= |s| && AllSpaces(s[..n]) && i < |s| && !IsSpace(s[i])
    ensures n <= i
  {
  }

  /** A visible character lies before a run of trailing white space. */
  lemma SpacesAfter(s: string, n: nat, i: nat)
    requires n <= |s| && AllSpaces(s[n..]) && i < |s| && !IsSpace(s[i])
    ensures i < n
  {
  }

  /** A joined list starts with its first part. */
  lemma JoinStartsWithFirst(sep: string, parts: seq<string>)
    requires |parts| > 0
    ensures StartsWith(Join(sep, parts), parts[0])
  {
    if |parts| > 1 {
      var j := Join(sep, parts);
      assert j == parts[0] + (sep + Join(sep, parts[1..]));
      assert j[..|parts[0]|] == parts[0];
    }
  }

  /** Every part occurs in the joined list. */
  lemma {:induction false} JoinHasPart(sep: string, parts: seq<string>, i: nat)
    requires i < |parts|
    ensures Contains(Join(sep, parts), parts[i])
  {
    if |parts| == 1 {
      ContainsSelf(parts[0]);
    } else if i == 0 {
      JoinStartsWithFirst(sep, parts);
      StartsWithContains(Join(sep, parts), parts[0]);
    } else {
      JoinHasPart(sep, parts[1..], i - 1);
      ContainsRight(parts[0] + sep, Join(sep, parts[1..]));
      ContainsTransitive(Join(sep, parts), Join(sep, parts[1..]), parts[i]);
    }
  }

  /** Neighbouring parts occur in the joined list with the separator between
      them, so the parts keep their order. */
  lemma {:induction false} JoinHasNeighbours(sep: string, parts: seq<string>, i: nat)
    requires i + 1 < |parts|
    ensures Contains(Join(sep, parts), parts[i] + sep + parts[i + 1])
  {
    var tail := Join(sep, parts[1..]);
    if i == 0 {
      JoinStartsWithFirst(sep, parts[1..]);
      StartsWithBehind(parts[0] + sep, tail, parts[1]);
      StartsWithContains(Join(sep, parts), parts[0] + sep + parts[1]);
    } else {
      JoinHasNeighbours(sep, parts[1..], i - 1);
      ContainsRight(parts[0] + sep, tail);
      ContainsTransitive(Join(sep, parts), tail, parts[i] + sep + parts[i + 1]);
    }
  }

  /** `toLowerCase` on one character, for the Basic Latin and Latin-1
      ranges: A-Z and the Latin-1 capitals (U+00C0..U+00DE except the
      multiplication sign) move down by 0x20; every other character is kept. */
  function LowerChar(c: char): char
  {
    if 'A' <= c <= 'Z' || ('\U{00C0}' <= c <= '\U{00DE}' && c != '\U{00D7}')
    then (c as int + 32) as char
    else c
  }

  function Lower(s: string): (r: string)
    ensures |r| == |s|
    ensures forall i :: 0 <= i < |s| ==> r[i] == LowerChar(s[i])
  {
    seq(|s|, i requires 0 <= i < |s| => LowerChar(s[i]))
  }

  /** `toUpperCase` on one character, for the Basic Latin and Latin-1
      ranges: a-z and the Latin-1 small letters move up by 0x20, y with
      diaeresis becomes U+0178, the micro sign becomes capital mu and sharp s
      becomes "SS"; every other character is kept. */
  function UpperChar(c: char): (r: string)
    ensures 1 <= |r| <= 2 && (|r| == 2 <==> c == '\U{00DF}')
    ensures !('a' <= c <= 'z') && !('\U{00B5}' <= c <= '\U{00FF}') ==> r == [c]
  {
    if 'a' <= c <= 'z' || ('\U{00E0}' <= c <= '\U{00FE}' && c != '\U{00F7}')
    then [(c as int - 32) as char]
    else if c == '\U{00FF}' then ['\U{0178}']
    else if c == '\U{00B5}' then ['\U{039C}']
    else if c == '\U{00DF}' then "SS"
    else [c]
  }

  /** `toUpperCase`: each character mapped on its own, so the text never
      gets shorter. */
  function Upper(s: string): (r: string)
    ensures |r| >= |s|
  {
    if s == [] then "" else UpperChar(s[0]) + Upper(s[1..])
  }

  /** The text grows by one character for each sharp s and keeps its length
      otherwise. */
  lemma {:induction false} UpperLength(s: string)
    ensures |Upper(s)| == |s| + multiset(s)['\U{00DF}']
  {
    if s != [] {
      assert s == [s[0]] + s[1..];
      UpperLength(s[1..]);
    }
  }

  /** Decimal rendering of a natural number, as template literals print it. */
  function NatToString(n: nat): (r: string)
    ensures |r| >= 1
    ensures forall i :: 0 <= i < |r| ==> IsDigit(r[i])
    ensures |r| > 1 ==> r[0] != '0'
  {
    if n < 10 then [DigitChar(n)]
    else NatToString(n / 10) + [DigitChar(n % 10)]
  }

  function DigitChar(d: nat): (c: char)
    requires d < 10
    ensures IsDigit(c) && DigitValue(c) == d
  {
    ('0' as int + d) as char
  }

  function DigitValue(c: char): nat
    requires IsDigit(c)
  {
    c as int - '0' as int
  }

  /** Reads a string of digits as a decimal number. */
  function ParseNat(s: string): nat
    requires forall i :: 0 <= i < |s| ==> IsDigit(s[i])
  {
    if s == [] then 0 else 10 * ParseNat(s[..|s| - 1]) + DigitValue(s[|s| - 1])
  }

  /** The decimal rendering is read back as the same number, so distinct
      numbers (section and point numbers) render as distinct text. */
  lemma {:induction false} NatToStringRoundTrip(n: nat)
    ensures ParseNat(NatToString(n)) == n
  {
    if n >= 10 {
      NatToStringRoundTrip(n / 10);
      var r := NatToString(n);
      assert r[..|r| - 1] == NatToString(n / 10);
    }
  }

  lemma NatToStringInjective(m: nat, n: nat)
    ensures NatToString(m) == NatToString(n) ==> m == n
  {
    NatToStringRoundTrip(m);
    NatToStringRoundTrip(n);
  }
}
