/** The passage recogniser of the input form, the regular expression
        ^\s*(?:\d\s*)?[a-zA-ZÀ-ÿ\.]+\s+\d+(?:[:\.]\d+(?:-\d+)?)?\s*$
    written out twice: `Matches` says which texts the pattern accepts, as a
    split of the text into the pattern's pieces, and `Scan` reads a text from
    left to right the way the form checks it. `ScanIsMatch` proves that the
    two agree on every text. */
module PassageFormat {
  import opened Wrappers
  import opened Text

  /** The book-name class `[a-zA-ZÀ-ÿ.]`: ASCII letters, the code points
      U+00C0..U+00FF and the full stop. */
  predicate IsBookChar(c: char)
  {
    ('a' <= c <= 'z') || ('A' <= c <= 'Z') || ('\U{00C0}' <= c <= '\U{00FF}') || c == '.'
  }

  /** The character classes a run of the pattern is made of. */
  datatype Class = Space | Digit | BookChar

  predicate In(c: char, k: Class)
  {
    match k
    case Space => IsSpace(c)
    case Digit => IsDigit(c)
    case BookChar => IsBookChar(c)
  }

  predicate AllIn(w: string, k: Class)
  {
    forall i :: 0 <= i < |w| ==> In(w[i], k)
  }

  // ---------------------------------------------------------------------
  // The pattern, piece by piece

  /** `(?:\d\s*)?` */
  predicate Ordinal(w: string)
  {
    w == [] || (IsDigit(w[0]) && AllIn(w[1..], Space))
  }

  /** `\d+` */
  predicate Number(w: string)
  {
    w != [] && AllIn(w, Digit)
  }

  /** `(?:[:\.]\d+(?:-\d+)?)?` */
  ghost predicate Verse(w: string)
  {
    w == [] || (|w| >= 2 && (w[0] == ':' || w[0] == '.') && VerseRange(w[1..]))
  }

  /** `\d+(?:-\d+)?` */
  ghost predicate VerseRange(w: string)
  {
    Number(w) || exists g :: DashAt(w, g)
  }

  /** `w` is digits, a hyphen at `g`, digits. */
  predicate DashAt(w: string, g: int)
  {
    0 < g < |w| - 1 && w[g] == '-' && Number(w[..g]) && Number(w[g + 1..])
  }

  /** The text splits at these positions into leading space, ordinal, book
      name, gap, chapter, verse and trailing space. */
  ghost predicate SplitAt(s: string, a: int, b: int, c: int, d: int, e: int, f: int)
  {
    && 0 <= a <= b <= c <= d <= e <= f <= |s|
    && AllIn(s[..a], Space)
    && Ordinal(s[a..b])
    && c > b && AllIn(s[b..c], BookChar)
    && d > c && AllIn(s[c..d], Space)
    && Number(s[d..e])
    && Verse(s[e..f])
    && AllIn(s[f..], Space)
  }

  /** The texts the pattern accepts as a whole. */
  ghost predicate Matches(s: string)
    ensures Matches(s) ==> |s| >= 3
    ensures Matches(s) ==> exists k :: 0 <= k < |s| && IsDigit(s[k])
  {
    SplitHasDigit(s);
    exists a, b, c, d, e, f :: SplitAt(s, a, b, c, d, e, f)
  }

  /** A split has a chapter number, so the text has a digit. */
  lemma SplitHasDigit(s: string)
    ensures (exists a, b, c, d, e, f :: SplitAt(s, a, b, c, d, e, f)) ==>
      exists k :: 0 <= k < |s| && IsDigit(s[k])
  {
    if exists a, b, c, d, e, f :: SplitAt(s, a, b, c, d, e, f) {
      var a, b, c, d, e, f :| SplitAt(s, a, b, c, d, e, f);
      assert s[d..e][0] == s[d];
    }
  }

  // ---------------------------------------------------------------------
  // The scanner

  /** The end of the longest run of class `k` from position `i`. */
  function Span(s: string, i: nat, k: Class): (j: nat)
    requires i <= |s|
    ensures i <= j <= |s| && AllIn(s[i..j], k)
    ensures j < |s| ==> !In(s[j], k)
    decreases |s| - i
  {
    if i < |s| && In(s[i], k) then
      var j := Span(s, i + 1, k);
      assert s[i..j] == [s[i]] + s[i + 1..j];
      j
    else i
  }

  /** A run that cannot be extended is the longest one. */
  lemma {:induction false} SpanIsMaximal(s: string, i: nat, j: nat, k: Class)
    requires i <= j <= |s| && AllIn(s[i..j], k) && (j < |s| ==> !In(s[j], k))
    ensures Span(s, i, k) == j
    decreases j - i
  {
    if i < j {
      assert s[i + 1..j] == s[i..j][1..];
      SpanIsMaximal(s, i + 1, j, k);
    }
  }

  /** The position after the verse part from `e` (`e` itself if there is
      none), or None when a separator or hyphen is not followed by digits. */
  function ScanVerse(s: string, e: nat): (r: Option<nat>)
    requires e <= |s|
    ensures r.Some? ==> e <= r.value <= |s|
  {
    if e < |s| && (s[e] == ':' || s[e] == '.') then
      var g := Span(s, e + 1, Digit);
      if g == e + 1 then None
      else if g < |s| && s[g] == '-' then
        var h := Span(s, g + 1, Digit);
        if h == g + 1 then None else Some(h)
      else Some(g)
    else Some(e)
  }

  /** The end of the optional ordinal at `a`: a digit and the space after it. */
  function OrdinalEnd(s: string, a: nat): (b: nat)
    requires a <= |s|
    ensures a <= b <= |s|
  {
    if a < |s| && IsDigit(s[a]) then Span(s, a + 1, Space) else a
  }

  /** The split positions the scanner finds, if the text is accepted. */
  function Scan(s: string): (r: Option<(nat, nat, nat, nat, nat, nat)>)
  {
    var a := Span(s, 0, Space);
    var b := OrdinalEnd(s, a);
    var c := Span(s, b, BookChar);
    var d := Span(s, c, Space);
    var e := Span(s, d, Digit);
    if c == b || d == c || e == d then None
    else match ScanVerse(s, e)
      case None => None
      case Some(f) => if Span(s, f, Space) == |s| then Some((a, b, c, d, e, f)) else None
  }


  // ---------------------------------------------------------------------
  // Agreement

  lemma OrdinalSound(s: string, a: nat)
    requires a <= |s|
    ensures Ordinal(s[a..OrdinalEnd(s, a)])
  {
    var b := OrdinalEnd(s, a);
    if b != a {
      assert s[a..b][1..] == s[a + 1..b];
    }
  }

  lemma VerseSound(s: string, e: nat)
    requires e <= |s| && ScanVerse(s, e).Some?
    ensures Verse(s[e..ScanVerse(s, e).value])
  {
    var f := ScanVerse(s, e).value;
    if f != e {
      var g := Span(s, e + 1, Digit);
      assert s[e..f][1..] == s[e + 1..f];
      var w := s[e + 1..f];
      if g < |s| && s[g] == '-' {
        assert w[..g - e - 1] == s[e + 1..g] && w[g - e..] == s[g + 1..f];
        assert DashAt(w, g - e - 1);
      } else {
        assert Number(w);
      }
    }
  }

  lemma EndsSound(s: string, f: nat)
    requires f <= |s|
    ensures AllIn(s[..Span(s, 0, Space)], Space)
    ensures Span(s, f, Space) == |s| ==> AllIn(s[f..], Space)
  {
    assert s[..Span(s, 0, Space)] == s[0..Span(s, 0, Space)];
    assert s[f..] == s[f..|s|];
  }

  /** Every piece the scanner reads is a piece of the pattern. */
  lemma ScanIsSound(s: string)
    requires Scan(s).Some?
    ensures var (a, b, c, d, e, f) := Scan(s).value; SplitAt(s, a, b, c, d, e, f)
  {
    var (a, b, c, d, e, f) := Scan(s).value;
    OrdinalSound(s, a);
    VerseSound(s, e);
    EndsSound(s, f);
  }

  /** Space, digits and book characters are disjoint classes. */
  lemma ClassesDisjoint(ch: char)
    ensures !(IsSpace(ch) && IsDigit(ch)) && !(IsSpace(ch) && IsBookChar(ch)) && !(IsDigit(ch) && IsBookChar(ch))
    ensures (ch == ':' || ch == '-') ==> !IsSpace(ch) && !IsDigit(ch) && !IsBookChar(ch)
    ensures ch == '.' ==> !IsSpace(ch) && !IsDigit(ch)
  {
  }

  /** The verse part of a split is the one the scanner reads. */
  lemma ScanVerseComplete(s: string, e: nat, f: nat)
    requires e <= f <= |s| && Verse(s[e..f]) && AllIn(s[f..], Space)
    ensures ScanVerse(s, e) == Some(f)
  {
    if f == e {
      if e < |s| {
        assert s[f..][0] == s[e];
        ClassesDisjoint(s[e]);
      }
    } else {
      var w := s[e..f];
      assert w[0] == s[e];
      var v := w[1..];
      assert v == s[e + 1..f];
      if Number(v) {
        SpanIsMaximal(s, e + 1, f, Digit);
        if f < |s| {
          assert s[f..][0] == s[f];
          ClassesDisjoint(s[f]);
        }
      } else {
        var g0 :| DashAt(v, g0);
        var g := e + 1 + g0;
        assert |v| == f - e - 1 && g < f - 1;
        assert v[..g0] == s[e + 1..g];
        assert v[g0 + 1..] == s[g + 1..f];
        assert s[g] == v[g0];
        ClassesDisjoint(s[g]);
        SpanIsMaximal(s, e + 1, g, Digit);
        SpanIsMaximal(s, g + 1, f, Digit);
        if f < |s| {
          assert s[f..][0] == s[f];
          ClassesDisjoint(s[f]);
        }
      }
    }
  }

  /** Every split of the pattern is the one the scanner finds. */
  lemma ScanIsComplete(s: string, a: int, b: int, c: int, d: int, e: int, f: int)
    requires SplitAt(s, a, b, c, d, e, f)
    ensures Scan(s) == Some((a as nat, b as nat, c as nat, d as nat, e as nat, f as nat))
  {
    assert s[..a] == s[0..a];
    // The first character after the leading space is a digit or a book character.
    if a < b {
      assert s[a..b][0] == s[a];
    } else {
      assert s[b..c][0] == s[a];
    }
    ClassesDisjoint(s[a]);
    SpanIsMaximal(s, 0, a, Space);
    if a < b {
      assert s[a + 1..b] == s[a..b][1..];
      assert s[b..c][0] == s[b];
      ClassesDisjoint(s[b]);
      SpanIsMaximal(s, a + 1, b, Space);
    }
    assert s[c..d][0] == s[c];
    ClassesDisjoint(s[c]);
    SpanIsMaximal(s, b, c, BookChar);
    assert s[d..e][0] == s[d];
    ClassesDisjoint(s[d]);
    SpanIsMaximal(s, c, d, Space);
    if e < |s| {
      VerseStart(s, e, f);
    }
    SpanIsMaximal(s, d, e, Digit);
    ScanVerseComplete(s, e, f);
    SpanIsMaximal(s, f, |s|, Space);
    assert s[f..|s|] == s[f..];
  }

  /** What follows the chapter number is a verse separator or space. */
  lemma VerseStart(s: string, e: int, f: int)
    requires 0 <= e <= f <= |s| && e < |s| && Verse(s[e..f]) && AllIn(s[f..], Space)
    ensures !IsDigit(s[e])
  {
    if e < f {
      assert s[e..f][0] == s[e];
    } else {
      assert s[f..][0] == s[e];
    }
    ClassesDisjoint(s[e]);
  }

  /** The scanner accepts exactly the texts the pattern matches. */
  lemma ScanIsMatch(s: string)
    ensures Scan(s).Some? <==> Matches(s)
  {
    if Scan(s).Some? {
      ScanIsSound(s);
      var (a, b, c, d, e, f) := Scan(s).value;
      assert SplitAt(s, a, b, c, d, e, f);
    }
    if Matches(s) {
      var a, b, c, d, e, f :| SplitAt(s, a, b, c, d, e, f);
      ScanIsComplete(s, a, b, c, d, e, f);
    }
  }

  /** `bibleRegex.test(s)`: true exactly for the texts of the pattern. */
  predicate IsPassageFormat(s: string)
    ensures IsPassageFormat(s) <==> Matches(s)
  {
    ScanIsMatch(s);
    Scan(s).Some?
  }

  /** An accepted text is never blank: it holds a book name. */
  lemma MatchIsNotBlank(s: string)
    requires Matches(s)
    ensures !AllSpaces(s)
  {
    var a, b, c, d, e, f :| SplitAt(s, a, b, c, d, e, f);
    assert s[b..c][0] == s[b];
    ClassesDisjoint(s[b]);
  }

  lemma ExampleAccepted()
    ensures IsPassageFormat("1 Jo 1:9")
  {
    var s := "1 Jo 1:9";
    assert Verse(s[6..8]) by { assert s[6..8][1..] == "9"; }
    assert Ordinal(s[0..2]) by { assert s[0..2][1..] == " "; }
    assert SplitAt(s, 0, 2, 4, 5, 6, 8);
  }

  lemma ExampleRejected()
    ensures !IsPassageFormat("Jo 3:")
  {
  }
}
