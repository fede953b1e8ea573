/** The Bible-reference highlighter of the study viewer: the text is split
    on the pattern
        (\(?(?:[1-3]|I{1,3})?\s?[A-Za-zÀ-ÿ\.]+\s+\d+[:\.]\d+(?:[–-]\d+)?\)?)
    with `String.prototype.split`, and each part that matches the same
    pattern anchored at both ends is shown as a reference.

    `MatchLen` is the pattern tried at the start of a text the way a
    backtracking engine tries it: the optional opening parenthesis and the
    optional ordinal are alternatives taken in priority order, and the rest
    of the pattern is read greedily (its runs are of disjoint classes, so no
    shorter run leads to a different match). `IsReference` says which texts
    the pattern accepts, as a split of the text into the pattern's pieces. */
module ReferenceTokens {
  import opened Wrappers
  import opened Text
  import opened PassageFormat

  // ---------------------------------------------------------------------
  // The pattern, piece by piece

  /** `[–-]`: the en dash or the hyphen. */
  predicate IsDash(c: char)
  {
    c == '–' || c == '-'
  }

  /** `[:\.]` */
  predicate IsSeparator(c: char)
  {
    c == ':' || c == '.'
  }

  /** `\(?` */
  predicate OpenParen(w: string)
  {
    w == [] || w == "("
  }

  /** `(?:[1-3]|I{1,3})?`: the number of a book, as in "1 Reis" or "II Reis". */
  predicate BookNumber(w: string)
  {
    || w == []
    || (|w| == 1 && '1' <= w[0] <= '3')
    || (1 <= |w| <= 3 && forall i :: 0 <= i < |w| ==> w[i] == 'I')
  }

  /** `\s?` */
  predicate OptSpace(w: string)
  {
    w == [] || (|w| == 1 && IsSpace(w[0]))
  }

  /** A non-empty run of one class: `[A-Za-zÀ-ÿ\.]+`, `\s+`. */
  predicate Run(w: string, k: Class)
  {
    w != [] && AllIn(w, k)
  }

  /** `(?:[–-]\d+)?` */
  predicate Range(w: string)
  {
    w == [] || (|w| >= 2 && IsDash(w[0]) && Number(w[1..]))
  }

  /** `\)?` */
  predicate CloseParen(w: string)
  {
    w == [] || w == ")"
  }

  /** After the book number: the optional space, the book name, the gap and
      the chapter number, up to the separator at `f`. */
  ghost predicate HeadSplit(w: string, b: int, c: int, d: int, e: int, f: int)
  {
    && 0 <= b <= c <= d <= e <= f < |w|
    && OptSpace(w[b..c]) && Run(w[c..d], BookChar) && Run(w[d..e], Space)
    && Number(w[e..f]) && IsSeparator(w[f])
  }

  /** From `g` to the end: the verse range and the closing parenthesis. */
  ghost predicate EndSplit(w: string, g: int, h: int)
  {
    0 <= g <= h <= |w| && Range(w[g..h]) && CloseParen(w[h..])
  }

  /** Everything after the book number, the verse number running from `f + 1`
      to `g`. */
  ghost predicate TailSplit(w: string, b: int, c: int, d: int, e: int, f: int, g: int, h: int)
  {
    HeadSplit(w, b, c, d, e, f) && f < g <= |w| && Number(w[f + 1..g]) && EndSplit(w, g, h)
  }

  /** The text splits at these positions into opening parenthesis, book
      number, space, book name, gap, chapter, separator, verse, verse range
      and closing parenthesis. */
  ghost predicate RefSplit(w: string, a: int, b: int, c: int, d: int, e: int, f: int, g: int, h: int)
  {
    0 <= a <= b <= |w| && OpenParen(w[..a]) && BookNumber(w[a..b]) && TailSplit(w, b, c, d, e, f, g, h)
  }

  /** The texts the pattern accepts as a whole. */
  ghost predicate IsReference(w: string)
    ensures IsReference(w) ==> |w| >= 5
  {
    exists a, b, c, d, e, f, g, h :: RefSplit(w, a, b, c, d, e, f, g, h)
  }

  // ---------------------------------------------------------------------
  // The matcher

  /** The number of `I`s from `o`, at most three. */
  function IRun(u: string, o: nat): (r: nat)
    requires o < |u| && u[o] == 'I'
    ensures 1 <= r <= 3 && o + r <= |u|
    ensures forall j :: o <= j < o + r ==> u[j] == 'I'
    ensures r < 3 ==> o + r == |u| || u[o + r] != 'I'
  {
    if o + 1 < |u| && u[o + 1] == 'I' then
      if o + 2 < |u| && u[o + 2] == 'I' then 3 else 2
    else 1
  }

  /** `o + r`, `o + r - 1`, ..., `o`. */
  function Countdown(o: nat, r: nat): (xs: seq<nat>)
    ensures |xs| == r + 1 && forall i :: 0 <= i <= r ==> xs[i] == o + r - i
  {
    seq(r + 1, i requires 0 <= i <= r => o + r - i)
  }

  /** Where the book name may start after an ordinal read from `o`, in the
      order the engine tries them: the digit, then three, two or one `I`,
      then no ordinal. */
  function Alternatives(u: string, o: nat): (xs: seq<nat>)
    requires o <= |u|
    ensures forall x :: x in xs ==> o <= x <= |u|
    ensures o in xs
  {
    if o < |u| && '1' <= u[o] <= '3' then [o + 1, o]
    else if o < |u| && u[o] == 'I' then
      var r := IRun(u, o);
      assert Countdown(o, r)[r] == o;
      Countdown(o, r)
    else [o]
  }

  /** The alternatives with and then without the opening parenthesis. */
  function Starts(u: string): (xs: seq<nat>)
    ensures forall x :: x in xs ==> x <= |u|
  {
    if |u| > 0 && u[0] == '(' then Alternatives(u, 1) + Alternatives(u, 0) else Alternatives(u, 0)
  }

  /** Where the book name starts: after the optional space at `st`. */
  function BookStart(u: string, st: nat): (p: nat)
    requires st <= |u|
    ensures st <= p <= |u|
  {
    if st < |u| && IsSpace(u[st]) then st + 1 else st
  }

  /** The pattern from `st` up to the chapter number, read greedily: where
      the separator after the chapter number stands, if the text gets that
      far. */
  function ChapterEnd(u: string, st: nat): (r: Option<nat>)
    requires st <= |u|
    ensures r.Some? ==> st + 3 <= r.value < |u| && IsSeparator(u[r.value])
  {
    var p := BookStart(u, st);
    var a := Span(u, p, BookChar);
    var b := Span(u, a, Space);
    var c := Span(u, b, Digit);
    if a == p || b == a || c == b || c == |u| || !IsSeparator(u[c]) then None else Some(c)
  }

  /** The pattern from `st` up to the verse number: where the verse number
      ends, if the text gets that far. */
  function RefHead(u: string, st: nat): (r: Option<nat>)
    requires st <= |u|
    ensures r.Some? ==> st + 5 <= r.value <= |u|
  {
    match ChapterEnd(u, st)
    case None => None
    case Some(c) =>
      var d := Span(u, c + 1, Digit);
      if d == c + 1 then None else Some(d)
  }

  /** The optional verse range and closing parenthesis after the verse
      number ending at `d`: where the match ends. */
  function RefEnd(u: string, d: nat): (r: nat)
    requires d <= |u|
    ensures d <= r <= |u|
  {
    var e := RangeEnd(u, d);
    if e < |u| && u[e] == ')' then e + 1 else e
  }

  /** Where the optional verse range after `d` ends. */
  function RangeEnd(u: string, d: nat): (e: nat)
    requires d <= |u|
    ensures d <= e <= |u|
  {
    if d + 1 < |u| && IsDash(u[d]) && IsDigit(u[d + 1]) then Span(u, d + 1, Digit) else d
  }

  /** The rest of the pattern from `st`: where the match ends, if it does. */
  function RefTail(u: string, st: nat): (r: Option<nat>)
    requires st <= |u|
    ensures r.Some? ==> st + 5 <= r.value <= |u|
  {
    match RefHead(u, st)
    case None => None
    case Some(d) => Some(RefEnd(u, d))
  }

  /** The first start, in order, from which the rest of the pattern matches. */
  function FirstTail(u: string, sts: seq<nat>): (r: Option<nat>)
    requires forall x :: x in sts ==> x <= |u|
    ensures r.Some? ==> exists x :: x in sts && RefTail(u, x) == r
    ensures r.None? <==> forall x :: x in sts ==> RefTail(u, x).None?
  {
    if sts == [] then None
    else
      assert sts[0] in sts && forall x :: x in sts[1..] ==> x in sts;
      match RefTail(u, sts[0])
      case Some(n) => Some(n)
      case None => FirstTail(u, sts[1..])
  }

  /** The length of the match the split finds at the start of `u`. */
  function MatchLen(u: string): (r: Option<nat>)
    ensures r.Some? ==> 5 <= r.value <= |u|
  {
    FirstTail(u, Starts(u))
  }

  /** `part.match(/^…$/)`: some way through the pattern ends exactly at the
      end of the part. */
  predicate IsRefText(w: string)
    ensures IsRefText(w) ==> |w| >= 5
  {
    exists x :: x in Starts(w) && RefTail(w, x) == Some(|w|)
  }

  // ---------------------------------------------------------------------
  // A match depends only on the text it covers

  /** A run read in a prefix stops where the run stops or where the prefix
      ends. */
  lemma SpanPrefix(u: string, n: nat, i: nat, k: Class)
    requires i <= n <= |u|
    ensures Span(u[..n], i, k) == (if Span(u, i, k) < n then Span(u, i, k) else n)
  {
    var v, j := u[..n], Span(u, i, k);
    if j < n {
      assert v[i..j] == u[i..j] && v[j] == u[j];
      SpanIsMaximal(v, i, j, k);
    } else {
      assert forall x :: 0 <= x < n - i ==> v[i..n][x] == u[i..j][x];
      SpanIsMaximal(v, i, n, k);
    }
  }

  /** Up to the chapter number, a match reads the same in any prefix that
      holds the separator, and in the whole text. */
  lemma ChapterEndPrefix(u: string, st: nat, n: nat)
    requires st < n <= |u|
    ensures ChapterEnd(u, st).Some? && ChapterEnd(u, st).value < n ==> ChapterEnd(u[..n], st) == ChapterEnd(u, st)
    ensures ChapterEnd(u[..n], st).Some? ==> ChapterEnd(u, st) == ChapterEnd(u[..n], st)
  {
    var v := u[..n];
    assert v[st] == u[st];
    var p := BookStart(u, st);
    var a := Span(u, p, BookChar);
    var b := Span(u, a, Space);
    var c := Span(u, b, Digit);
    SpanPrefix(u, n, p, BookChar);
    if a < n {
      SpanPrefix(u, n, a, Space);
      if b < n {
        SpanPrefix(u, n, b, Digit);
        if c < n {
          assert v[c] == u[c];
        }
      }
    }
  }

  /** The head of a match is read the same in any prefix that holds it. */
  lemma RefHeadPrefix(u: string, st: nat, d: nat, n: nat)
    requires st <= |u| && RefHead(u, st) == Some(d) && d <= n <= |u|
    ensures RefHead(u[..n], st) == Some(d)
  {
    var c := ChapterEnd(u, st).value;
    ChapterEndPrefix(u, st, n);
    assert ChapterEnd(u[..n], st) == Some(c);
    SpanPrefix(u, n, c + 1, Digit);
    assert Span(u[..n], c + 1, Digit) == d;
  }

  /** The end of a match is read the same in the prefix it ends. */
  lemma RefEndPrefix(u: string, d: nat, n: nat)
    requires d <= |u| && RefEnd(u, d) == n
    ensures RefEnd(u[..n], d) == n
  {
    var v := u[..n];
    if d + 1 < |u| && IsDash(u[d]) && IsDigit(u[d + 1]) {
      var e := RangeEnd(u, d);
      SpanPrefix(u, n, d + 1, Digit);
      assert v[d] == u[d] && v[d + 1] == u[d + 1];
      if e < |u| && u[e] == ')' {
        assert v[e] == u[e];
      }
    } else if d < |u| && u[d] == ')' {
      assert v[d] == u[d];
    }
  }

  /** The match ending at `n` is found again in the first `n` characters. */
  lemma RefTailPrefix(u: string, st: nat, n: nat)
    requires st <= |u| && RefTail(u, st) == Some(n)
    ensures RefTail(u[..n], st) == Some(n)
  {
    var d := RefHead(u, st).value;
    RefHeadPrefix(u, st, d, n);
    RefEndPrefix(u, d, n);
  }

  /** A head read in a prefix still starts a head in the whole text. */
  lemma RefHeadExtends(u: string, st: nat, n: nat)
    requires st <= n <= |u| && RefHead(u[..n], st).Some?
    ensures RefHead(u, st).Some?
  {
    var c := ChapterEnd(u[..n], st).value;
    assert ChapterEnd(u, st) == Some(c) by {
      ChapterEndPrefix(u, st, n);
    }
    assert Span(u, c + 1, Digit) > c + 1 by {
      SpanPrefix(u, n, c + 1, Digit);
    }
  }

  /** A match that covers a prefix exactly still starts a match in the
      whole text. */
  lemma RefTailExtends(u: string, st: nat, n: nat)
    requires st <= n <= |u| && RefTail(u[..n], st) == Some(n)
    ensures RefTail(u, st).Some?
  {
    RefHeadExtends(u, st, n);
  }

  /** The alternatives depend on the first four characters only. */
  lemma StartsPrefix(u: string, n: nat)
    requires 4 <= n <= |u|
    ensures Starts(u[..n]) == Starts(u)
  {
    var v := u[..n];
    assert v[0] == u[0] && v[1] == u[1] && v[2] == u[2] && v[3] == u[3];
  }

  /** What the split cuts out at the start of `u` matches the anchored
      pattern. */
  lemma MatchLenSound(u: string)
    requires MatchLen(u).Some?
    ensures IsRefText(u[..MatchLen(u).value])
  {
    var n := MatchLen(u).value;
    var x :| x in Starts(u) && RefTail(u, x) == Some(n);
    RefTailPrefix(u, x, n);
    StartsPrefix(u, n);
  }

  /** A prefix that matches the anchored pattern means the split finds a
      match at the start. */
  lemma RefTextStartsMatch(u: string, n: nat)
    requires n <= |u| && IsRefText(u[..n])
    ensures MatchLen(u).Some?
  {
    var v := u[..n];
    var x :| x in Starts(v) && RefTail(v, x) == Some(|v|);
    StartsPrefix(u, n);
    RefTailExtends(u, x, n);
  }

  // ---------------------------------------------------------------------
  // The matcher accepts exactly the pattern's language

  lemma AlternativeSound(u: string, o: nat, x: nat)
    requires o <= |u| && x in Alternatives(u, o)
    ensures o <= x && BookNumber(u[o..x])
  {
    if o < |u| && '1' <= u[o] <= '3' {
      if x == o + 1 {
        assert u[o..x][0] == u[o];
      }
    } else if o < |u| && u[o] == 'I' {
      var xs := Countdown(o, IRun(u, o));
      var i :| 0 <= i < |xs| && xs[i] == x;
      assert forall j :: 0 <= j < x - o ==> u[o..x][j] == u[o + j];
    }
  }

  lemma AlternativeComplete(u: string, o: nat, x: nat)
    requires o <= x <= |u| && BookNumber(u[o..x])
    ensures x in Alternatives(u, o)
  {
    var w := u[o..x];
    if x > o {
      assert w[0] == u[o];
      if u[o] == 'I' && x - o >= 2 {
        var r := IRun(u, o);
        assert u[o + 1] == w[1];
        if x - o == 3 {
          assert u[o + 2] == w[2];
        }
        assert Countdown(o, r)[r - (x - o)] == x;
      } else if u[o] == 'I' {
        assert Countdown(o, IRun(u, o))[IRun(u, o) - 1] == x;
      }
    }
  }

  /** The starts the matcher tries are the ends of the pattern's optional
      parenthesis and book number. */
  lemma StartsSound(w: string, x: nat)
    requires x in Starts(w)
    ensures exists a :: 0 <= a <= x && OpenParen(w[..a]) && BookNumber(w[a..x])
  {
    if |w| > 0 && w[0] == '(' && x in Alternatives(w, 1) {
      AlternativeSound(w, 1, x);
      assert w[..1] == "(";
      assert OpenParen(w[..1]) && BookNumber(w[1..x]);
    } else {
      assert x in Alternatives(w, 0);
      AlternativeSound(w, 0, x);
      assert OpenParen(w[..0]) && BookNumber(w[0..x]);
    }
  }

  lemma StartsComplete(w: string, a: nat, b: nat)
    requires a <= b <= |w| && OpenParen(w[..a]) && BookNumber(w[a..b])
    ensures b in Starts(w)
  {
    AlternativeComplete(w, a, b);
    if a == 1 {
      assert w[0] == w[..a][0];
    }
  }

  lemma ChapterEndSound(w: string, b: nat)
    requires b <= |w| && ChapterEnd(w, b).Some?
    ensures var c := BookStart(w, b); var d := Span(w, c, BookChar);
      HeadSplit(w, b, c, d, Span(w, d, Space), ChapterEnd(w, b).value)
  {
    var c := BookStart(w, b);
    if c == b + 1 {
      assert w[b..c][0] == w[b];
    }
  }

  lemma ChapterEndComplete(w: string, b: nat, c: nat, d: nat, e: nat, f: nat)
    requires HeadSplit(w, b, c, d, e, f)
    ensures ChapterEnd(w, b) == Some(f)
  {
    assert w[c] == w[c..d][0] && w[d] == w[d..e][0] && w[e] == w[e..f][0];
    ClassesDisjoint(w[c]);
    ClassesDisjoint(w[d]);
    ClassesDisjoint(w[f]);
    if c == b + 1 {
      assert w[b] == w[b..c][0];
    }
    assert BookStart(w, b) == c;
    SpanIsMaximal(w, c, d, BookChar);
    SpanIsMaximal(w, d, e, Space);
    SpanIsMaximal(w, e, f, Digit);
  }

  lemma RefEndSound(w: string, g: nat)
    requires g <= |w| && RefEnd(w, g) == |w|
    ensures EndSplit(w, g, RangeEnd(w, g))
  {
    var h := RangeEnd(w, g);
    if g + 1 < |w| && IsDash(w[g]) && IsDigit(w[g + 1]) {
      assert w[g..h][1..] == w[g + 1..h];
    }
    if h < |w| {
      assert w[h..] == [w[h]];
    }
  }

  lemma RefEndComplete(w: string, g: nat, h: nat)
    requires EndSplit(w, g, h)
    ensures RefEnd(w, g) == |w| && (g < |w| ==> !IsDigit(w[g]))
  {
    if h < |w| {
      assert w[h] == w[h..][0];
    }
    if g < h {
      assert w[g] == w[g..h][0] && w[g + 1] == w[g..h][1];
      assert w[g + 1..h] == w[g..h][1..];
      SpanIsMaximal(w, g + 1, h, Digit);
    }
  }

  lemma RefTailSound(w: string, b: nat)
    requires b <= |w| && RefTail(w, b) == Some(|w|)
    ensures exists c, d, e, f, g, h :: TailSplit(w, b, c, d, e, f, g, h)
  {
    ChapterEndSound(w, b);
    var c := BookStart(w, b);
    var d := Span(w, c, BookChar);
    var e := Span(w, d, Space);
    var f := ChapterEnd(w, b).value;
    var g := RefHead(w, b).value;
    RefEndSound(w, g);
    assert TailSplit(w, b, c, d, e, f, g, RangeEnd(w, g));
  }

  lemma RefTailComplete(w: string, b: nat, c: nat, d: nat, e: nat, f: nat, g: nat, h: nat)
    requires TailSplit(w, b, c, d, e, f, g, h)
    ensures RefTail(w, b) == Some(|w|)
  {
    ChapterEndComplete(w, b, c, d, e, f);
    RefEndComplete(w, g, h);
    SpanIsMaximal(w, f + 1, g, Digit);
  }

  /** The anchored test accepts exactly the texts the pattern describes. */
  lemma RefTextIsReference(w: string)
    ensures IsRefText(w) <==> IsReference(w)
  {
    if IsRefText(w) {
      var x :| x in Starts(w) && RefTail(w, x) == Some(|w|);
      StartsSound(w, x);
      var a :| 0 <= a <= x && OpenParen(w[..a]) && BookNumber(w[a..x]);
      RefTailSound(w, x);
      var c, d, e, f, g, h :| TailSplit(w, x, c, d, e, f, g, h);
      assert RefSplit(w, a, x, c, d, e, f, g, h);
    }
    if IsReference(w) {
      var a, b, c, d, e, f, g, h :| RefSplit(w, a, b, c, d, e, f, g, h);
      StartsComplete(w, a, b);
      RefTailComplete(w, b, c, d, e, f, g, h);
    }
  }

  // ---------------------------------------------------------------------
  // The split

  function Concat(parts: seq<string>): string
  {
    if parts == [] then "" else parts[0] + Concat(parts[1..])
  }

  /** A matcher gives the length of the match at the start of a text; this
      one never matches the empty text. */
  ghost predicate NonEmptyMatches(m: string -> Option<nat>)
  {
    forall u :: m(u).Some? ==> 0 < m(u).value <= |u|
  }

  /** The text before a match, the match and the parts after it spell the
      text from `p`. */
  lemma CutConcat(s: string, p: nat, q: nat, e: nat, rest: seq<string>)
    requires p <= q <= e <= |s| && Concat(rest) == s[e..]
    ensures Concat([s[p..q], s[q..e]] + rest) == s[p..]
  {
    var parts := [s[p..q], s[q..e]] + rest;
    assert parts[1..] == [s[q..e]] + rest && parts[1..][1..] == rest;
    assert s[q..] == s[q..e] + s[e..];
    assert s[p..] == s[p..q] + s[q..];
  }

  /** `text.split(separator)` from `p`, trying the separator at `q`, `q + 1`,
      ...: each match found adds the text before it and, the separator being
      one capturing group, the match itself. */
  function SplitFrom(s: string, p: nat, q: nat, m: string -> Option<nat>): (parts: seq<string>)
    requires p <= q <= |s| && NonEmptyMatches(m)
    ensures Concat(parts) == s[p..]
    ensures |parts| % 2 == 1
    decreases |s| - q
  {
    if q == |s| then [s[p..]]
    else match m(s[q..])
      case Some(n) =>
        var rest := SplitFrom(s, q + n, q + n, m);
        CutConcat(s, p, q, q + n, rest);
        [s[p..q], s[q..q + n]] + rest
      case None => SplitFrom(s, p, q + 1, m)
  }

  /** `isRef` recognises exactly what `m` finds: each match `m` finds is
      recognised, and a recognised prefix means `m` finds a match. */
  ghost predicate Recognises(m: string -> Option<nat>, isRef: string -> bool)
  {
    && NonEmptyMatches(m)
    && (forall u :: MatchRecognised(m, isRef, u))
    && (forall u, n :: PrefixFound(m, isRef, u, n))
    && !isRef("")
  }

  /** The match `m` finds at the start of `u` is recognised. */
  ghost predicate MatchRecognised(m: string -> Option<nat>, isRef: string -> bool, u: string)
  {
    m(u).Some? && m(u).value <= |u| ==> isRef(u[..m(u).value])
  }

  /** A recognised prefix of `u` means `m` finds a match at its start. */
  ghost predicate PrefixFound(m: string -> Option<nat>, isRef: string -> bool, u: string, n: nat)
  {
    n <= |u| && isRef(u[..n]) ==> m(u).Some?
  }

  /** The parts at odd positions are exactly the parts `isRef` accepts. */
  ghost predicate Alternating(parts: seq<string>, isRef: string -> bool)
  {
    forall i :: 0 <= i < |parts| ==> (isRef(parts[i]) <==> i % 2 == 1)
  }

  lemma AlternatingCons(a: string, b: string, rest: seq<string>, isRef: string -> bool)
    requires !isRef(a) && isRef(b) && Alternating(rest, isRef)
    ensures Alternating([a, b] + rest, isRef)
  {
    var parts := [a, b] + rest;
    forall i | 2 <= i < |parts|
      ensures isRef(parts[i]) <==> i % 2 == 1
    {
      assert parts[i] == rest[i - 2];
    }
  }

  /** A split where no match is found at `q` goes on from `q + 1`. */
  lemma SplitSkips(s: string, p: nat, q: nat, m: string -> Option<nat>)
    requires p <= q < |s| && NonEmptyMatches(m) && m(s[q..]).None?
    ensures SplitFrom(s, p, q, m) == SplitFrom(s, p, q + 1, m)
  {
  }

  /** A split where a match of length `n` is found at `q` yields the text
      before it, the match, and the split after it. */
  lemma SplitCuts(s: string, p: nat, q: nat, m: string -> Option<nat>, isRef: string -> bool)
    requires p <= q < |s| && Recognises(m, isRef) && m(s[q..]).Some?
    requires forall x :: p <= x < q ==> m(s[x..]).None?
    ensures var n := m(s[q..]).value;
      q + n <= |s| && !isRef(s[p..q]) && isRef(s[q..q + n])
      && SplitFrom(s, p, q, m) == [s[p..q], s[q..q + n]] + SplitFrom(s, q + n, q + n, m)
  {
    var n := m(s[q..]).value;
    GapIsPlain(s, p, q, m, isRef);
    assert MatchRecognised(m, isRef, s[q..]);
    assert s[q..][..n] == s[q..q + n];
  }

  /** A split that reaches the end yields the rest of the text as one
      plain part. */
  lemma SplitEnds(s: string, p: nat, m: string -> Option<nat>, isRef: string -> bool)
    requires p <= |s| && Recognises(m, isRef)
    requires forall x :: p <= x < |s| ==> m(s[x..]).None?
    ensures Alternating(SplitFrom(s, p, |s|, m), isRef)
  {
    GapIsPlain(s, p, |s|, m, isRef);
    assert s[p..|s|] == s[p..];
    assert SplitFrom(s, p, |s|, m) == [s[p..]];
  }

  /** A cut keeps the parts alternating. */
  lemma SplitCutAlternates(s: string, p: nat, q: nat, m: string -> Option<nat>, isRef: string -> bool)
    requires p <= q < |s| && Recognises(m, isRef) && m(s[q..]).Some?
    requires forall x :: p <= x < q ==> m(s[x..]).None?
    requires Alternating(SplitFrom(s, q + m(s[q..]).value, q + m(s[q..]).value, m), isRef)
    ensures Alternating(SplitFrom(s, p, q, m), isRef)
  {
    var n := m(s[q..]).value;
    SplitCuts(s, p, q, m, isRef);
    AlternatingCons(s[p..q], s[q..q + n], SplitFrom(s, q + n, q + n, m), isRef);
  }

  /** After the split, the parts at odd positions are exactly the parts the
      recogniser accepts. */
  lemma {:induction false} SplitClassified(s: string, p: nat, q: nat, m: string -> Option<nat>, isRef: string -> bool)
    requires p <= q <= |s| && Recognises(m, isRef)
    requires forall x :: p <= x < q ==> m(s[x..]).None?
    ensures Alternating(SplitFrom(s, p, q, m), isRef)
    decreases |s| - q
  {
    if q == |s| {
      SplitEnds(s, p, m, isRef);
    } else if m(s[q..]).None? {
      SplitSkips(s, p, q, m);
      SplitClassified(s, p, q + 1, m, isRef);
    } else {
      var n := m(s[q..]).value;
      SplitClassified(s, q + n, q + n, m, isRef);
      SplitCutAlternates(s, p, q, m, isRef);
    }
  }

  /** Where the part `i` of a split starts, counted from the split's start. */
  function Offset(parts: seq<string>, i: nat): nat
    requires i <= |parts|
  {
    if i == 0 then 0 else Offset(parts, i - 1) + |parts[i - 1]|
  }

  /** No position from `lo` up to `hi` starts a match. */
  ghost predicate NoMatchIn(s: string, lo: nat, hi: nat, m: string -> Option<nat>)
  {
    hi <= |s| && forall x :: lo <= x < hi ==> m(s[x..]).None?
  }

  /** The match found at position `x` is `n` characters long. */
  ghost predicate MatchAt(s: string, x: nat, n: nat, m: string -> Option<nat>)
  {
    x <= |s| && m(s[x..]) == Some(n)
  }

  /** The parts of a split of `s` from `p` are cut where `split` cuts: no
      position inside a part at an even index starts a match, and each part
      at an odd index is exactly the match found where it starts. Together
      with the parts spelling the text, this says every cut is at the
      leftmost match that the previous cut leaves. */
  ghost predicate LeftmostCuts(s: string, p: nat, parts: seq<string>, m: string -> Option<nat>)
  {
    forall i :: 0 <= i < |parts| ==> CutAt(s, p, parts, i, m)
  }

  /** Part `i` is a gap without a match or, at an odd index, a match. */
  ghost predicate CutAt(s: string, p: nat, parts: seq<string>, i: nat, m: string -> Option<nat>)
    requires i < |parts|
  {
    if i % 2 == 0 then NoMatchIn(s, p + Offset(parts, i), p + Offset(parts, i) + |parts[i]|, m)
    else MatchAt(s, p + Offset(parts, i), |parts[i]|, m)
  }

  /** Two parts in front move the offsets of the others by their lengths. */
  lemma {:induction false} OffsetCons(a: string, b: string, rest: seq<string>, i: nat)
    requires i <= |rest|
    ensures Offset([a, b] + rest, i + 2) == |a| + |b| + Offset(rest, i)
  {
    var parts := [a, b] + rest;
    assert Offset(parts, 1) == |a|;
    assert Offset(parts, 2) == |a| + |b|;
    if i > 0 {
      OffsetCons(a, b, rest, i - 1);
      assert parts[i + 1] == rest[i - 1];
      assert Offset(parts, i + 2) == Offset(parts, i + 1) + |rest[i - 1]|;
    }
  }

  /** A part keeps its cut when parts in front move it to the same place. */
  lemma CutMoves(s: string, p: nat, parts: seq<string>, i: nat, p': nat, rest: seq<string>, m: string -> Option<nat>)
    requires 2 <= i < |parts| == |rest| + 2 && parts[i] == rest[i - 2]
    requires p + Offset(parts, i) == p' + Offset(rest, i - 2)
    requires CutAt(s, p', rest, i - 2, m)
    ensures CutAt(s, p, parts, i, m)
  {
    assert i % 2 == (i - 2) % 2;
  }

  /** A gap and a match in front of leftmost cuts are leftmost cuts. */
  lemma CutsCons(s: string, p: nat, q: nat, n: nat, rest: seq<string>, m: string -> Option<nat>)
    requires p <= q && q + n <= |s|
    requires NoMatchIn(s, p, q, m) && MatchAt(s, q, n, m) && LeftmostCuts(s, q + n, rest, m)
    ensures LeftmostCuts(s, p, [s[p..q], s[q..q + n]] + rest, m)
  {
    var parts := [s[p..q], s[q..q + n]] + rest;
    assert Offset(parts, 1) == q - p;
    assert CutAt(s, p, parts, 0, m);
    assert CutAt(s, p, parts, 1, m);
    forall i | 2 <= i < |parts|
      ensures CutAt(s, p, parts, i, m)
    {
      OffsetCons(s[p..q], s[q..q + n], rest, i - 2);
      assert CutAt(s, q + n, rest, i - 2, m);
      CutMoves(s, p, parts, i, q + n, rest, m);
    }
  }

  /** `split` cuts at the leftmost match each time. */
  lemma {:induction false} SplitLeftmost(s: string, p: nat, q: nat, m: string -> Option<nat>)
    requires p <= q <= |s| && NonEmptyMatches(m) && NoMatchIn(s, p, q, m)
    ensures LeftmostCuts(s, p, SplitFrom(s, p, q, m), m)
    decreases |s| - q
  {
    if q == |s| {
      assert SplitFrom(s, p, q, m) == [s[p..]];
      assert CutAt(s, p, [s[p..]], 0, m);
    } else if m(s[q..]).None? {
      SplitSkips(s, p, q, m);
      NoMatchExtends(s, p, q, m);
      SplitLeftmost(s, p, q + 1, m);
    } else {
      var n := MatchFits(s, q, m);
      SplitLeftmost(s, q + n, q + n, m);
      LeftmostAtMatch(s, p, q, n, m);
    }
  }

  /** A match found at `q` fits in the text. */
  lemma MatchFits(s: string, q: nat, m: string -> Option<nat>) returns (n: nat)
    requires q < |s| && NonEmptyMatches(m) && m(s[q..]).Some?
    ensures n == m(s[q..]).value && q + n <= |s| && NoMatchIn(s, q + n, q + n, m)
  {
    n := m(s[q..]).value;
  }

  /** With the cuts after a match leftmost, the cuts from before it are. */
  lemma LeftmostAtMatch(s: string, p: nat, q: nat, n: nat, m: string -> Option<nat>)
    requires p <= q < |s| && NonEmptyMatches(m) && NoMatchIn(s, p, q, m) && m(s[q..]) == Some(n)
    requires q + n <= |s| && LeftmostCuts(s, q + n, SplitFrom(s, q + n, q + n, m), m)
    ensures LeftmostCuts(s, p, SplitFrom(s, p, q, m), m)
  {
    var k := SplitAtMatch(s, p, q, m);
    var parts := [s[p..q], s[q..q + n]] + SplitFrom(s, q + n, q + n, m);
    assert k == n;
    CutsCons(s, p, q, n, SplitFrom(s, q + n, q + n, m), m);
    SameCuts(s, p, parts, SplitFrom(s, p, q, m), m);
  }

  lemma SameCuts(s: string, p: nat, a: seq<string>, b: seq<string>, m: string -> Option<nat>)
    requires a == b && LeftmostCuts(s, p, a, m)
    ensures LeftmostCuts(s, p, b, m)
  {
  }

  /** No match up to `q` and none at `q`: no match up to `q + 1`. */
  lemma NoMatchExtends(s: string, p: nat, q: nat, m: string -> Option<nat>)
    requires p <= q < |s| && NoMatchIn(s, p, q, m) && m(s[q..]).None?
    ensures NoMatchIn(s, p, q + 1, m)
  {
  }

  /** A match of length `n` at `q` is the next cut. */
  lemma SplitAtMatch(s: string, p: nat, q: nat, m: string -> Option<nat>) returns (n: nat)
    requires p <= q < |s| && NonEmptyMatches(m) && m(s[q..]).Some?
    ensures n == m(s[q..]).value && q + n <= |s| && MatchAt(s, q, n, m)
    ensures NoMatchIn(s, q + n, q + n, m)
    ensures SplitFrom(s, p, q, m) == [s[p..q], s[q..q + n]] + SplitFrom(s, q + n, q + n, m)
  {
    n := m(s[q..]).value;
  }

  /** The text between matches is never recognised. */
  lemma GapIsPlain(s: string, p: nat, q: nat, m: string -> Option<nat>, isRef: string -> bool)
    requires p <= q <= |s| && Recognises(m, isRef)
    requires forall x :: p <= x < q ==> m(s[x..]).None?
    ensures !isRef(s[p..q])
  {
    if p < q {
      assert PrefixFound(m, isRef, s[p..], q - p);
      assert s[p..][..q - p] == s[p..q];
    }
  }

  /** The pattern's matcher and its anchored test agree as the split needs. */
  lemma PatternRecognised()
    ensures Recognises(MatchLen, IsRefText)
  {
    forall u
      ensures MatchRecognised(MatchLen, IsRefText, u)
    {
      if MatchLen(u).Some? {
        MatchLenSound(u);
      }
    }
    forall u, n: nat
      ensures PrefixFound(MatchLen, IsRefText, u, n)
    {
      if n <= |u| && IsRefText(u[..n]) {
        RefTextStartsMatch(u, n);
      }
    }
  }

  // ---------------------------------------------------------------------
  // The highlighter

  datatype Token = Plain(text: string) | Reference(text: string)

  function Texts(ts: seq<Token>): (r: seq<string>)
    ensures |r| == |ts| && forall i :: 0 <= i < |ts| ==> r[i] == ts[i].text
  {
    seq(|ts|, i requires 0 <= i < |ts| => ts[i].text)
  }

  function Classify(part: string, isRef: string -> bool): Token
  {
    if isRef(part) then Reference(part) else Plain(part)
  }

  /** The split of a text into tokens, with any matcher and the recogniser
      that agrees with it: the tokens spell the text, the references are
      the recognised parts and stand at the odd positions, and every cut is
      at the leftmost match. */
  function Highlight(s: string, m: string -> Option<nat>, isRef: string -> bool): (r: seq<Token>)
    requires Recognises(m, isRef)
    ensures Concat(Texts(r)) == s
    ensures |r| % 2 == 1
    ensures forall i :: 0 <= i < |r| ==> (r[i].Reference? <==> i % 2 == 1)
    ensures forall i :: 0 <= i < |r| ==> (r[i].Reference? <==> isRef(r[i].text))
    ensures LeftmostCuts(s, 0, Texts(r), m)
  {
    var parts := SplitFrom(s, 0, 0, m);
    SplitClassified(s, 0, 0, m, isRef);
    SplitLeftmost(s, 0, 0, m);
    var ts := seq(|parts|, i requires 0 <= i < |parts| => Classify(parts[i], isRef));
    assert Texts(ts) == parts;
    assert forall i :: 0 <= i < |ts| ==> (ts[i].Reference? <==> isRef(parts[i]));
    ts
  }

  /** `renderTextWithRefs`: nothing for an empty text; otherwise the split
      parts in order, the ones matching the anchored pattern marked as
      references. Together the parts spell the text, and references and
      plain parts alternate, starting and ending with a plain part. */
  function RenderTextWithRefs(text: string): (r: Option<seq<Token>>)
    ensures r.None? <==> text == ""
    ensures r.Some? ==> Concat(Texts(r.value)) == text
    ensures r.Some? ==> |r.value| % 2 == 1
    ensures r.Some? ==> forall i :: 0 <= i < |r.value| ==> (r.value[i].Reference? <==> i % 2 == 1)
    ensures r.Some? ==> forall i :: 0 <= i < |r.value| ==> (r.value[i].Reference? <==> IsReference(r.value[i].text))
    ensures r.Some? ==> LeftmostCuts(text, 0, Texts(r.value), MatchLen)
  {
    if text == "" then None
    else
      PatternRecognised();
      var ts := Highlight(text, MatchLen, IsRefText);
      ReferencesAreReferences(ts);
      Some(ts)
  }

  /** Tokens marked by the anchored test are marked by the pattern. */
  lemma ReferencesAreReferences(ts: seq<Token>)
    requires forall i :: 0 <= i < |ts| ==> (ts[i].Reference? <==> IsRefText(ts[i].text))
    ensures forall i :: 0 <= i < |ts| ==> (ts[i].Reference? <==> IsReference(ts[i].text))
  {
    forall i | 0 <= i < |ts|
      ensures ts[i].Reference? <==> IsReference(ts[i].text)
    {
      RefTextIsReference(ts[i].text);
    }
  }

  // ---------------------------------------------------------------------
  // Examples

  /** A parenthesised reference with a book number is recognised. */
  lemma ExampleParenthesised()
    ensures IsRefText("(1 Jo 1:9)")
  {
    var w := "(1 Jo 1:9)";
    assert w[..1] == "(" && w[1..2] == "1" && w[2..3] == " " && w[3..5] == "Jo";
    assert w[5..6] == " " && w[6..7] == "1" && w[8..9] == "9" && w[9..] == ")";
    assert RefSplit(w, 1, 2, 3, 5, 6, 7, 9, 9);
    RefTextIsReference(w);
  }

  /** A text that opens with a reference is cut right at its start: the
      first part is empty and a reference follows it. */
  lemma LeadingReference(w: string, n: nat)
    requires 0 < n <= |w| && IsRefText(w[..n])
    ensures var r := RenderTextWithRefs(w);
      r.Some? && |r.value| >= 3 && r.value[0] == Plain("") && r.value[1].Reference?
  {
    RefTextStartsMatch(w, n);
    var ts := RenderTextWithRefs(w).value;
    FirstCutIsMatch(w, Texts(ts));
    OddPastOne(|ts|);
  }

  /** When the text starts with a match, the first cut is an empty plain
      part and more parts follow it. */
  lemma FirstCutIsMatch(w: string, parts: seq<string>)
    requires MatchLen(w).Some? && Concat(parts) == w && |parts| >= 1
    requires CutAt(w, 0, parts, 0, MatchLen)
    ensures parts[0] == "" && |parts| != 1
  {
    assert Offset(parts, 0) == 0;
    assert w[0..] == w;
  }

  lemma OddPastOne(n: nat)
    requires n % 2 == 1 && n != 1
    ensures n >= 3
  {
  }

  /** A reference with neither parenthesis nor book number is recognised. */
  lemma ExamplePlainReference()
    ensures IsRefText("Jo 3:16")
  {
    var w := "Jo 3:16";
    assert w[..0] == "" && w[0..0] == "" && w[0..2] == "Jo" && w[2..3] == " ";
    assert w[3..4] == "3" && w[5..7] == "16" && w[7..] == "";
    assert RefSplit(w, 0, 0, 0, 2, 3, 4, 7, 7);
    RefTextIsReference(w);
  }

  /** So "Jo 3:16" renders as an empty plain part, then the reference. */
  lemma ExampleLeadingReference()
    ensures var r := RenderTextWithRefs("Jo 3:16");
      r.Some? && |r.value| >= 3 && r.value[0] == Plain("") && r.value[1].Reference?
  {
    ExamplePlainReference();
    assert "Jo 3:16"[..7] == "Jo 3:16";
    LeadingReference("Jo 3:16", 7);
  }

  /** A Roman book number and a verse range are recognised. */
  lemma ExampleRomanRange()
    ensures IsRefText("II Reis 2:11–14")
  {
    var w := "II Reis 2:11–14";
    assert w[..0] == "" && w[0..2] == "II" && w[2..3] == " " && w[3..7] == "Reis";
    assert w[7..8] == " " && w[8..9] == "2" && w[10..12] == "11" && w[12..15] == "–14";
    assert w[12..15][1..] == "14" && w[15..] == "";
    assert RefSplit(w, 0, 2, 3, 7, 8, 9, 12, 15);
    RefTextIsReference(w);
  }
}
