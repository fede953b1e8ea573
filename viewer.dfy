/** The study viewer: its tabs, its reading preferences, the name of the
    Markdown download and the plain text of the sermon copied to the
    clipboard. */
module StudyViewer {
  import opened Wrappers
  import opened Text
  import opened StudyTypes
  import ExportService

  // ---------------------------------------------------------------------
  // Tabs

  datatype TabId =
    | TextTab | ContextTab | LexicalTab | InterpretationTab | ApplicationTab | SermonTab | SlidesTab
    | BookGeneral | BookContext | BookLiterary | BookTheology | BookApplication

  datatype Tab = Tab(id: TabId, caption: string)

  const PassageTabs: seq<Tab> := [
    Tab(TextTab, "Texto"), Tab(ContextTab, "Contexto"), Tab(LexicalTab, "Léxico"),
    Tab(InterpretationTab, "Interpretação"), Tab(ApplicationTab, "Aplicação"),
    Tab(SermonTab, "Púlpito"), Tab(SlidesTab, "Slides")]

  const BookTabs: seq<Tab> := [
    Tab(BookGeneral, "Geral"), Tab(BookContext, "Contexto"), Tab(BookLiterary, "Literário"),
    Tab(BookTheology, "Teologia"), Tab(BookApplication, "Aplicação")]

  predicate IsBookTab(t: TabId)
  {
    t.BookGeneral? || t.BookContext? || t.BookLiterary? || t.BookTheology? || t.BookApplication?
  }

  /** The tabs shown for a study: the book tabs for a book study, the
      passage tabs for any other. */
  function Tabs(kind: StudyMode): (ts: seq<Tab>)
    ensures 5 <= |ts| && forall i :: 0 <= i < |ts| ==> (IsBookTab(ts[i].id) <==> kind == Book)
  {
    if kind == Book then BookTabs else PassageTabs
  }

  function TabIds(kind: StudyMode): (ids: seq<TabId>)
    ensures |ids| == |Tabs(kind)| && forall i :: 0 <= i < |ids| ==> ids[i] == Tabs(kind)[i].id
  {
    seq(|Tabs(kind)|, i requires 0 <= i < |Tabs(kind)| => Tabs(kind)[i].id)
  }

  /** The tab the viewer opens on: the first of the study's tabs. */
  function InitialTab(kind: StudyMode): (t: TabId)
    ensures t == Tabs(kind)[0].id
    ensures IsBookTab(t) <==> kind == Book
  {
    if kind == Book then BookGeneral else TextTab
  }

  // ---------------------------------------------------------------------
  // Font size

  const FontSizeClasses: seq<string> := ["text-sm", "text-base", "text-lg", "text-xl"]
  const MaxFontSizeLevel: int := 3

  /** The name shown between the two font-size buttons. */
  function FontSizeLabel(level: int): (r: string)
    ensures level == 0 ==> r == "Pequeno"
    ensures level == 1 ==> r == "Padrão"
    ensures level == 2 ==> r == "Grande"
    ensures level !in {0, 1, 2} ==> r == "Extra"
  {
    if level == 1 then "Padrão" else if level == 0 then "Pequeno" else if level == 2 then "Grande" else "Extra"
  }

  function Max(a: int, b: int): int { if a >= b then a else b }
  function Min(a: int, b: int): int { if a <= b then a else b }

  // ---------------------------------------------------------------------
  // The file name of the Markdown download

  /** `title.replace(/\s/g, '_')`. */
  function ExportFileName(title: string): (r: string)
    ensures |r| == |title|
    ensures forall i :: 0 <= i < |title| ==> r[i] == (if IsSpace(title[i]) then '_' else title[i])
  {
    if title == [] then []
    else [if IsSpace(title[0]) then '_' else title[0]] + ExportFileName(title[1..])
  }

  /** The file name holds no white space. */
  lemma FileNameHasNoSpace(title: string)
    ensures forall i :: 0 <= i < |ExportFileName(title)| ==> !IsSpace(ExportFileName(title)[i])
  {
  }

  /** A title without white space is its own file name, so sanitising
      twice is sanitising once. */
  lemma FileNameOfPlainTitle(title: string)
    requires forall i :: 0 <= i < |title| ==> !IsSpace(title[i])
    ensures ExportFileName(title) == title
  {
  }

  lemma FileNameIdempotent(title: string)
    ensures ExportFileName(ExportFileName(title)) == ExportFileName(title)
  {
    FileNameHasNoSpace(title);
    FileNameOfPlainTitle(ExportFileName(title));
  }

  const DownloadPrefix: string := "estudo-"
  const DownloadSuffix: string := ".md"

  /** `estudo-${fileName}.md`. */
  function MarkdownFileName(title: string): (r: string)
    ensures StartsWith(r, DownloadPrefix) && EndsWith(r, DownloadSuffix)
    ensures |r| == |title| + 10 && r[7..|r| - 3] == ExportFileName(title)
    ensures forall i :: 0 <= i < |r| ==> !IsSpace(r[i])
  {
    var r := DownloadPrefix + ExportFileName(title) + DownloadSuffix;
    assert r[..7] == DownloadPrefix && r[|r| - 3..] == DownloadSuffix;
    assert r[7..|r| - 3] == ExportFileName(title);
    FileNameHasNoSpace(title);
    assert forall i :: 7 <= i < |r| - 3 ==> r[i] == ExportFileName(title)[i - 7];
    r
  }

  // ---------------------------------------------------------------------
  // The sermon copied to the clipboard

  /** One point on lines of its own: after the leading line break come its
      number and a full stop, and the last line closes with `]`. */
  function PointCopy(n: nat, p: SermonPoint): (r: string)
    ensures var d := NatToString(n);
      |r| > 2 + |d| && r[0] == '\n' && r[1..1 + |d|] == d && r[1 + |d|] == '.'
    ensures r[|r| - 2..] == "]\n"
  {
    PointNumber(n, p);
    "\n" + PointLines(n, p) + "\n"
  }

  /** A point's lines: its number, its title in capitals, the explanation,
      the illustration and the application. */
  function PointLines(n: nat, p: SermonPoint): string
  {
    NatToString(n) + PointBody(p) + "]"
  }

  function PointBody(p: SermonPoint): string
  {
    ". " + Upper(p.title) + "\n" + p.explanation
    + "\n[Ilustração: " + p.illustration + "]\n[Aplicação: " + p.application
  }

  /** The points, numbered from 1. */
  function PointCopies(ps: seq<SermonPoint>): (r: seq<string>)
    ensures |r| == |ps| && forall i :: 0 <= i < |ps| ==> r[i] == PointCopy(i + 1, ps[i])
  {
    seq(|ps|, i requires 0 <= i < |ps| => PointCopy(i + 1, ps[i]))
  }

  const CopyTitleLabel: string := "TÍTULO:"

  /** The title and focus lines and the introduction's label. */
  function CopyHead(s: SermonContent): string
  {
    CopyTitleLabel + (" " + s.title + "\nTEXTO: " + s.text_focus + "\n\n") + "INTRODUÇÃO"
  }

  /** The introduction, the points and the conclusion. */
  function CopyBody(s: SermonContent): string
  {
    "\n" + s.introduction + "\n\n" + Join("\n", PointCopies(s.points))
    + ("\n\nCONCLUSÃO\n" + s.conclusion + "\n    ")
  }

  /** The template before `trim`. */
  function SermonCopyTemplate(s: SermonContent): string
  {
    "\n" + CopyHead(s) + CopyBody(s)
  }

  /** `handleCopySermon`: nothing without a sermon; otherwise the sermon as
      plain text, trimmed, opening with its title and focus lines and holding
      every point, numbered from 1 in order, with its title in capitals. */
  function CopySermonText(data: StudyData): (r: Option<string>)
    ensures r.Some? <==> data.sermon.Some?
    ensures r.Some? ==> StartsWith(r.value, CopyHead(data.sermon.value)) && IsTrimmed(r.value)
    ensures r.Some? ==> var ps := data.sermon.value.points;
      forall i :: 0 <= i < |ps| ==> Contains(r.value, PointLines(i + 1, ps[i]))
  {
    match data.sermon
    case None => None
    case Some(s) =>
      VisibleEnds(CopyTitleLabel, " " + s.title + "\nTEXTO: " + s.text_focus + "\n\n", "INTRODUÇÃO");
      TrimStartsWith("\n", CopyHead(s), CopyBody(s));
      CopyHasPoints(s);
      Some(Trim(SermonCopyTemplate(s)))
  }

  /** The trimmed template holds every point's lines. */
  lemma CopyHasPoints(s: SermonContent)
    ensures var r, ps := Trim(SermonCopyTemplate(s)), s.points;
      forall i :: 0 <= i < |ps| ==> Contains(r, PointLines(i + 1, ps[i]))
  {
    var t, ps, j := SermonCopyTemplate(s), s.points, Join("\n", PointCopies(s.points));
    ContainsMiddle("\n" + s.introduction + "\n\n", j, "\n\nCONCLUSÃO\n" + s.conclusion + "\n    ");
    ContainsRight("\n" + CopyHead(s), CopyBody(s));
    ContainsTransitive(t, CopyBody(s), j);
    forall i | 0 <= i < |ps|
      ensures Contains(Trim(t), PointLines(i + 1, ps[i]))
    {
      var l := PointLines(i + 1, ps[i]);
      JoinHasPart("\n", PointCopies(ps), i);
      ContainsMiddle("\n", l, "\n");
      ContainsTransitive(j, PointCopy(i + 1, ps[i]), l);
      ContainsTransitive(t, j, l);
      VisibleEnds(NatToString(i + 1), PointBody(ps[i]), "]");
      ContainsSurvivesTrim(t, l);
    }
  }

  /** The copied point is a line break, the numeral and the body, whose
      first character is the full stop. */
  lemma PointNumber(n: nat, p: SermonPoint)
    ensures var c, d := "\n" + PointLines(n, p) + "\n", NatToString(n);
      |c| > 2 + |d| && c[1..1 + |d|] == d && c[1 + |d|] == '.'
  {
    var d, b := NatToString(n), PointBody(p);
    assert b[0] == '.';
    var c := "\n" + PointLines(n, p) + "\n";
    assert c == "\n" + d + (b + "]" + "\n");
    NumberAfterBreak(d, b + "]" + "\n");
  }

  lemma NumberAfterBreak(d: string, body: string)
    requires body != [] && body[0] == '.'
    ensures var c := "\n" + d + body;
      |c| > 1 + |d| && c[1..1 + |d|] == d && c[1 + |d|] == '.'
  {
    var c := "\n" + d + body;
    assert c[1..1 + |d|] == d;
  }

  lemma PointNumbersDistinct(m: nat, n: nat, p: SermonPoint, q: SermonPoint)
    requires m != n
    ensures PointCopy(m, p) != PointCopy(n, q)
  {
    NatToStringInjective(m, n);
  }

  /** A point's title is copied in capitals: no ASCII small letter is left. */
  lemma {:induction false} UpperHasNoSmallLetter(s: string)
    ensures forall i :: 0 <= i < |Upper(s)| ==> !('a' <= Upper(s)[i] <= 'z')
  {
    if s != [] {
      UpperHasNoSmallLetter(s[1..]);
      var u := Upper(s);
      assert u == UpperChar(s[0]) + Upper(s[1..]);
      assert forall i :: |UpperChar(s[0])| <= i < |u| ==> u[i] == Upper(s[1..])[i - |UpperChar(s[0])|];
    }
  }

  /** Capitalising twice is capitalising once. */
  lemma {:induction false} UpperIdempotent(s: string)
    ensures Upper(Upper(s)) == Upper(s)
  {
    if s != [] {
      UpperIdempotent(s[1..]);
      var head := UpperChar(s[0]);
      UpperOfUpperChar(s[0]);
      UpperAppend(head, Upper(s[1..]));
    }
  }

  lemma UpperOfUpperChar(c: char)
    ensures Upper(UpperChar(c)) == UpperChar(c)
  {
    var u := UpperChar(c);
    if |u| == 1 {
      assert Upper(u) == UpperChar(u[0]) + Upper(u[1..]);
    } else {
      assert u == "SS";
      assert Upper(u) == UpperChar('S') + Upper("S");
    }
  }

  lemma {:induction false} UpperAppend(a: string, b: string)
    ensures Upper(a + b) == Upper(a) + Upper(b)
  {
    if a != [] {
      assert (a + b)[0] == a[0] && (a + b)[1..] == a[1..] + b;
      UpperAppend(a[1..], b);
    } else {
      assert a + b == b;
    }
  }

  // ---------------------------------------------------------------------
  // The viewer's state

  datatype ExportFormat = Pdf | Doc | Pptx | Md

  /** A Markdown download: the file name and the text. */
  datatype Download = Download(fileName: string, text: string)

  class Viewer {
    const data: StudyData
    var activeTab: TabId
    var readingMode: bool
    var fontSizeLevel: int
    var fontSerif: bool
    var showAppearanceMenu: bool
    var showExportMenu: bool
    var editableTitle: string

    /** The font-size level indexes the class list, and the open tab is one
        of the study's tabs. */
    ghost predicate Valid()
      reads this
    {
      0 <= fontSizeLevel <= MaxFontSizeLevel && activeTab in TabIds(data.kind)
    }

    constructor(d: StudyData)
      ensures data == d && Valid()
      ensures activeTab == InitialTab(d.kind) && fontSizeLevel == 1
      ensures !readingMode && !fontSerif && !showAppearanceMenu && !showExportMenu
      ensures editableTitle == d.meta.reference
    {
      data := d;
      activeTab := InitialTab(d.kind);
      readingMode := false;
      fontSizeLevel := 1;
      fontSerif := false;
      showAppearanceMenu := false;
      showExportMenu := false;
      editableTitle := d.meta.reference;
      assert TabIds(d.kind)[0] == InitialTab(d.kind);
    }

    /** The class of the current font size. */
    function CurrentFontSize(): (r: string)
      reads this
      requires Valid()
      ensures r in FontSizeClasses
    {
      FontSizeClasses[fontSizeLevel]
    }

    /** The class of the font family: one of the two classes, the serif one
        exactly when serif is chosen. */
    function CurrentFontFamily(): (r: string)
      reads this
      ensures r in {"font-serif", "font-sans"}
      ensures r == "font-serif" <==> fontSerif
    {
      if fontSerif then "font-serif" else "font-sans"
    }

    /** The minus button: one level smaller, never below the smallest. */
    method DecreaseFont()
      requires Valid()
      modifies this
      ensures Valid() && fontSizeLevel == Max(0, old(fontSizeLevel) - 1)
      ensures old(fontSizeLevel) > 0 ==> fontSizeLevel == old(fontSizeLevel) - 1
      ensures activeTab == old(activeTab) && readingMode == old(readingMode) && fontSerif == old(fontSerif)
      ensures showAppearanceMenu == old(showAppearanceMenu) && showExportMenu == old(showExportMenu)
      ensures editableTitle == old(editableTitle)
    {
      fontSizeLevel := Max(0, fontSizeLevel - 1);
    }

    /** The plus button: one level larger, never above the largest. */
    method IncreaseFont()
      requires Valid()
      modifies this
      ensures Valid() && fontSizeLevel == Min(MaxFontSizeLevel, old(fontSizeLevel) + 1)
      ensures old(fontSizeLevel) < MaxFontSizeLevel ==> fontSizeLevel == old(fontSizeLevel) + 1
      ensures activeTab == old(activeTab) && readingMode == old(readingMode) && fontSerif == old(fontSerif)
      ensures showAppearanceMenu == old(showAppearanceMenu) && showExportMenu == old(showExportMenu)
      ensures editableTitle == old(editableTitle)
    {
      fontSizeLevel := Min(MaxFontSizeLevel, fontSizeLevel + 1);
    }

    /** The Sans and Serif buttons. */
    method SetSerif(serif: bool)
      requires Valid()
      modifies this
      ensures Valid() && fontSerif == serif
      ensures activeTab == old(activeTab) && readingMode == old(readingMode) && fontSizeLevel == old(fontSizeLevel)
      ensures showAppearanceMenu == old(showAppearanceMenu) && showExportMenu == old(showExportMenu)
      ensures editableTitle == old(editableTitle)
    {
      fontSerif := serif;
    }

    /** The appearance button opens or closes its menu. */
    method ToggleAppearanceMenu()
      requires Valid()
      modifies this
      ensures Valid() && showAppearanceMenu == !old(showAppearanceMenu)
      ensures activeTab == old(activeTab) && readingMode == old(readingMode) && fontSizeLevel == old(fontSizeLevel)
      ensures fontSerif == old(fontSerif) && showExportMenu == old(showExportMenu)
      ensures editableTitle == old(editableTitle)
    {
      showAppearanceMenu := !showAppearanceMenu;
    }

    /** The export button opens or closes its menu. */
    method ToggleExportMenu()
      requires Valid()
      modifies this
      ensures Valid() && showExportMenu == !old(showExportMenu)
      ensures activeTab == old(activeTab) && readingMode == old(readingMode) && fontSizeLevel == old(fontSizeLevel)
      ensures fontSerif == old(fontSerif) && showAppearanceMenu == old(showAppearanceMenu)
      ensures editableTitle == old(editableTitle)
    {
      showExportMenu := !showExportMenu;
    }

    /** The reading-mode button switches the mode and closes the menu. */
    method ToggleReadingMode()
      requires Valid()
      modifies this
      ensures Valid() && readingMode == !old(readingMode) && !showAppearanceMenu
      ensures activeTab == old(activeTab) && fontSizeLevel == old(fontSizeLevel) && fontSerif == old(fontSerif)
      ensures showExportMenu == old(showExportMenu) && editableTitle == old(editableTitle)
    {
      readingMode := !readingMode;
      showAppearanceMenu := false;
    }

    /** The button that leaves reading mode. */
    method ExitReadingMode()
      requires Valid()
      modifies this
      ensures Valid() && !readingMode
      ensures activeTab == old(activeTab) && fontSizeLevel == old(fontSizeLevel) && fontSerif == old(fontSerif)
      ensures showAppearanceMenu == old(showAppearanceMenu) && showExportMenu == old(showExportMenu)
      ensures editableTitle == old(editableTitle)
    {
      readingMode := false;
    }

    /** A click on the `i`-th of the study's tabs opens it. */
    method SelectTab(i: nat)
      requires Valid() && i < |Tabs(data.kind)|
      modifies this
      ensures Valid() && activeTab == Tabs(data.kind)[i].id
      ensures readingMode == old(readingMode) && fontSizeLevel == old(fontSizeLevel) && fontSerif == old(fontSerif)
      ensures showAppearanceMenu == old(showAppearanceMenu) && showExportMenu == old(showExportMenu)
      ensures editableTitle == old(editableTitle)
    {
      activeTab := Tabs(data.kind)[i].id;
      assert TabIds(data.kind)[i] == activeTab;
    }

    /** Typing in the title field. */
    method EditTitle(title: string)
      requires Valid()
      modifies this
      ensures Valid() && editableTitle == title
      ensures activeTab == old(activeTab) && readingMode == old(readingMode) && fontSizeLevel == old(fontSizeLevel)
      ensures fontSerif == old(fontSerif) && showAppearanceMenu == old(showAppearanceMenu)
      ensures showExportMenu == old(showExportMenu)
    {
      editableTitle := title;
    }

    /** `handleExport`: the export menu closes; the Markdown choice yields a
        download named after the edited title and holding the Markdown text.
        The other formats hand the study to exporters outside this model. */
    method HandleExport(format: ExportFormat, formatDate: string -> string) returns (download: Option<Download>)
      requires Valid()
      modifies this
      ensures Valid() && !showExportMenu
      ensures download.Some? <==> format == Md
      ensures download.Some? ==>
        download.value.fileName == MarkdownFileName(editableTitle) && download.value.text == ExportService.Markdown(data, formatDate)
      ensures activeTab == old(activeTab) && readingMode == old(readingMode) && fontSizeLevel == old(fontSizeLevel)
      ensures fontSerif == old(fontSerif) && showAppearanceMenu == old(showAppearanceMenu)
      ensures editableTitle == old(editableTitle)
    {
      showExportMenu := false;
      var fileName := ExportFileName(editableTitle);
      if format == Md {
        var md := ExportService.ExportToMarkdown(data, formatDate);
        download := Some(Download(DownloadPrefix + fileName + DownloadSuffix, md));
      } else {
        download := None;
      }
    }
  }
}
