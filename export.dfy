/** The Markdown export of a study: the eighteen-section book introduction,
    or the passage study followed by the sermon and the slide outline when
    they are present. The date formatting of the browser's locale is the
    parameter `formatDate`, applied to `meta.generated_at`. */
module ExportService {
  import opened Wrappers
  import opened Text
  import opened StudyTypes

  /** Each item with `prefix` in front: the `items.map(x => prefix + x)` of
      the templates. */
  function Prefixed(prefix: string, items: seq<string>): (r: seq<string>)
    ensures |r| == |items| && forall i :: 0 <= i < |items| ==> r[i] == prefix + items[i]
  {
    seq(|items|, i requires 0 <= i < |items| => prefix + items[i])
  }

  /** A bulleted list, one `- ` line per item. */
  function BulletList(items: seq<string>): string
  {
    Join("\n", Prefixed("- ", items))
  }

  /** `x || ''` on an optional field. */
  function OrEmpty(x: Option<string>): (r: string)
    ensures x.None? ==> r == ""
    ensures x.Some? ==> r == x.value
  {
    x.GetOr("")
  }

  // ---------------------------------------------------------------------
  // Book introduction

  /** A titled section of the book introduction, before numbering. */
  datatype Section = Section(title: string, body: string)

  function ItemLines(pairs: seq<(string, string)>): string
  {
    Join("\n", seq(|pairs|, i requires 0 <= i < |pairs| => "- **" + pairs[i].0 + ":** " + pairs[i].1))
  }

  function CharacterLines(cs: seq<Character>): string
  {
    ItemLines(seq(|cs|, i requires 0 <= i < |cs| => (cs[i].name, cs[i].role)))
  }

  function KeyPassageLines(ks: seq<KeyPassage>): string
  {
    ItemLines(seq(|ks|, i requires 0 <= i < |ks| => (ks[i].reference, ks[i].description)))
  }

  /** The titles of the eighteen sections, in order. */
  const BookSectionTitles: seq<string> := [
    "Identificação Geral", "Autoria", "Datação", "Destinatários", "Contexto Histórico e Cultural",
    "Contexto Canônico", "Propósito", "Temas Principais", "Mensagem Central", "Estrutura Literária",
    "Estilo", "Principais Personagens", "Teologia", "Passagens-Chave", "Plano Redentivo",
    "Aplicações Práticas", "Desafios de Interpretação", "Conclusão"]

  /** The eighteen sections, in order, under their titles. */
  function BookSections(b: BookIntroContent): (r: seq<Section>)
    ensures |r| == 18 && forall i :: 0 <= i < 18 ==> r[i].title == BookSectionTitles[i]
  {
    [ Section("Identificação Geral",
        ItemLines([("Nome", b.general_id.name), ("Original", b.general_id.original_name),
                   ("Posição", b.general_id.canon_position)])),
      Section("Autoria",
        ItemLines([("Tradicional", b.authorship.author_traditional),
                   ("Evidências Internas", b.authorship.internal_evidence),
                   ("Evidências Externas", b.authorship.external_evidence),
                   ("Debate Acadêmico", b.authorship.academic_debate)])),
      Section("Datação",
        ItemLines([("Data", b.dating.approximate_date), ("Contexto", b.dating.historical_context),
                   ("Eventos", b.dating.contemporary_events), ("Argumentos", b.dating.arguments)])),
      Section("Destinatários",
        ItemLines([("Público", b.recipients.target_audience), ("Local", b.recipients.location),
                   ("Condições Sociais", b.recipients.social_conditions),
                   ("Situação Espiritual", b.recipients.spiritual_situation)])),
      Section("Contexto Histórico e Cultural",
        ItemLines([("Panorama Político", b.context_cultural.political_panorama),
                   ("Cultura e Costumes", b.context_cultural.culture_customs),
                   ("Econômico/Social", b.context_cultural.economic_social),
                   ("Relação Vizinhos", b.context_cultural.neighbors_relation)])),
      Section("Contexto Canônico",
        ItemLines([("Relação Anterior/Posterior", b.context_canonical.relation_prev_next),
                   ("Continuidade/Ruptura", b.context_canonical.continuity_rupture),
                   ("Cumprimento de Promessas", b.context_canonical.promise_fulfillment),
                   ("Preparação Narrativa", b.context_canonical.narrative_preparation)])),
      Section("Propósito",
        ItemLines([("Objetivo", b.purpose.main_objective), ("Problemas", b.purpose.problems_addressed),
                   ("Intenção", b.purpose.intent)])),
      Section("Temas Principais", BulletList(b.themes)),
      Section("Mensagem Central", "> " + b.central_message),
      Section("Estrutura Literária",
        "**Gênero:** " + b.structure.genre + "\n**Progressão:** " + b.structure.progression
        + "\n### Seções\n" + BulletList(b.structure.sections)),
      Section("Estilo",
        ItemLines([("Características", b.style.literary_features), ("Técnicas", b.style.techniques),
                   ("Palavras-Chave", Join(", ", b.style.keywords))])),
      Section("Principais Personagens", CharacterLines(b.characters)),
      Section("Teologia",
        ItemLines([("Doutrinas", Join(", ", b.theology.doctrines)),
                   ("Contribuições", b.theology.contributions),
                   ("Controvérsias", b.theology.controversies)])),
      Section("Passagens-Chave", KeyPassageLines(b.key_passages)),
      Section("Plano Redentivo",
        ItemLines([("Aponta para Cristo", b.redemptive_plan.christ_pointer),
                   ("Relação com Salvação", b.redemptive_plan.salvation_relation)])),
      Section("Aplicações Práticas",
        "- **Princípios:**\n" + Join("\n", Prefixed("  - ", b.application.principles))
        + "\n- **Relevância Eclesial:** " + b.application.church_relevance
        + "\n- **Implicações Pastorais:** " + b.application.pastoral_implications),
      Section("Desafios de Interpretação",
        "- **Problemas Hermenêuticos:** " + b.interpretation_challenges.hermeneutic_problems
        + "\n- **Textos Difíceis:**\n" + Join("\n", Prefixed("  - ", b.interpretation_challenges.difficult_texts))),
      Section("Conclusão", b.conclusion) ]
  }

  /** The heading line of section number `n`. */
  function Heading(n: nat, title: string): string
  {
    "## " + NatToString(n) + ". " + title
  }

  /** The sections with their headings, numbered from 1. */
  function NumberedSections(ss: seq<Section>): (r: seq<string>)
    ensures |r| == |ss|
    ensures forall i :: 0 <= i < |ss| ==> r[i] == Heading(i + 1, ss[i].title) + "\n" + ss[i].body
  {
    seq(|ss|, i requires 0 <= i < |ss| => Heading(i + 1, ss[i].title) + "\n" + ss[i].body)
  }

  const BookTitlePrefix: string := "\n# Introdução ao Livro de "
  const BookTail: string := "\n      "

  /** The text between the title prefix and the trailing indentation: the
      book's name, the date line and the numbered sections. */
  function BookMiddle(b: BookIntroContent, date: string): string
  {
    b.general_id.name + (BookDateLine(date) + BookBody(b))
  }

  function BookDateLine(date: string): string
  {
    "\n**Gerado em:** " + date + "\n\n---\n\n"
  }

  /** The eighteen numbered sections, a blank line between two of them. */
  function BookBody(b: BookIntroContent): string
  {
    Join("\n\n", NumberedSections(BookSections(b)))
  }

  /** The book template, returned without trimming: the title line names the
      book, and every one of the eighteen section headings occurs, each with
      its number. */
  function BookMarkdown(b: BookIntroContent, date: string): (r: string)
    ensures StartsWith(r, BookTitlePrefix + b.general_id.name) && EndsWith(r, BookTail)
    ensures forall i :: 0 <= i < 18 ==> Contains(r, Heading(i + 1, BookSectionTitles[i]))
  {
    var r := BookTitlePrefix + BookMiddle(b, date) + BookTail;
    var rest := BookDateLine(date) + BookBody(b);
    assert r == BookTitlePrefix + (b.general_id.name + rest) + BookTail;
    Framed(BookTitlePrefix, b.general_id.name, rest, BookTail);
    ContainsRight(b.general_id.name, rest);
    ContainsTransitive(r, b.general_id.name + rest, rest);
    ContainsRight(BookDateLine(date), BookBody(b));
    ContainsTransitive(r, rest, BookBody(b));
    BookHeadingsOccur(b, r);
    r
  }

  /** A text made of a head, a piece and a tail starts with the head and
      the piece's own start, ends with the tail and contains the piece. */
  lemma Framed(head: string, n: string, m: string, tail: string)
    ensures var r := head + (n + m) + tail;
      StartsWith(r, head + n) && EndsWith(r, tail) && Contains(r, n + m)
  {
    var r := head + (n + m) + tail;
    assert r == head + n + (m + tail);
    assert r[..|head + n|] == head + n;
    assert r[|r| - |tail|..] == tail;
    ContainsMiddle(head, n + m, tail);
  }

  /** The headings occur in any text that holds the sections. */
  lemma BookHeadingsOccur(b: BookIntroContent, r: string)
    requires Contains(r, BookBody(b))
    ensures forall i :: 0 <= i < 18 ==> Contains(r, Heading(i + 1, BookSectionTitles[i]))
  {
    var ss := BookSections(b);
    var ns := NumberedSections(ss);
    NumberedSectionsStart(ss);
    forall i | 0 <= i < 18
      ensures Contains(r, Heading(i + 1, ss[i].title))
    {
      JoinHasPart("\n\n", ns, i);
      StartsWithContains(ns[i], Heading(i + 1, ss[i].title));
      ContainsTransitive(BookBody(b), ns[i], Heading(i + 1, ss[i].title));
      ContainsTransitive(r, BookBody(b), Heading(i + 1, ss[i].title));
    }
  }

  /** Each numbered section starts with its heading. */
  lemma NumberedSectionsStart(ss: seq<Section>)
    ensures var ns := NumberedSections(ss);
      forall i :: 0 <= i < |ss| ==> StartsWith(ns[i], Heading(i + 1, ss[i].title))
  {
    var ns := NumberedSections(ss);
    forall i | 0 <= i < |ss|
      ensures StartsWith(ns[i], Heading(i + 1, ss[i].title))
    {
      var h := Heading(i + 1, ss[i].title);
      assert ns[i] == h + ("\n" + ss[i].body);
      assert ns[i][..|h|] == h;
    }
  }

  /** Each of the eighteen sections starts with its heading, numbered from 1
      in order. */
  lemma BookSectionsNumbered(b: BookIntroContent)
    ensures var ns := NumberedSections(BookSections(b));
      |ns| == 18 && forall i :: 0 <= i < 18 ==> StartsWith(ns[i], Heading(i + 1, BookSectionTitles[i]))
  {
    NumberedSectionsStart(BookSections(b));
  }

  /** A heading holds its number right after `## `, followed by a full stop. */
  lemma HeadingNumber(n: nat, t: string)
    ensures var h, d := Heading(n, t), NatToString(n);
      |h| > 3 + |d| && h[3..3 + |d|] == d && h[3 + |d|] == '.'
  {
    var h, d := Heading(n, t), NatToString(n);
    assert h == "## " + d + ". " + t;
    assert h[3..3 + |d|] == d;
  }

  /** Headings with different numbers differ, whatever their titles. */
  lemma HeadingNumbersDistinct(m: nat, n: nat, t: string, u: string)
    requires m != n
    ensures Heading(m, t) != Heading(n, u)
  {
    HeadingNumber(m, t);
    HeadingNumber(n, u);
    NatToStringInjective(m, n);
  }

  // ---------------------------------------------------------------------
  // Passage study

  /** The heading line of a parallel passage: its reference and, in
      parentheses, how it correlates. */
  function ParallelHeading(p: ParallelPassage): string
  {
    "### " + (p.reference + " (" + p.correlation) + ")"
  }

  function ParallelBlock(p: ParallelPassage): string
  {
    ParallelHeading(p) + "\n" + p.text
  }

  function ParallelBlocks(ps: seq<ParallelPassage>): (r: seq<string>)
    ensures |r| == |ps|
  {
    seq(|ps|, i requires 0 <= i < |ps| => ParallelBlock(ps[i]))
  }

  const ParallelsTitle: string := "## Paralelos e Correlações"

  /** The parallels section: present only for a non-empty list. */
  function ParallelsSection(ps: seq<ParallelPassage>): (r: string)
    ensures r == "" <==> |ps| == 0
  {
    if |ps| > 0 then "\n" + ParallelsTitle + "\n" + Join("\n\n", ParallelBlocks(ps)) + "\n"
    else ""
  }

  /** A non-empty parallels section carries its title and the heading of
      every passage. */
  lemma ParallelsSectionHeadings(ps: seq<ParallelPassage>)
    requires |ps| > 0
    ensures var r := ParallelsSection(ps);
      Contains(r, ParallelsTitle) && forall i :: 0 <= i < |ps| ==> Contains(r, ParallelHeading(ps[i]))
  {
    var r, j := ParallelsSection(ps), Join("\n\n", ParallelBlocks(ps));
    assert r == "\n" + ParallelsTitle + "\n" + j + "\n";
    ContainsMiddle("\n", ParallelsTitle, "\n");
    ContainsLeft("\n" + ParallelsTitle + "\n", j);
    ContainsLeft("\n" + ParallelsTitle + "\n" + j, "\n");
    ContainsTransitive("\n" + ParallelsTitle + "\n" + j, "\n" + ParallelsTitle + "\n", ParallelsTitle);
    ContainsTransitive(r, "\n" + ParallelsTitle + "\n" + j, ParallelsTitle);
    ContainsMiddle("\n" + ParallelsTitle + "\n", j, "\n");
    forall i | 0 <= i < |ps|
      ensures Contains(r, ParallelHeading(ps[i]))
    {
      var bs := ParallelBlocks(ps);
      JoinHasPart("\n\n", bs, i);
      ContainsLeft(ParallelHeading(ps[i]) + "\n", ps[i].text);
      ContainsLeft(ParallelHeading(ps[i]), "\n");
      ContainsTransitive(bs[i], ParallelHeading(ps[i]) + "\n", ParallelHeading(ps[i]));
      ContainsTransitive(j, bs[i], ParallelHeading(ps[i]));
      ContainsTransitive(r, j, ParallelHeading(ps[i]));
    }
  }

  /** One row of the lexical table: its cells between the outer bars. */
  function LexicalRow(l: LexicalEntry): string
  {
    "|" + LexicalCells(l) + "|"
  }

  function LexicalCells(l: LexicalEntry): string
  {
    " " + l.word + " | " + l.lemma_form + " (" + l.transliteration + ") | " + l.morphology + " | " + l.meaning + " "
  }

  /** The rows of the lexical table: one per entry, in the entries' order. */
  function LexicalRows(ls: seq<LexicalEntry>): (r: seq<string>)
    ensures |r| == |ls| && forall i :: 0 <= i < |ls| ==> r[i] == LexicalRow(ls[i])
  {
    seq(|ls|, i requires 0 <= i < |ls| => LexicalRow(ls[i]))
  }

  /** A bibliography entry; a missing publisher or year prints as nothing. */
  function BibliographyBlock(b: BibliographicEntry): string
  {
    "### " + b.author + ". *" + b.title + "*. " + OrEmpty(b.publisher) + ", " + OrEmpty(b.year) + ".\n> " + b.annotation
  }

  const PassageTitle: string := "# Estudo Exegético:"

  /** Reference, translation, date, key quote and the executive summary. */
  function SummaryPart(meta: Meta, date: string, s: Summary): string
  {
    " " + meta.reference
    + "\n**Tradução:** " + meta.translation
    + "\n**Gerado em:** " + date
    + "\n\n> \"" + s.key_quote + "\""
    + "\n\n---\n\n## Resumo Executivo\n" + s.executive
    + "\n\n### Pontos para Pregação\n" + BulletList(s.preaching_points)
  }

  /** Base text, introduction, context and the parallels. */
  function ContextPart(c: Content): string
  {
    "\n\n---\n\n## Texto Base\n> " + c.text_base
    + "\n\n## Introdução\n" + c.intro_definition
    + "\n\n## Contexto\n**Literário:** " + c.context_literary
    + "\n\n**Histórico:** " + c.context_historical
    + "\n" + ParallelsSection(c.parallels)
  }

  const LexicalHeader: string :=
    "\n\n## Análise Léxica\n| Palavra | Original | Morfologia | Significado |\n|---------|----------|------------|-------------|\n"

  /** The lexical table. */
  function LexicalPart(c: Content): string
  {
    LexicalHeader + Join("\n", LexicalRows(c.lexical_analysis))
  }

  /** A row starts and ends with a bar. */
  lemma LexicalRowTrimmed(l: LexicalEntry)
    ensures LexicalRow(l) != [] && IsTrimmed(LexicalRow(l))
  {
    VisibleEnds("|", LexicalCells(l), "|");
  }

  /** The table holds every row, each row on the line right above the next
      one: the rows keep the entries' order. */
  lemma LexicalPartRows(c: Content)
    ensures var ls, r := c.lexical_analysis, LexicalPart(c);
      && (forall i :: 0 <= i < |ls| ==> Contains(r, LexicalRow(ls[i])))
      && (forall i :: 0 <= i < |ls| - 1 ==> Contains(r, LexicalRow(ls[i]) + "\n" + LexicalRow(ls[i + 1])))
  {
    var ls, j := c.lexical_analysis, Join("\n", LexicalRows(c.lexical_analysis));
    ContainsRight(LexicalHeader, j);
    forall i | 0 <= i < |ls|
      ensures Contains(LexicalPart(c), LexicalRow(ls[i]))
    {
      JoinHasPart("\n", LexicalRows(ls), i);
      ContainsTransitive(LexicalPart(c), j, LexicalRow(ls[i]));
    }
    forall i | 0 <= i < |ls| - 1
      ensures Contains(LexicalPart(c), LexicalRow(ls[i]) + "\n" + LexicalRow(ls[i + 1]))
    {
      JoinHasNeighbours("\n", LexicalRows(ls), i);
      ContainsTransitive(LexicalPart(c), j, LexicalRow(ls[i]) + "\n" + LexicalRow(ls[i + 1]));
    }
  }

  /** The interpretations and the theologians. */
  function InterpretationPart(c: Content): string
  {
    "\n\n## Interpretação\n"
    + Join("\n\n", seq(|c.interpretations|, i requires 0 <= i < |c.interpretations| =>
        "### " + c.interpretations[i].tradition + "\n" + c.interpretations[i].summary))
    + "\n\n### Teólogos e Pensadores\n"
    + Join("\n\n", seq(|c.theologians|, i requires 0 <= i < |c.theologians| =>
        "#### " + c.theologians[i].name + " (" + c.theologians[i].era + ")\n" + c.theologians[i].view))
  }

  /** Application, study questions and the annotated bibliography. */
  function ClosingPart(c: Content): string
  {
    "\n\n## Aplicação\n" + c.implications
    + "\n\n## Perguntas para Estudo\n" + BulletList(c.study_questions)
    + "\n\n## Bibliografia Comentada\n"
    + Join("\n\n", seq(|c.bibliography|, i requires 0 <= i < |c.bibliography| => BibliographyBlock(c.bibliography[i])))
    + "\n"
  }

  /** The passage template after its title, before the sermon and slides. */
  function StudyRest(meta: Meta, date: string, s: Summary, c: Content): string
  {
    SummaryPart(meta, date, s) + ContextPart(c) + LexicalPart(c) + InterpretationPart(c) + ClosingPart(c)
  }

  /** The block of sermon point `n`: its heading and explanation, then the
      illustration and the application. */
  function SermonPointBlock(n: nat, p: SermonPoint): string
  {
    "\n" + PointHeading(n, p) + (" " + p.illustration + "\n*Aplicação:* " + p.application + "\n")
  }

  /** The numbered heading of a point, its explanation and the label of its
      illustration. */
  function PointHeading(n: nat, p: SermonPoint): string
  {
    "### " + NatToString(n) + ". " + p.title + "\n" + p.explanation + "\n\n*Ilustração:*"
  }

  /** The points, numbered from 1. */
  function SermonPointBlocks(ps: seq<SermonPoint>): (r: seq<string>)
    ensures |r| == |ps| && forall i :: 0 <= i < |ps| ==> r[i] == SermonPointBlock(i + 1, ps[i])
  {
    seq(|ps|, i requires 0 <= i < |ps| => SermonPointBlock(i + 1, ps[i]))
  }

  /** The sermon section: a rule, the title line, the focus text and the
      introduction, the points, and the conclusion. */
  function SermonSection(s: SermonContent): string
  {
    SermonOpening(s) + Join("\n", SermonPointBlocks(s.points)) + ("\n\n## Conclusão\n" + s.conclusion + "\n")
  }

  function SermonOpening(s: SermonContent): string
  {
    "\n---\n" + SermonTitleLine(s)
    + (" " + s.text_focus + "\n\n## Introdução\n" + s.introduction + "\n\n## Tópicos\n")
  }

  /** The sermon's title line and the label of its focus text. */
  function SermonTitleLine(s: SermonContent): string
  {
    "# SERMÃO EXPOSITIVO: " + s.title + "\n\n**Texto:**"
  }

  /** The sermon section carries its title line and the heading of every
      point, numbered from 1 in order. */
  lemma SermonSectionHeadings(s: SermonContent)
    ensures var r := SermonSection(s);
      && Contains(r, SermonTitleLine(s))
      && forall i :: 0 <= i < |s.points| ==> Contains(r, PointHeading(i + 1, s.points[i]))
  {
    var r, o, j := SermonSection(s), SermonOpening(s), Join("\n", SermonPointBlocks(s.points));
    var c := "\n\n## Conclusão\n" + s.conclusion + "\n";
    ContainsMiddle(o, j, c);
    ContainsLeft(o + j, c);
    ContainsLeft(o, j);
    ContainsTransitive(r, o + j, o);
    ContainsMiddle("\n---\n", SermonTitleLine(s),
      " " + s.text_focus + "\n\n## Introdução\n" + s.introduction + "\n\n## Tópicos\n");
    ContainsTransitive(r, o, SermonTitleLine(s));
    forall i | 0 <= i < |s.points|
      ensures Contains(r, PointHeading(i + 1, s.points[i]))
    {
      var p := s.points[i];
      JoinHasPart("\n", SermonPointBlocks(s.points), i);
      ContainsMiddle("\n", PointHeading(i + 1, p), " " + p.illustration + "\n*Aplicação:* " + p.application + "\n");
      ContainsTransitive(j, SermonPointBlock(i + 1, p), PointHeading(i + 1, p));
      ContainsTransitive(r, j, PointHeading(i + 1, p));
    }
  }

  /** The block of slide number `n`: its heading, bullets and the label of
      its visual hint, then the hint. */
  function SlideBlock(n: nat, s: SlideContent): string
  {
    "\n" + SlideHeading(n, s) + (" " + s.image_hint + "\n")
  }

  function SlideHeading(n: nat, s: SlideContent): string
  {
    "### Slide " + NatToString(n) + ": " + s.title + "\n" + BulletList(s.bullets) + "\n*Visual:*"
  }

  /** The slides, numbered from 1. */
  function SlideBlocks(ss: seq<SlideContent>): (r: seq<string>)
    ensures |r| == |ss| && forall i :: 0 <= i < |ss| ==> r[i] == SlideBlock(i + 1, ss[i])
  {
    seq(|ss|, i requires 0 <= i < |ss| => SlideBlock(i + 1, ss[i]))
  }

  const SlidesTitle: string := "## Esboço de Slides"

  function SlidesSection(ss: seq<SlideContent>): string
  {
    "\n---\n" + SlidesTitle + "\n" + Join("\n", SlideBlocks(ss)) + "\n  "
  }

  /** The slides section carries its title and the heading of every slide,
      numbered from 1 in order. */
  lemma SlidesSectionHeadings(ss: seq<SlideContent>)
    ensures var r := SlidesSection(ss);
      && Contains(r, SlidesTitle)
      && forall i :: 0 <= i < |ss| ==> Contains(r, SlideHeading(i + 1, ss[i]))
  {
    var r, h, j := SlidesSection(ss), "\n---\n" + SlidesTitle + "\n", Join("\n", SlideBlocks(ss));
    ContainsMiddle(h, j, "\n  ");
    ContainsLeft(h + j, "\n  ");
    ContainsLeft(h, j);
    ContainsTransitive(r, h + j, h);
    ContainsMiddle("\n---\n", SlidesTitle, "\n");
    ContainsTransitive(r, h, SlidesTitle);
    forall i | 0 <= i < |ss|
      ensures Contains(r, SlideHeading(i + 1, ss[i]))
    {
      JoinHasPart("\n", SlideBlocks(ss), i);
      ContainsMiddle("\n", SlideHeading(i + 1, ss[i]), " " + ss[i].image_hint + "\n");
      ContainsTransitive(j, SlideBlock(i + 1, ss[i]), SlideHeading(i + 1, ss[i]));
      ContainsTransitive(r, j, SlideHeading(i + 1, ss[i]));
    }
  }

  // ---------------------------------------------------------------------
  // The exporter

  /** Which template a study takes: the book one only for a study tagged
      `book` that carries its introduction. */
  predicate UsesBookTemplate(data: StudyData)
  {
    data.kind == Book && data.bookIntro.Some?
  }

  /** `body`, then the sermon text and the slides text when each is present. */
  function WithParts(body: string, sermon: Option<string>, slides: Option<string>): string
  {
    var withSermon := if sermon.Some? then body + sermon.value else body;
    if slides.Some? then withSermon + slides.value else withSermon
  }

  /** Whatever follows a title line that neither starts nor ends with white
      space, the trimmed text starts with that title. */
  lemma TitleSurvivesTrim(t: string, rest: string, sermon: Option<string>, slides: Option<string>)
    requires t != [] && IsTrimmed(t)
    ensures StartsWith(Trim(WithParts("\n" + t + rest, sermon, slides)), t)
  {
    var tail := PartsText(sermon, slides);
    WithPartsAppends("\n" + t + rest, sermon, slides);
    assert "\n" + t + rest + tail == "\n" + t + (rest + tail);
    TrimStartsWith("\n", t, rest + tail);
  }

  /** The sermon text and the slides text, each when present. */
  function PartsText(sermon: Option<string>, slides: Option<string>): string
  {
    (if sermon.Some? then sermon.value else "") + (if slides.Some? then slides.value else "")
  }

  /** Appending the parts extends the body by their text. */
  lemma WithPartsAppends(body: string, sermon: Option<string>, slides: Option<string>)
    ensures WithParts(body, sermon, slides) == body + PartsText(sermon, slides)
  {
    if sermon.Some? && slides.Some? {
      assert body + sermon.value + slides.value == body + (sermon.value + slides.value);
    } else if sermon.Some? {
      assert sermon.value + "" == sermon.value;
    } else if slides.Some? {
      assert "" + slides.value == slides.value;
    } else {
      assert body + "" == body;
    }
  }

  /** The passage text after `rest`'s template, with the sermon and slides
      texts appended when present, trimmed: it starts with the title line
      and neither end is white space. */
  function PassageText(rest: string, sermon: Option<string>, slides: Option<string>): (r: string)
    ensures StartsWith(r, PassageTitle) && IsTrimmed(r)
  {
    TitleSurvivesTrim(PassageTitle, rest, sermon, slides);
    Trim(WithParts("\n" + PassageTitle + rest, sermon, slides))
  }

  /** A piece of the study that neither starts nor ends with white space
      occurs in the passage text whether it came from the template, the
      sermon text or the slides text. */
  lemma PassageTextKeeps(rest: string, sermon: Option<string>, slides: Option<string>, x: string)
    requires x != [] && IsTrimmed(x)
    requires Contains(rest, x) || (sermon.Some? && Contains(sermon.value, x)) || (slides.Some? && Contains(slides.value, x))
    ensures Contains(PassageText(rest, sermon, slides), x)
  {
    var body, tail := "\n" + PassageTitle + rest, PartsText(sermon, slides);
    var sm, sl := (if sermon.Some? then sermon.value else ""), (if slides.Some? then slides.value else "");
    WithPartsAppends(body, sermon, slides);
    if Contains(rest, x) {
      ContainsRight("\n" + PassageTitle, rest);
      ContainsTransitive(body, rest, x);
      ContainsLeft(body, tail);
      ContainsTransitive(body + tail, body, x);
    } else {
      if sermon.Some? && Contains(sermon.value, x) {
        ContainsLeft(sm, sl);
        ContainsTransitive(tail, sm, x);
      } else {
        ContainsRight(sm, sl);
        ContainsTransitive(tail, sl, x);
      }
      ContainsRight(body, tail);
      ContainsTransitive(body + tail, tail, x);
    }
    ContainsSurvivesTrim(body + tail, x);
  }

  /** The sermon section, when the study has a sermon. */
  function SermonText(sermon: Option<SermonContent>): (r: Option<string>)
    ensures r.Some? <==> sermon.Some?
  {
    if sermon.Some? then Some(SermonSection(sermon.value)) else None
  }

  /** The slides section, when the study has slides. */
  function SlidesText(slides: Option<seq<SlideContent>>): (r: Option<string>)
    ensures r.Some? <==> slides.Some?
  {
    if slides.Some? then Some(SlidesSection(slides.value)) else None
  }

  /** The export of a passage study that has its content and summary. */
  function PassageExport(data: StudyData, date: string): (r: string)
    requires data.content.Some? && data.summary.Some?
    ensures StartsWith(r, PassageTitle) && IsTrimmed(r)
  {
    PassageText(StudyRest(data.meta, date, data.summary.value, data.content.value),
                SermonText(data.sermon), SlidesText(data.slides))
  }

  /** The text a study exports to: the book template as it is; nothing for a
      study without content or summary; otherwise the passage text, which
      starts with its title line and is trimmed at both ends. */
  function Markdown(data: StudyData, formatDate: string -> string): (r: string)
    ensures UsesBookTemplate(data) ==>
      StartsWith(r, BookTitlePrefix + data.bookIntro.value.general_id.name) && EndsWith(r, BookTail)
    ensures UsesBookTemplate(data) ==>
      forall i :: 0 <= i < 18 ==> Contains(r, Heading(i + 1, BookSectionTitles[i]))
    ensures !UsesBookTemplate(data) && (data.content.None? || data.summary.None?) ==> r == ""
    ensures !UsesBookTemplate(data) && data.content.Some? && data.summary.Some? ==> StartsWith(r, PassageTitle)
    ensures !UsesBookTemplate(data) ==> IsTrimmed(r)
  {
    var date := formatDate(data.meta.generated_at);
    if UsesBookTemplate(data) then BookMarkdown(data.bookIntro.value, date)
    else if data.content.None? || data.summary.None? then ""
    else PassageExport(data, date)
  }

  /** The passage template holds every row of the lexical table, each row
      on the line right above the next one, and, when the study has
      parallels, the parallels title and the heading of every parallel. */
  lemma StudyRestTables(meta: Meta, date: string, sm: Summary, c: Content)
    ensures var r, ls, ps := StudyRest(meta, date, sm, c), c.lexical_analysis, c.parallels;
      && (forall i :: 0 <= i < |ls| ==> Contains(r, LexicalRow(ls[i])))
      && (forall i :: 0 <= i < |ls| - 1 ==> Contains(r, LexicalRow(ls[i]) + "\n" + LexicalRow(ls[i + 1])))
      && (|ps| > 0 ==> Contains(r, ParallelsTitle))
      && (forall i :: 0 <= i < |ps| ==> Contains(r, ParallelHeading(ps[i])))
  {
    var ls, ps := c.lexical_analysis, c.parallels;
    var rest := StudyRest(meta, date, sm, c);
    var sp, cp, lp := SummaryPart(meta, date, sm), ContextPart(c), LexicalPart(c);
    var ip, kp := InterpretationPart(c), ClosingPart(c);
    assert rest == sp + cp + lp + ip + kp;
    SecondAndThird(sp, cp, lp, ip, kp);
    LexicalPartRows(c);
    forall i | 0 <= i < |ls|
      ensures Contains(rest, LexicalRow(ls[i]))
    {
      ContainsTransitive(rest, lp, LexicalRow(ls[i]));
    }
    forall i | 0 <= i < |ls| - 1
      ensures Contains(rest, LexicalRow(ls[i]) + "\n" + LexicalRow(ls[i + 1]))
    {
      ContainsTransitive(rest, lp, LexicalRow(ls[i]) + "\n" + LexicalRow(ls[i + 1]));
    }
    if |ps| > 0 {
      ContextHasParallels(c);
      ContainsTransitive(rest, cp, ParallelsSection(ps));
      ParallelsSectionHeadings(ps);
      ContainsTransitive(rest, ParallelsSection(ps), ParallelsTitle);
      forall i | 0 <= i < |ps|
        ensures Contains(rest, ParallelHeading(ps[i]))
      {
        ContainsTransitive(rest, ParallelsSection(ps), ParallelHeading(ps[i]));
      }
    }
  }

  /** What the template holds about the lexical table and the parallels,
      the passage text holds too. */
  lemma PassageTextTables(rest: string, sermon: Option<string>, slides: Option<string>, c: Content)
    requires var ls, ps := c.lexical_analysis, c.parallels;
      && (forall i :: 0 <= i < |ls| ==> Contains(rest, LexicalRow(ls[i])))
      && (forall i :: 0 <= i < |ls| - 1 ==> Contains(rest, LexicalRow(ls[i]) + "\n" + LexicalRow(ls[i + 1])))
      && (|ps| > 0 ==> Contains(rest, ParallelsTitle))
      && (forall i :: 0 <= i < |ps| ==> Contains(rest, ParallelHeading(ps[i])))
    ensures var r, ls, ps := PassageText(rest, sermon, slides), c.lexical_analysis, c.parallels;
      && (forall i :: 0 <= i < |ls| ==> Contains(r, LexicalRow(ls[i])))
      && (forall i :: 0 <= i < |ls| - 1 ==> Contains(r, LexicalRow(ls[i]) + "\n" + LexicalRow(ls[i + 1])))
      && (|ps| > 0 ==> Contains(r, ParallelsTitle))
      && (forall i :: 0 <= i < |ps| ==> Contains(r, ParallelHeading(ps[i])))
  {
    var ls, ps := c.lexical_analysis, c.parallels;
    forall i | 0 <= i < |ls|
      ensures Contains(PassageText(rest, sermon, slides), LexicalRow(ls[i]))
    {
      LexicalRowTrimmed(ls[i]);
      PassageTextKeeps(rest, sermon, slides, LexicalRow(ls[i]));
    }
    forall i | 0 <= i < |ls| - 1
      ensures Contains(PassageText(rest, sermon, slides), LexicalRow(ls[i]) + "\n" + LexicalRow(ls[i + 1]))
    {
      LexicalRowTrimmed(ls[i]);
      LexicalRowTrimmed(ls[i + 1]);
      VisibleEnds(LexicalRow(ls[i]), "\n", LexicalRow(ls[i + 1]));
      PassageTextKeeps(rest, sermon, slides, LexicalRow(ls[i]) + "\n" + LexicalRow(ls[i + 1]));
    }
    if |ps| > 0 {
      TitlesTrimmed();
      PassageTextKeeps(rest, sermon, slides, ParallelsTitle);
    }
    forall i | 0 <= i < |ps|
      ensures Contains(PassageText(rest, sermon, slides), ParallelHeading(ps[i]))
    {
      ParallelHeadingTrimmed(ps[i]);
      PassageTextKeeps(rest, sermon, slides, ParallelHeading(ps[i]));
    }
  }

  /** The passage export holds every row of the lexical table, each row on
      the line right above the next one, and, when the study has parallels,
      the parallels title and the heading of every parallel passage. */
  lemma MarkdownHasStudyTables(data: StudyData, formatDate: string -> string)
    requires !UsesBookTemplate(data) && data.content.Some? && data.summary.Some?
    ensures var r, c := Markdown(data, formatDate), data.content.value;
      var ls, ps := c.lexical_analysis, c.parallels;
      && (forall i :: 0 <= i < |ls| ==> Contains(r, LexicalRow(ls[i])))
      && (forall i :: 0 <= i < |ls| - 1 ==> Contains(r, LexicalRow(ls[i]) + "\n" + LexicalRow(ls[i + 1])))
      && (|ps| > 0 ==> Contains(r, ParallelsTitle))
      && (forall i :: 0 <= i < |ps| ==> Contains(r, ParallelHeading(ps[i])))
  {
    var c, date := data.content.value, formatDate(data.meta.generated_at);
    var rest := StudyRest(data.meta, date, data.summary.value, c);
    MarkdownIsPassage(data, formatDate);
    StudyRestTables(data.meta, date, data.summary.value, c);
    PassageTextTables(rest, SermonText(data.sermon), SlidesText(data.slides), c);
  }

  /** The second and the third of five pieces occur in their concatenation. */
  lemma SecondAndThird(a: string, b: string, c: string, d: string, e: string)
    ensures Contains(a + b + c + d + e, b) && Contains(a + b + c + d + e, c)
  {
    ContainsLeft(a + b + c + d, e);
    ContainsLeft(a + b + c, d);
    ContainsTransitive(a + b + c + d + e, a + b + c + d, a + b + c);
    ContainsRight(a + b, c);
    ContainsTransitive(a + b + c + d + e, a + b + c, c);
    ContainsLeft(a + b, c);
    ContainsTransitive(a + b + c + d + e, a + b + c, a + b);
    ContainsRight(a, b);
    ContainsTransitive(a + b + c + d + e, a + b, b);
  }

  lemma ContextHasParallels(c: Content)
    ensures Contains(ContextPart(c), ParallelsSection(c.parallels))
  {
    var front := "\n\n---\n\n## Texto Base\n> " + c.text_base
      + "\n\n## Introdução\n" + c.intro_definition
      + "\n\n## Contexto\n**Literário:** " + c.context_literary
      + "\n\n**Histórico:** " + c.context_historical
      + "\n";
    assert ContextPart(c) == front + ParallelsSection(c.parallels);
    ContainsRight(front, ParallelsSection(c.parallels));
  }

  lemma ParallelHeadingTrimmed(p: ParallelPassage)
    ensures ParallelHeading(p) != [] && IsTrimmed(ParallelHeading(p))
  {
    VisibleEnds("### ", p.reference + " (" + p.correlation, ")");
  }

  lemma SermonTitleLineTrimmed(s: SermonContent)
    ensures SermonTitleLine(s) != [] && IsTrimmed(SermonTitleLine(s))
  {
    VisibleEnds("# SERMÃO EXPOSITIVO: ", s.title, "\n\n**Texto:**");
  }

  lemma PointHeadingTrimmed(n: nat, p: SermonPoint)
    ensures PointHeading(n, p) != [] && IsTrimmed(PointHeading(n, p))
  {
    var h := PointHeading(n, p);
    assert h[0] == '#';
    LastOf("### " + NatToString(n) + ". " + p.title + "\n" + p.explanation, "\n\n*Ilustração:*");
  }

  lemma SlideHeadingTrimmed(n: nat, s: SlideContent)
    ensures SlideHeading(n, s) != [] && IsTrimmed(SlideHeading(n, s))
  {
    var h := SlideHeading(n, s);
    assert h[0] == '#';
    LastOf("### Slide " + NatToString(n) + ": " + s.title + "\n" + BulletList(s.bullets), "\n*Visual:*");
  }

  lemma TitlesTrimmed()
    ensures ParallelsTitle != [] && IsTrimmed(ParallelsTitle)
    ensures SlidesTitle != [] && IsTrimmed(SlidesTitle)
  {
    assert ParallelsTitle[0] == '#' && ParallelsTitle[|ParallelsTitle| - 1] == 's';
    assert SlidesTitle[0] == '#' && SlidesTitle[|SlidesTitle| - 1] == 's';
  }

  lemma LastOf(a: string, b: string)
    requires b != []
    ensures (a + b)[|a + b| - 1] == b[|b| - 1]
  {
  }

  /** A study without the book template but with content and summary takes
      the passage text. */
  lemma MarkdownIsPassage(data: StudyData, formatDate: string -> string)
    requires !UsesBookTemplate(data) && data.content.Some? && data.summary.Some?
    ensures Markdown(data, formatDate)
      == PassageText(StudyRest(data.meta, formatDate(data.meta.generated_at), data.summary.value, data.content.value),
                     SermonText(data.sermon), SlidesText(data.slides))
  {
    assert Markdown(data, formatDate) == PassageExport(data, formatDate(data.meta.generated_at));
  }

  /** The passage text with a sermon carries its title line and the heading
      of every point. */
  lemma PassageTextSermon(rest: string, s: SermonContent, slides: Option<string>)
    ensures var r := PassageText(rest, Some(SermonSection(s)), slides);
      && Contains(r, SermonTitleLine(s))
      && forall i :: 0 <= i < |s.points| ==> Contains(r, PointHeading(i + 1, s.points[i]))
  {
    var sermon := Some(SermonSection(s));
    SermonSectionHeadings(s);
    SermonTitleLineTrimmed(s);
    PassageTextKeeps(rest, sermon, slides, SermonTitleLine(s));
    forall i | 0 <= i < |s.points|
      ensures Contains(PassageText(rest, sermon, slides), PointHeading(i + 1, s.points[i]))
    {
      PointHeadingTrimmed(i + 1, s.points[i]);
      PassageTextKeeps(rest, sermon, slides, PointHeading(i + 1, s.points[i]));
    }
  }

  /** The passage text with slides carries their title and the heading of
      every slide. */
  lemma PassageTextSlides(rest: string, sermon: Option<string>, ss: seq<SlideContent>)
    ensures var r := PassageText(rest, sermon, Some(SlidesSection(ss)));
      && Contains(r, SlidesTitle)
      && forall i :: 0 <= i < |ss| ==> Contains(r, SlideHeading(i + 1, ss[i]))
  {
    var slides := Some(SlidesSection(ss));
    SlidesSectionHeadings(ss);
    TitlesTrimmed();
    PassageTextKeeps(rest, sermon, slides, SlidesTitle);
    forall i | 0 <= i < |ss|
      ensures Contains(PassageText(rest, sermon, slides), SlideHeading(i + 1, ss[i]))
    {
      SlideHeadingTrimmed(i + 1, ss[i]);
      PassageTextKeeps(rest, sermon, slides, SlideHeading(i + 1, ss[i]));
    }
  }

  /** When the study has a sermon, the passage export carries the sermon's
      title line and the heading of every point, numbered from 1 in order. */
  lemma MarkdownHasSermon(data: StudyData, formatDate: string -> string)
    requires !UsesBookTemplate(data) && data.content.Some? && data.summary.Some? && data.sermon.Some?
    ensures var r, s := Markdown(data, formatDate), data.sermon.value;
      && Contains(r, SermonTitleLine(s))
      && forall i :: 0 <= i < |s.points| ==> Contains(r, PointHeading(i + 1, s.points[i]))
  {
    MarkdownIsPassage(data, formatDate);
    assert SermonText(data.sermon) == Some(SermonSection(data.sermon.value));
    PassageTextSermon(StudyRest(data.meta, formatDate(data.meta.generated_at), data.summary.value, data.content.value),
                      data.sermon.value, SlidesText(data.slides));
  }

  /** When the study has slides, the passage export carries the slides title
      and the heading of every slide, numbered from 1 in order. */
  lemma MarkdownHasSlides(data: StudyData, formatDate: string -> string)
    requires !UsesBookTemplate(data) && data.content.Some? && data.summary.Some? && data.slides.Some?
    ensures var r, ss := Markdown(data, formatDate), data.slides.value;
      && Contains(r, SlidesTitle)
      && forall i :: 0 <= i < |ss| ==> Contains(r, SlideHeading(i + 1, ss[i]))
  {
    MarkdownIsPassage(data, formatDate);
    assert SlidesText(data.slides) == Some(SlidesSection(data.slides.value));
    PassageTextSlides(StudyRest(data.meta, formatDate(data.meta.generated_at), data.summary.value, data.content.value),
                      SermonText(data.sermon), data.slides.value);
  }

  /** The appending steps of `exportToMarkdown`: the passage text starts as
      the template and takes the sermon, then the slides, when present. */
  method AppendParts(rest: string, sermon: Option<SermonContent>, slides: Option<seq<SlideContent>>)
    returns (md: string)
    ensures md == WithParts("\n" + PassageTitle + rest, SermonText(sermon), SlidesText(slides))
  {
    md := "\n" + PassageTitle + rest;
    if sermon.Some? {
      md := md + SermonSection(sermon.value);
    }
    if slides.Some? {
      md := md + SlidesSection(slides.value);
    }
  }

  /** `exportToMarkdown`. */
  method ExportToMarkdown(data: StudyData, formatDate: string -> string) returns (r: string)
    ensures r == Markdown(data, formatDate)
  {
    var date := formatDate(data.meta.generated_at);
    if UsesBookTemplate(data) {
      return BookMarkdown(data.bookIntro.value, date);
    }
    if data.content.None? || data.summary.None? {
      return "";
    }
    var md := AppendParts(StudyRest(data.meta, date, data.summary.value, data.content.value), data.sermon, data.slides);
    r := Trim(md);
  }
}
