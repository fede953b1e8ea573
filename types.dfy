/** The data model: the enumerations, the request and history records, the
    payload records of a study and the study itself. */
module StudyTypes {
  import opened Wrappers

  /** The supported Bible translations. */
  datatype Translation = NVI | ARC | ACF | KJA | NVT | NAA | KJV | NIV | ESV
  {
    /** The code the program stores and sends for this translation. */
    function Code(): string
    {
      match this
      case NVI => "NVI" case ARC => "ARC" case ACF => "ACF"
      case KJA => "KJA" case NVT => "NVT" case NAA => "NAA"
      case KJV => "KJV" case NIV => "NIV" case ESV => "ESV"
    }
  }

  /** The study depths, each a code the requests carry. */
  datatype Depth = Rapido | Detalhado | Academico | Sermao
  {
    function Code(): string
    {
      match this
      case Rapido => "rapido" case Detalhado => "detalhado"
      case Academico => "academico" case Sermao => "sermao"
    }
  }

  datatype StudyMode = Passage | Book
  {
    function Code(): string
    {
      match this
      case Passage => "passage" case Book => "book"
    }
  }

  const AllTranslations: seq<Translation> := [NVI, ARC, ACF, KJA, NVT, NAA, KJV, NIV, ESV]
  const AllDepths: seq<Depth> := [Rapido, Detalhado, Academico, Sermao]
  const AllModes: seq<StudyMode> := [Passage, Book]

  /** The translation whose code is `code`, if there is one. */
  function ParseTranslation(code: string): (t: Option<Translation>)
    ensures t.Some? ==> t.value.Code() == code
  {
    if code == "NVI" then Some(NVI) else if code == "ARC" then Some(ARC)
    else if code == "ACF" then Some(ACF) else if code == "KJA" then Some(KJA)
    else if code == "NVT" then Some(NVT) else if code == "NAA" then Some(NAA)
    else if code == "KJV" then Some(KJV) else if code == "NIV" then Some(NIV)
    else if code == "ESV" then Some(ESV) else None
  }

  /** The nine translations are all listed, once each, and their codes are
      pairwise distinct, so the code identifies the translation. */
  lemma TranslationsEnumerated(t: Translation)
    ensures t in AllTranslations && |AllTranslations| == 9
    ensures NAA in AllTranslations
    ensures forall i, j :: 0 <= i < j < |AllTranslations| ==>
      AllTranslations[i].Code() != AllTranslations[j].Code()
    ensures ParseTranslation(t.Code()) == Some(t)
  {
  }

  lemma DepthsAndModesEnumerated(d: Depth, m: StudyMode)
    ensures d in AllDepths && |AllDepths| == 4
    ensures forall i, j :: 0 <= i < j < |AllDepths| ==> AllDepths[i].Code() != AllDepths[j].Code()
    ensures m in AllModes && |AllModes| == 2 && Passage.Code() != Book.Code()
  {
  }

  /** What the caller asks for. The translation and depth are the codes as
      received: TypeScript's unions do not exist at run time, and the URL
      handler passes query values through unchecked. `mode` is absent in the
      requests that the form and the URL handler build. */
  datatype StudyRequest = StudyRequest(
    passage: string,   // the book name in book mode
    translation: string,
    depth: string,
    mode: Option<StudyMode>)

  /** A request remembered in the history, with the time it was made. */
  datatype HistoryItem = HistoryItem(
    passage: string,
    translation: string,
    depth: string,
    mode: Option<StudyMode>,
    timestamp: int)
  {
    function Request(): StudyRequest
    {
      StudyRequest(passage, translation, depth, mode)
    }
  }

  /** `{ ...request, timestamp }` */
  function Stamp(r: StudyRequest, timestamp: int): (h: HistoryItem)
    ensures h.Request() == r && h.timestamp == timestamp
  {
    HistoryItem(r.passage, r.translation, r.depth, r.mode, timestamp)
  }

  /** `lemma_form` is the source's `lemma` field (`lemma` is a keyword here). */
  datatype LexicalEntry = LexicalEntry(
    word: string, lemma_form: string, transliteration: string, morphology: string, meaning: string)

  datatype TheologicalPosition = TheologicalPosition(tradition: string, summary: string)

  datatype Theologian = Theologian(name: string, era: string, view: string)

  /** Only the publisher and the year may be missing. */
  datatype BibliographicEntry = BibliographicEntry(
    author: string, title: string, publisher: Option<string>, year: Option<string>, annotation: string)

  datatype ParallelPassage = ParallelPassage(reference: string, text: string, correlation: string)

  datatype SlideContent = SlideContent(title: string, bullets: seq<string>, image_hint: string)

  datatype SermonPoint = SermonPoint(
    title: string, explanation: string, illustration: string, application: string)

  datatype SermonContent = SermonContent(
    title: string, text_focus: string, introduction: string, points: seq<SermonPoint>, conclusion: string)

  // The eighteen sections of a book introduction.
  datatype GeneralId = GeneralId(name: string, original_name: string, canon_position: string)
  datatype Authorship = Authorship(
    author_traditional: string, internal_evidence: string, external_evidence: string, academic_debate: string)
  datatype Dating = Dating(
    approximate_date: string, historical_context: string, contemporary_events: string, arguments: string)
  datatype Recipients = Recipients(
    target_audience: string, location: string, social_conditions: string, spiritual_situation: string)
  datatype CulturalContext = CulturalContext(
    political_panorama: string, culture_customs: string, economic_social: string, neighbors_relation: string)
  datatype CanonicalContext = CanonicalContext(
    relation_prev_next: string, continuity_rupture: string, promise_fulfillment: string, narrative_preparation: string)
  datatype Purpose = Purpose(main_objective: string, problems_addressed: string, intent: string)
  datatype Structure = Structure(sections: seq<string>, progression: string, genre: string)
  datatype Style = Style(literary_features: string, keywords: seq<string>, techniques: string)
  datatype Character = Character(name: string, role: string)
  datatype Theology = Theology(doctrines: seq<string>, contributions: string, controversies: string)
  datatype KeyPassage = KeyPassage(reference: string, description: string)
  datatype RedemptivePlan = RedemptivePlan(christ_pointer: string, salvation_relation: string)
  datatype Application = Application(principles: seq<string>, church_relevance: string, pastoral_implications: string)
  datatype InterpretationChallenges = InterpretationChallenges(difficult_texts: seq<string>, hermeneutic_problems: string)

  datatype BookIntroContent = BookIntroContent(
    general_id: GeneralId,
    authorship: Authorship,
    dating: Dating,
    recipients: Recipients,
    context_cultural: CulturalContext,
    context_canonical: CanonicalContext,
    purpose: Purpose,
    themes: seq<string>,
    central_message: string,
    structure: Structure,
    style: Style,
    characters: seq<Character>,
    theology: Theology,
    key_passages: seq<KeyPassage>,
    redemptive_plan: RedemptivePlan,
    application: Application,
    interpretation_challenges: InterpretationChallenges,
    conclusion: string)

  /** The names of BookIntroContent's fields, in declaration order. */
  const BookIntroFields: seq<string> := [
    "general_id", "authorship", "dating", "recipients", "context_cultural",
    "context_canonical", "purpose", "themes", "central_message", "structure",
    "style", "characters", "theology", "key_passages", "redemptive_plan",
    "application", "interpretation_challenges", "conclusion"]

  datatype Meta = Meta(reference: string, translation: string, generated_at: string)

  datatype Summary = Summary(executive: string, key_quote: string, preaching_points: seq<string>)

  datatype Content = Content(
    text_base: string,
    intro_definition: string,
    context_literary: string,
    context_historical: string,
    parallels: seq<ParallelPassage>,
    lexical_analysis: seq<LexicalEntry>,
    intertextuality: string,
    interpretations: seq<TheologicalPosition>,
    theologians: seq<Theologian>,
    implications: string,
    study_questions: seq<string>,
    bibliography: seq<BibliographicEntry>)

  /** A generated study: the `type` tag (here `kind`) and `meta` are always
      there; every payload is optional. */
  datatype StudyData = StudyData(
    kind: StudyMode,
    meta: Meta,
    summary: Option<Summary>,
    content: Option<Content>,
    sermon: Option<SermonContent>,
    slides: Option<seq<SlideContent>>,
    bookIntro: Option<BookIntroContent>)
}
