/** Generation orchestration: the two response schemas, the prompt chosen for
    a request, the bounded retry loop around the generative-model call and
    the normalisation of a parsed reply.

    The external call is an oracle `service(call, attempt)`: what the
    service answers to `call` on the given attempt (answers vary from run to
    run). The sleeps between attempts are recorded as a list of delays. */
module GeminiService {
  import opened Wrappers
  import opened Text
  import opened StudyTypes

  // ---------------------------------------------------------------------
  // Schemas

  /** A response schema: a string, an array of one item schema, or an object
      with named properties and the names of those it requires. */
  datatype Schema =
    | StringType
    | ArrayOf(items: Schema)
    | ObjectOf(properties: seq<Property>, required: seq<string>)

  datatype Property = Property(name: string, schema: Schema)

  function Str(name: string): Property { Property(name, StringType) }
  function StrList(name: string): Property { Property(name, ArrayOf(StringType)) }

  function Names(ps: seq<Property>): (r: seq<string>)
    ensures |r| == |ps| && forall i :: 0 <= i < |ps| ==> r[i] == ps[i].name
  {
    seq(|ps|, i requires 0 <= i < |ps| => ps[i].name)
  }

  /** Every object names each property once and requires only properties it
      declares, at every level of nesting. */
  predicate WellFormed(s: Schema)
  {
    match s
    case StringType => true
    case ArrayOf(items) => WellFormed(items)
    case ObjectOf(ps, req) =>
      && (forall k :: 0 <= k < |req| ==> req[k] in Names(ps))
      && (forall i, j :: 0 <= i < j < |ps| ==> ps[i].name != ps[j].name)
      && (forall i :: 0 <= i < |ps| ==> WellFormed(ps[i].schema))
  }

  const MetaSchema: Schema := ObjectOf(
    [Str("reference"), Str("translation"), Str("generated_at")],
    ["reference", "translation"])

  const SummarySchema: Schema := ObjectOf(
    [Str("executive"), Str("key_quote"), StrList("preaching_points")],
    ["executive", "preaching_points", "key_quote"])

  const ParallelSchema: Schema := ObjectOf(
    [Str("reference"), Str("text"), Str("correlation")],
    ["reference", "text", "correlation"])

  const LexicalSchema: Schema := ObjectOf(
    [Str("word"), Str("lemma"), Str("transliteration"), Str("morphology"), Str("meaning")],
    ["word", "lemma", "meaning"])

  const InterpretationSchema: Schema := ObjectOf(
    [Str("tradition"), Str("summary")], ["tradition", "summary"])

  const TheologianSchema: Schema := ObjectOf(
    [Str("name"), Str("era"), Str("view")], ["name", "era", "view"])

  const BibliographySchema: Schema := ObjectOf(
    [Str("author"), Str("title"), Str("publisher"), Str("year"), Str("annotation")],
    ["author", "title", "annotation"])

  const ContentSchema: Schema := ObjectOf(
    [ Str("text_base"), Str("intro_definition"), Str("context_literary"), Str("context_historical"),
      Property("parallels", ArrayOf(ParallelSchema)),
      Property("lexical_analysis", ArrayOf(LexicalSchema)),
      Str("intertextuality"),
      Property("interpretations", ArrayOf(InterpretationSchema)),
      Property("theologians", ArrayOf(TheologianSchema)),
      Str("implications"),
      StrList("study_questions"),
      Property("bibliography", ArrayOf(BibliographySchema)) ],
    [ "text_base", "intro_definition", "context_literary", "context_historical", "parallels",
      "lexical_analysis", "interpretations", "implications", "theologians", "bibliography" ])

  const SermonPointSchema: Schema := ObjectOf(
    [Str("title"), Str("explanation"), Str("illustration"), Str("application")],
    ["title", "explanation", "illustration", "application"])

  const SermonSchema: Schema := ObjectOf(
    [ Str("title"), Str("text_focus"), Str("introduction"),
      Property("points", ArrayOf(SermonPointSchema)), Str("conclusion") ],
    ["title", "text_focus", "introduction", "points", "conclusion"])

  const SlideSchema: Schema := ObjectOf(
    [Str("title"), StrList("bullets"), Str("image_hint")], ["title", "bullets"])

  /** The passage-study schema. */
  const PassageSchema: Schema := ObjectOf(
    [ Property("meta", MetaSchema), Property("summary", SummarySchema),
      Property("content", ContentSchema), Property("sermon", SermonSchema),
      Property("slides", ArrayOf(SlideSchema)) ],
    ["meta", "summary", "content", "slides", "sermon"])

  const BookMetaSchema: Schema := ObjectOf(
    [Str("reference"), Str("translation"), Str("generated_at")], ["reference"])

  /** An object none of whose properties is required. */
  function Loose(ps: seq<Property>): Schema { ObjectOf(ps, []) }

  // The sections of the book-introduction schema; none of their properties is required.
  const GeneralIdSchema: Schema := Loose([Str("name"), Str("original_name"), Str("canon_position")])
  const AuthorshipSchema: Schema := Loose([Str("author_traditional"), Str("internal_evidence"), Str("external_evidence"), Str("academic_debate")])
  const DatingSchema: Schema := Loose([Str("approximate_date"), Str("historical_context"), Str("contemporary_events"), Str("arguments")])
  const RecipientsSchema: Schema := Loose([Str("target_audience"), Str("location"), Str("social_conditions"), Str("spiritual_situation")])
  const CulturalContextSchema: Schema := Loose([Str("political_panorama"), Str("culture_customs"), Str("economic_social"), Str("neighbors_relation")])
  const CanonicalContextSchema: Schema := Loose([Str("relation_prev_next"), Str("continuity_rupture"), Str("promise_fulfillment"), Str("narrative_preparation")])
  const PurposeSchema: Schema := Loose([Str("main_objective"), Str("problems_addressed"), Str("intent")])
  const StructureSchema: Schema := Loose([StrList("sections"), Str("progression"), Str("genre")])
  const StyleSchema: Schema := Loose([Str("literary_features"), StrList("keywords"), Str("techniques")])
  const CharacterSchema: Schema := Loose([Str("name"), Str("role")])
  const TheologySchema: Schema := Loose([StrList("doctrines"), Str("contributions"), Str("controversies")])
  const KeyPassageSchema: Schema := Loose([Str("reference"), Str("description")])
  const RedemptivePlanSchema: Schema := Loose([Str("christ_pointer"), Str("salvation_relation")])
  const ApplicationSchema: Schema := Loose([StrList("principles"), Str("church_relevance"), Str("pastoral_implications")])
  const InterpretationChallengesSchema: Schema := Loose([StrList("difficult_texts"), Str("hermeneutic_problems")])

  /** The eighteen sections of the book-introduction schema. */
  const BookIntroSections: seq<Property> := [
    Property("general_id", GeneralIdSchema),
    Property("authorship", AuthorshipSchema),
    Property("dating", DatingSchema),
    Property("recipients", RecipientsSchema),
    Property("context_cultural", CulturalContextSchema),
    Property("context_canonical", CanonicalContextSchema),
    Property("purpose", PurposeSchema),
    StrList("themes"),
    Str("central_message"),
    Property("structure", StructureSchema),
    Property("style", StyleSchema),
    Property("characters", ArrayOf(CharacterSchema)),
    Property("theology", TheologySchema),
    Property("key_passages", ArrayOf(KeyPassageSchema)),
    Property("redemptive_plan", RedemptivePlanSchema),
    Property("application", ApplicationSchema),
    Property("interpretation_challenges", InterpretationChallengesSchema),
    Str("conclusion") ]

  const BookIntroSchema: Schema := ObjectOf(BookIntroSections,
    [ "general_id", "authorship", "dating", "recipients", "context_cultural",
      "context_canonical", "purpose", "themes", "central_message", "structure",
      "style", "characters", "theology", "key_passages", "redemptive_plan",
      "application", "interpretation_challenges", "conclusion" ])

  /** The book-introduction schema. */
  const BookSchema: Schema := ObjectOf(
    [Property("meta", BookMetaSchema), Property("bookIntro", BookIntroSchema)],
    ["meta", "bookIntro"])

  /** The schema of property `name` of an object schema, if it declares one. */
  function PropertyOf(s: Schema, name: string): Option<Schema>
  {
    if !s.ObjectOf? then None else Lookup(s.properties, name)
  }

  function Lookup(ps: seq<Property>, name: string): (r: Option<Schema>)
    ensures r.Some? <==> name in Names(ps)
  {
    if ps == [] then None
    else if ps[0].name == name then Some(ps[0].schema)
    else
      assert Names(ps) == [ps[0].name] + Names(ps[1..]);
      Lookup(ps[1..], name)
  }

  lemma MetaSchemaWellFormed()
    ensures WellFormed(MetaSchema)
  {
    assert Names(MetaSchema.properties) == ["reference", "translation", "generated_at"];
  }

  lemma SummarySchemaWellFormed()
    ensures WellFormed(SummarySchema)
  {
    assert Names(SummarySchema.properties) == ["executive", "key_quote", "preaching_points"];
  }

  lemma ParallelSchemaWellFormed()
    ensures WellFormed(ParallelSchema)
  {
    assert Names(ParallelSchema.properties) == ["reference", "text", "correlation"];
  }

  lemma LexicalSchemaWellFormed()
    ensures WellFormed(LexicalSchema)
  {
    assert Names(LexicalSchema.properties) == ["word", "lemma", "transliteration", "morphology", "meaning"];
  }

  lemma InterpretationSchemaWellFormed()
    ensures WellFormed(InterpretationSchema)
  {
    assert Names(InterpretationSchema.properties) == ["tradition", "summary"];
  }

  lemma TheologianSchemaWellFormed()
    ensures WellFormed(TheologianSchema)
  {
    assert Names(TheologianSchema.properties) == ["name", "era", "view"];
  }

  lemma BibliographySchemaWellFormed()
    ensures WellFormed(BibliographySchema)
  {
    assert Names(BibliographySchema.properties) == ["author", "title", "publisher", "year", "annotation"];
  }

  lemma SermonPointSchemaWellFormed()
    ensures WellFormed(SermonPointSchema)
  {
    assert Names(SermonPointSchema.properties) == ["title", "explanation", "illustration", "application"];
  }

  lemma SlideSchemaWellFormed()
    ensures WellFormed(SlideSchema)
  {
    assert Names(SlideSchema.properties) == ["title", "bullets", "image_hint"];
  }

  lemma ContentChildrenWellFormed()
    ensures forall i :: 0 <= i < |ContentSchema.properties| ==> WellFormed(ContentSchema.properties[i].schema)
  {
    ParallelSchemaWellFormed(); LexicalSchemaWellFormed(); InterpretationSchemaWellFormed();
    TheologianSchemaWellFormed(); BibliographySchemaWellFormed();
  }

  lemma ContentNamesDistinct()
    ensures var ps := ContentSchema.properties;
      forall i, j :: 0 <= i < j < |ps| ==> ps[i].name != ps[j].name
  {
    ContentNames();
  }

  lemma ContentRequiredDeclared()
    ensures forall k :: 0 <= k < |ContentSchema.required| ==> ContentSchema.required[k] in Names(ContentSchema.properties)
  {
    ContentNames();
  }

  lemma ContentSchemaWellFormed()
    ensures WellFormed(ContentSchema)
  {
    ContentChildrenWellFormed();
    ContentNamesDistinct();
    ContentRequiredDeclared();
  }

  lemma SermonSchemaWellFormed()
    ensures WellFormed(SermonSchema)
  {
    SermonPointSchemaWellFormed();
    assert Names(SermonSchema.properties) == ["title", "text_focus", "introduction", "points", "conclusion"];
  }

  lemma BookMetaSchemaWellFormed()
    ensures WellFormed(BookMetaSchema)
  {
    assert Names(BookMetaSchema.properties) == ["reference", "translation", "generated_at"];
  }

  /** An object without required properties is well formed when its names
      are distinct and its properties are strings or lists of strings. */
  lemma LooseWellFormed(ps: seq<Property>)
    requires forall i, j :: 0 <= i < j < |ps| ==> ps[i].name != ps[j].name
    requires forall i :: 0 <= i < |ps| ==> ps[i].schema in {StringType, ArrayOf(StringType)}
    ensures WellFormed(Loose(ps))
  {
  }

  lemma SectionSchemasWellFormed1()
    ensures WellFormed(GeneralIdSchema)
    ensures WellFormed(AuthorshipSchema)
    ensures WellFormed(DatingSchema)
    ensures WellFormed(RecipientsSchema)
    ensures WellFormed(CulturalContextSchema)
  {
    LooseWellFormed(GeneralIdSchema.properties);
    LooseWellFormed(AuthorshipSchema.properties);
    LooseWellFormed(DatingSchema.properties);
    LooseWellFormed(RecipientsSchema.properties);
    LooseWellFormed(CulturalContextSchema.properties);
  }

  lemma SectionSchemasWellFormed2()
    ensures WellFormed(CanonicalContextSchema)
    ensures WellFormed(PurposeSchema)
    ensures WellFormed(StructureSchema)
    ensures WellFormed(StyleSchema)
    ensures WellFormed(CharacterSchema)
  {
    LooseWellFormed(CanonicalContextSchema.properties);
    LooseWellFormed(PurposeSchema.properties);
    LooseWellFormed(StructureSchema.properties);
    LooseWellFormed(StyleSchema.properties);
    LooseWellFormed(CharacterSchema.properties);
  }

  lemma SectionSchemasWellFormed3()
    ensures WellFormed(TheologySchema)
    ensures WellFormed(KeyPassageSchema)
    ensures WellFormed(RedemptivePlanSchema)
    ensures WellFormed(ApplicationSchema)
    ensures WellFormed(InterpretationChallengesSchema)
  {
    LooseWellFormed(TheologySchema.properties);
    LooseWellFormed(KeyPassageSchema.properties);
    LooseWellFormed(RedemptivePlanSchema.properties);
    LooseWellFormed(ApplicationSchema.properties);
    LooseWellFormed(InterpretationChallengesSchema.properties);
  }

  lemma BookIntroSectionsWellFormed1()
    ensures forall i :: 0 <= i < 6 ==> WellFormed(BookIntroSections[i].schema)
  {
    SectionSchemasWellFormed1();
    SectionSchemasWellFormed2();
  }

  lemma BookIntroSectionsWellFormed2()
    ensures forall i :: 6 <= i < 12 ==> WellFormed(BookIntroSections[i].schema)
  {
    SectionSchemasWellFormed2();
  }

  lemma BookIntroSectionsWellFormed3()
    ensures forall i :: 12 <= i < 18 ==> WellFormed(BookIntroSections[i].schema)
  {
    SectionSchemasWellFormed3();
  }

  lemma BookIntroSectionsWellFormed()
    ensures forall i :: 0 <= i < |BookIntroSections| ==> WellFormed(BookIntroSections[i].schema)
  {
    BookIntroSectionsWellFormed1();
    BookIntroSectionsWellFormed2();
    BookIntroSectionsWellFormed3();
  }

  lemma BookIntroSectionNames()
    ensures |BookIntroSections| == 18
    ensures forall i :: 0 <= i < 18 ==> BookIntroSections[i].name == BookIntroFields[i]
  {
  }

  lemma BookIntroFieldsDistinct()
    ensures forall i, j :: 0 <= i < j < |BookIntroFields| ==> BookIntroFields[i] != BookIntroFields[j]
  {
  }

  lemma BookIntroNames()
    ensures Names(BookIntroSections) == BookIntroFields
    ensures forall i, j :: 0 <= i < j < |BookIntroSections| ==> BookIntroSections[i].name != BookIntroSections[j].name
  {
    BookIntroSectionNames();
    BookIntroFieldsDistinct();
  }

  lemma BookIntroSchemaWellFormed()
    ensures WellFormed(BookIntroSchema)
  {
    BookIntroSectionsWellFormed();
    BookIntroNames();
  }

  lemma PassageSchemaWellFormed()
    ensures WellFormed(PassageSchema)
  {
    MetaSchemaWellFormed(); SummarySchemaWellFormed(); ContentSchemaWellFormed();
    SermonSchemaWellFormed(); SlideSchemaWellFormed();
    assert Names(PassageSchema.properties) == ["meta", "summary", "content", "sermon", "slides"];
    assert BookSchema.properties[1..] == [Property("bookIntro", BookIntroSchema)];
    assert Lookup(BookSchema.properties[1..], "bookIntro") == Some(BookIntroSchema);
  }

  lemma BookSchemaWellFormed()
    ensures WellFormed(BookSchema)
  {
    BookMetaSchemaWellFormed(); BookIntroSchemaWellFormed();
    assert Names(BookSchema.properties) == ["meta", "bookIntro"];
  }

  lemma ContentNames()
    ensures Names(ContentSchema.properties) ==
      [ "text_base", "intro_definition", "context_literary", "context_historical", "parallels",
        "lexical_analysis", "intertextuality", "interpretations", "theologians", "implications",
        "study_questions", "bibliography" ]
  {
  }

  /** Both schemas are well formed. The passage schema requires every one of
      its top-level sections; the book schema requires `meta` and
      `bookIntro`, and `bookIntro` requires exactly the eighteen fields of
      BookIntroContent, in their declaration order. In the content section
      only `intertextuality` and `study_questions` are optional. */
  lemma SchemaFacts()
    ensures WellFormed(PassageSchema) && WellFormed(BookSchema)
    ensures PassageSchema.required == ["meta", "summary", "content", "slides", "sermon"]
    ensures (set n | n in PassageSchema.required) == (set n | n in Names(PassageSchema.properties))
    ensures BookSchema.required == ["meta", "bookIntro"]
    ensures PropertyOf(BookSchema, "bookIntro") == Some(BookIntroSchema)
    ensures BookIntroSchema.required == BookIntroFields && |BookIntroFields| == 18
    ensures Names(BookIntroSchema.properties) == BookIntroFields
    ensures (set n | n in Names(ContentSchema.properties)) - (set n | n in ContentSchema.required)
            == {"intertextuality", "study_questions"}
  {
    PassageSchemaWellFormed();
    BookSchemaWellFormed();
    BookIntroNames();
    ContentNames();
    assert Names(PassageSchema.properties) == ["meta", "summary", "content", "sermon", "slides"];
    assert BookSchema.properties[1..] == [Property("bookIntro", BookIntroSchema)];
    assert Lookup(BookSchema.properties[1..], "bookIntro") == Some(BookIntroSchema);
  }

  // ---------------------------------------------------------------------
  // Prompts

  /** The four cases of the depth switch; each case writes its own text into
      the five instruction slots. */
  datatype DepthCase = RapidoCase | DetalhadoCase | AcademicoCase | SermaoCase

  datatype Slot = ToneSlot | LexicalSlot | TheologySlot | DepthSlot | SermonSlot

  /** An instruction fragment, identified by the case and slot it is written
      under; its wording is not modelled. */
  datatype Fragment = Fragment(source: DepthCase, slot: Slot)

  datatype Fragments = Fragments(
    tone: Fragment, lexical: Fragment, theology: Fragment, depth: Fragment, sermon: Fragment)

  /** The case the depth switch takes: `detalhado` is also the default. */
  function CaseFor(depth: string): DepthCase
  {
    if depth == "rapido" then RapidoCase
    else if depth == "academico" then AcademicoCase
    else if depth == "sermao" then SermaoCase
    else DetalhadoCase
  }

  function FragmentsOf(c: DepthCase): Fragments
  {
    Fragments(Fragment(c, ToneSlot), Fragment(c, LexicalSlot), Fragment(c, TheologySlot),
              Fragment(c, DepthSlot), Fragment(c, SermonSlot))
  }

  /** The five instructions the switch on `depth` assigns: each fills its
      own slot, all five come from the same case, and that case is the one
      named by the depth, `detalhado` for any depth not named. */
  function FragmentsFor(depth: string): (f: Fragments)
    ensures f.tone.slot == ToneSlot && f.lexical.slot == LexicalSlot && f.theology.slot == TheologySlot
    ensures f.depth.slot == DepthSlot && f.sermon.slot == SermonSlot
    ensures f.lexical.source == f.tone.source && f.theology.source == f.tone.source
    ensures f.depth.source == f.tone.source && f.sermon.source == f.tone.source
    ensures f.tone.source == RapidoCase <==> depth == "rapido"
    ensures f.tone.source == AcademicoCase <==> depth == "academico"
    ensures f.tone.source == SermaoCase <==> depth == "sermao"
  {
    FragmentsOf(CaseFor(depth))
  }

  /** Each named depth selects its own fragments, no two depths the same
      ones, and every other depth value selects the `detalhado` ones. */
  lemma DepthTable(depth: string)
    ensures FragmentsFor("rapido").tone.source == RapidoCase
    ensures FragmentsFor("academico").tone.source == AcademicoCase
    ensures FragmentsFor("sermao").tone.source == SermaoCase
    ensures FragmentsFor("detalhado").tone.source == DetalhadoCase
    ensures forall d, e :: d in AllDepths && e in AllDepths && d != e ==>
      FragmentsFor(d.Code()) != FragmentsFor(e.Code())
    ensures depth !in {"rapido", "academico", "sermao"} ==> FragmentsFor(depth) == FragmentsFor("detalhado")
  {
  }

  /** The system and user instructions: for a passage, the depth label (the
      depth code upper-cased), the selected fragments, the passage and the
      translation; for a book, only the book name. */
  datatype Prompt =
    | PassagePrompt(depthLabel: string, fragments: Fragments, passage: string, translation: string)
    | BookPrompt(book: string)

  /** The configuration of one call to the generative model. */
  datatype Call = Call(model: string, prompt: Prompt, schema: Schema, mimeType: string, temperature: real)

  const ModelName: string := "gemini-2.5-flash"
  const Temperature: real := 0.5

  /** The call `generateStudy` makes for a request: the book prompt and schema
      when the mode is `book`, and the passage ones for any other mode,
      including an absent one. */
  function CallFor(request: StudyRequest): (c: Call)
    ensures c.model == ModelName && c.mimeType == "application/json" && c.temperature == Temperature
    ensures request.mode == Some(Book) ==> c.schema == BookSchema && c.prompt == BookPrompt(request.passage)
    ensures request.mode != Some(Book) ==>
      c.schema == PassageSchema && c.prompt.PassagePrompt? &&
      c.prompt.depthLabel == Upper(request.depth) && c.prompt.fragments == FragmentsFor(request.depth) &&
      c.prompt.passage == request.passage && c.prompt.translation == request.translation
  {
    if request.mode == Some(Book) then
      Call(ModelName, BookPrompt(request.passage), BookSchema, "application/json", Temperature)
    else
      Call(ModelName,
           PassagePrompt(Upper(request.depth), FragmentsFor(request.depth), request.passage, request.translation),
           PassageSchema, "application/json", Temperature)
  }

  /** The tag stamped on the result. */
  function TagFor(mode: Option<StudyMode>): (t: StudyMode)
    ensures t == Book <==> mode == Some(Book)
  {
    if mode == Some(Book) then Book else Passage
  }

  // ---------------------------------------------------------------------
  // One attempt

  /** What `JSON.parse` produced from the reply text, as far as the code
      uses it: whether `meta` is an object it can write into, and the
      payload sections, kept as they came. */
  datatype ParsedStudy = ParsedStudy(
    hasMeta: bool,
    summary: Option<Summary>,
    content: Option<Content>,
    sermon: Option<SermonContent>,
    slides: Option<seq<SlideContent>>,
    bookIntro: Option<BookIntroContent>)

  datatype Reply = Parsed(study: ParsedStudy) | Unparseable

  /** What one call to the service yields: non-empty text (and what parsing it
      gave), an empty text, or a thrown error with an optional status. */
  datatype AttemptOutcome = Text(reply: Reply) | EmptyText | Failed(status: Option<int>)

  /** `!error.status || error.status >= 500`: no status (or a zero one, which
      JavaScript also treats as false) or a server error. */
  predicate IsRetryable(status: Option<int>)
    ensures status.None? ==> IsRetryable(status)
    ensures status.Some? && status.value >= 500 ==> IsRetryable(status)
    ensures status.Some? && 0 < status.value < 500 ==> !IsRetryable(status)
  {
    status.None? || status.value == 0 || status.value >= 500
  }

  /** The study returned on success: the parsed payload with `type` set to
      the tag and `meta` overwritten with the request's values and the time
      of generation. */
  function Normalise(p: ParsedStudy, request: StudyRequest, tag: StudyMode, generatedAt: string): (d: StudyData)
    ensures d.kind == tag
    ensures d.meta == Meta(request.passage, request.translation, generatedAt)
    ensures d.summary == p.summary && d.content == p.content && d.sermon == p.sermon
    ensures d.slides == p.slides && d.bookIntro == p.bookIntro
  {
    StudyData(tag, Meta(request.passage, request.translation, generatedAt),
              p.summary, p.content, p.sermon, p.slides, p.bookIntro)
  }

  /** The body of the `try` block: the normalised study, or the status of the
      error it throws. An empty text ("Empty response from AI"), a parse
      failure and a reply without a writable `meta` all throw errors without
      a status. */
  function AttemptResult(o: AttemptOutcome, request: StudyRequest, tag: StudyMode, generatedAt: string)
    : (r: Result<StudyData, Option<int>>)
    ensures o.Failed? ==> r == Err(o.status)
    ensures o.EmptyText? || o == Text(Unparseable) ==> r == Err(None)
    ensures r.Ok? <==> o.Text? && o.reply.Parsed? && o.reply.study.hasMeta
    ensures r.Ok? ==> r.value == Normalise(o.reply.study, request, tag, generatedAt)
  {
    match o
    case Failed(status) => Err(status)
    case EmptyText => Err(None)
    case Text(Unparseable) => Err(None)
    case Text(Parsed(p)) =>
      if p.hasMeta then Ok(Normalise(p, request, tag, generatedAt)) else Err(None)
  }

  // ---------------------------------------------------------------------
  // The retry loop

  const MaxAttempts: nat := 3
  const BaseDelayMs: nat := 1000

  const ConfigErrorMessage: string :=
    "A chave de API do Gemini não está configurada. Por favor, configure a variável de ambiente API_KEY."
  const GenerationFailedMessage: string :=
    "Falha ao gerar o estudo. Verifique a API Key ou tente novamente."

  function Pow2(n: nat): (r: nat)
    ensures r >= 1
  {
    if n == 0 then 1 else 2 * Pow2(n - 1)
  }

  /** The sleep after a retryable failure of attempt `k`: `1000 * 2^(k-1)`. */
  function BackoffDelay(k: nat): nat
    requires k >= 1
  {
    BaseDelayMs * Pow2(k - 1)
  }

  /** The delays after attempts 1..n. */
  function Backoffs(n: nat): (r: seq<nat>)
    ensures |r| == n && forall i :: 0 <= i < n ==> r[i] == BackoffDelay(i + 1)
  {
    seq(n, i requires 0 <= i < n => BackoffDelay(i + 1))
  }

  /** How a call to the retry loop ends: the study or the message thrown, the
      number of attempts made and the delays slept, in order. */
  datatype RunResult = RunResult(outcome: Result<StudyData, string>, attempts: nat, delays: seq<nat>)

  /** The retry loop from attempt `k` on: it stops at the first success or
      at the third attempt, with one delay after each attempt it retries;
      a success is the last attempt's study, and a failure is the generic
      message. */
  function RetryFrom(service: (Call, nat) -> AttemptOutcome, call: Call, request: StudyRequest,
                     tag: StudyMode, generatedAt: string, k: nat): (r: RunResult)
    requires 1 <= k <= MaxAttempts
    ensures k <= r.attempts <= MaxAttempts && |r.delays| == r.attempts - k
    ensures r.outcome.Err? ==> r.outcome.error == GenerationFailedMessage
    ensures r.outcome.Ok? ==>
      AttemptResult(service(call, r.attempts), request, tag, generatedAt) == Ok(r.outcome.value)
    decreases MaxAttempts - k
  {
    match AttemptResult(service(call, k), request, tag, generatedAt)
    case Ok(d) => RunResult(Ok(d), k, [])
    case Err(status) =>
      if IsRetryable(status) && k < MaxAttempts then
        var rest := RetryFrom(service, call, request, tag, generatedAt, k + 1);
        rest.(delays := [BackoffDelay(k)] + rest.delays)
      else RunResult(Err(GenerationFailedMessage), k, [])
  }

  /** A run with `prefix` slept before its own delays. */
  function Delayed(prefix: seq<nat>, r: RunResult): RunResult
  {
    RunResult(r.outcome, r.attempts, prefix + r.delays)
  }

  /** One attempt of the retry loop: its result, or one delay and the
      attempts after it. */
  lemma RetryStep(service: (Call, nat) -> AttemptOutcome, call: Call, request: StudyRequest,
                  tag: StudyMode, generatedAt: string, k: nat, prefix: seq<nat>)
    requires 1 <= k <= MaxAttempts
    ensures var a := AttemptResult(service(call, k), request, tag, generatedAt);
      Delayed(prefix, RetryFrom(service, call, request, tag, generatedAt, k)) ==
        if a.Ok? then RunResult(Ok(a.value), k, prefix)
        else if IsRetryable(a.error) && k < MaxAttempts then
          Delayed(prefix + [BackoffDelay(k)], RetryFrom(service, call, request, tag, generatedAt, k + 1))
        else RunResult(Err(GenerationFailedMessage), k, prefix)
  {
    var a := AttemptResult(service(call, k), request, tag, generatedAt);
    if a.Err? && IsRetryable(a.error) && k < MaxAttempts {
      var rest := RetryFrom(service, call, request, tag, generatedAt, k + 1);
      assert prefix + ([BackoffDelay(k)] + rest.delays) == (prefix + [BackoffDelay(k)]) + rest.delays;
    } else {
      assert prefix + [] == prefix;
    }
  }

  lemma BackoffsSnoc(n: nat)
    ensures Backoffs(n) + [BackoffDelay(n + 1)] == Backoffs(n + 1)
  {
  }

  /** `makeGeminiRequest`: up to three attempts; after a retryable failure of
      an attempt before the last it sleeps and tries again; it returns the
      first study obtained or throws the one generic message. */
  method MakeGeminiRequest(service: (Call, nat) -> AttemptOutcome, call: Call, request: StudyRequest,
                           tag: StudyMode, generatedAt: string)
    returns (outcome: Result<StudyData, string>, attempts: nat, delays: seq<nat>)
    ensures RunResult(outcome, attempts, delays) == RetryFrom(service, call, request, tag, generatedAt, 1)
    ensures 1 <= attempts <= MaxAttempts && delays == Backoffs(attempts - 1)
    ensures outcome.Err? ==> outcome.error == GenerationFailedMessage
  {
    var attempt := 1;
    delays := [];
    assert Delayed([], RetryFrom(service, call, request, tag, generatedAt, 1))
      == RetryFrom(service, call, request, tag, generatedAt, 1);
    while attempt <= MaxAttempts
      invariant 1 <= attempt <= MaxAttempts
      invariant delays == Backoffs(attempt - 1)
      invariant RetryFrom(service, call, request, tag, generatedAt, 1)
        == Delayed(delays, RetryFrom(service, call, request, tag, generatedAt, attempt))
      decreases MaxAttempts - attempt
    {
      var r := AttemptResult(service(call, attempt), request, tag, generatedAt);
      RetryStep(service, call, request, tag, generatedAt, attempt, delays);
      if r.Ok? {
        return Ok(r.value), attempt, delays;
      }
      if IsRetryable(r.error) && attempt < MaxAttempts {
        BackoffsSnoc(attempt - 1);
        delays := delays + [BackoffDelay(attempt)];
        attempt := attempt + 1;
        continue;
      }
      break;
    }
    outcome, attempts := Err(GenerationFailedMessage), attempt;
  }

  /** Every attempt but the last failed retryably; the last one succeeded,
      failed terminally, or was the third; a delay followed every attempt but
      the last; the error is always the generic message. */
  lemma {:induction false} RetryShape(service: (Call, nat) -> AttemptOutcome, call: Call, request: StudyRequest,
                                      tag: StudyMode, generatedAt: string, k: nat)
    requires 1 <= k <= MaxAttempts
    ensures var r := RetryFrom(service, call, request, tag, generatedAt, k);
      && k <= r.attempts <= MaxAttempts
      && |r.delays| == r.attempts - k
      && (forall i :: 0 <= i < |r.delays| ==> r.delays[i] == BackoffDelay(k + i))
      && (forall j :: k <= j < r.attempts ==>
            var a := AttemptResult(service(call, j), request, tag, generatedAt);
            a.Err? && IsRetryable(a.error))
      && (var last := AttemptResult(service(call, r.attempts), request, tag, generatedAt);
          if last.Ok? then r.outcome == Ok(last.value)
          else r.outcome == Err(GenerationFailedMessage) && (!IsRetryable(last.error) || r.attempts == MaxAttempts))
    decreases MaxAttempts - k
  {
    var a := AttemptResult(service(call, k), request, tag, generatedAt);
    if a.Err? && IsRetryable(a.error) && k < MaxAttempts {
      RetryShape(service, call, request, tag, generatedAt, k + 1);
    }
  }

  // ---------------------------------------------------------------------
  // Entry point

  /** `generateStudy`: without a non-empty API key it throws the
      configuration message before any attempt; otherwise it routes on the
      mode and runs the retry loop. */
  function Generate(request: StudyRequest, apiKey: Option<string>, service: (Call, nat) -> AttemptOutcome,
                    generatedAt: string): (r: RunResult)
    ensures r.attempts == 0 <==> apiKey.None? || apiKey.value == ""
    ensures r.attempts == 0 ==> r.outcome == Err(ConfigErrorMessage) && r.delays == []
    ensures r.attempts <= MaxAttempts && |r.delays| == (if r.attempts == 0 then 0 else r.attempts - 1)
    ensures r.outcome.Err? ==> r.outcome.error in {ConfigErrorMessage, GenerationFailedMessage}
  {
    if apiKey.None? || apiKey.value == "" then RunResult(Err(ConfigErrorMessage), 0, [])
    else RetryFrom(service, CallFor(request), request, TagFor(request.mode), generatedAt, 1)
  }

  method GenerateStudy(request: StudyRequest, apiKey: Option<string>, service: (Call, nat) -> AttemptOutcome,
                       generatedAt: string)
    returns (outcome: Result<StudyData, string>, attempts: nat, delays: seq<nat>)
    ensures RunResult(outcome, attempts, delays) == Generate(request, apiKey, service, generatedAt)
    ensures (apiKey.None? || apiKey.value == "") <==> attempts == 0
    ensures attempts <= MaxAttempts && delays == Backoffs(if attempts == 0 then 0 else attempts - 1)
    ensures outcome.Err? ==> outcome.error in {ConfigErrorMessage, GenerationFailedMessage}
  {
    if apiKey.None? || apiKey.value == "" {
      return Err(ConfigErrorMessage), 0, [];
    }
    var call := CallFor(request);
    outcome, attempts, delays := MakeGeminiRequest(service, call, request, TagFor(request.mode), generatedAt);
  }

  /** On success the study carries the tag of the requested mode, the
      request's passage and translation, and the payload the service returned
      on the last attempt. */
  lemma SuccessIsNormalised(request: StudyRequest, apiKey: Option<string>,
                            service: (Call, nat) -> AttemptOutcome, generatedAt: string)
    ensures var r := Generate(request, apiKey, service, generatedAt);
      r.outcome.Ok? ==>
        && 1 <= r.attempts <= MaxAttempts
        && var o := service(CallFor(request), r.attempts);
        && o.Text? && o.reply.Parsed?
        && r.outcome.value == Normalise(o.reply.study, request, TagFor(request.mode), generatedAt)
        && r.outcome.value.kind == (if request.mode == Some(Book) then Book else Passage)
        && r.outcome.value.meta.reference == request.passage
        && r.outcome.value.meta.translation == request.translation
  {
    if apiKey.Some? && apiKey.value != "" {
      RetryShape(service, CallFor(request), request, TagFor(request.mode), generatedAt, 1);
    }
  }

  /** A service that always answers with a server error is called exactly
      three times, with delays of 1000 and 2000 ms, and the caller gets the
      generic message, not the status. */
  lemma ServerErrorsExhaustRetries(request: StudyRequest, key: string,
                                   service: (Call, nat) -> AttemptOutcome, generatedAt: string)
    requires key != ""
    requires forall k :: 1 <= k <= MaxAttempts ==> service(CallFor(request), k) == Failed(Some(500))
    ensures Generate(request, Some(key), service, generatedAt)
      == RunResult(Err(GenerationFailedMessage), 3, [1000, 2000])
  {
    var call, tag := CallFor(request), TagFor(request.mode);
    assert RetryFrom(service, call, request, tag, generatedAt, 3) == RunResult(Err(GenerationFailedMessage), 3, []);
    assert RetryFrom(service, call, request, tag, generatedAt, 2) == RunResult(Err(GenerationFailedMessage), 3, [2000]);
  }

  /** A client error on the first attempt ends the loop at once, without a
      delay. */
  lemma ClientErrorStopsAtOnce(request: StudyRequest, key: string, status: int,
                               service: (Call, nat) -> AttemptOutcome, generatedAt: string)
    requires key != "" && 0 < status < 500
    requires service(CallFor(request), 1) == Failed(Some(status))
    ensures Generate(request, Some(key), service, generatedAt)
      == RunResult(Err(GenerationFailedMessage), 1, [])
  {
  }

  /** Without a key nothing is attempted and the configuration message is
      thrown. */
  lemma MissingKeyFailsFirst(request: StudyRequest, apiKey: Option<string>,
                             service: (Call, nat) -> AttemptOutcome, generatedAt: string)
    requires apiKey.None? || apiKey.value == ""
    ensures Generate(request, apiKey, service, generatedAt) == RunResult(Err(ConfigErrorMessage), 0, [])
  {
  }

  /** The only delays there can be are 1000 ms and then 2000 ms. */
  lemma DelaySchedule(n: nat)
    requires n < MaxAttempts
    ensures Backoffs(n) == [1000, 2000][..n]
  {
    assert BackoffDelay(1) == 1000 && BackoffDelay(2) == 2000;
  }
}
