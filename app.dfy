/** The application shell: the recent-request history, the reading of the
    URL parameters, the loading-message cycle and the loading/error
    transitions around a generation. */
module AppState {
  import opened Wrappers
  import opened StudyTypes
  import opened GeminiService
  import opened Seqs

  /** The messages shown in turn while a study is being generated. */
  const LoadingMessages: seq<string> := [
    "Consultando os textos originais...",
    "Analisando o contexto histórico...",
    "Verificando léxicos gregos e hebraicos...",
    "Sintetizando visões teológicas...",
    "Estruturando o esboço do sermão...",
    "Formatando referências cruzadas...",
    "Aplicando hermenêutica..."
  ]

  const HistoryLimit: nat := 10

  const FallbackErrorMessage: string := "Ocorreu um erro ao gerar o estudo. Verifique sua conexão."

  // ---------------------------------------------------------------------
  // History

  /** Two history entries are the same study when passage and translation
      agree; depth, mode and timestamp do not matter. */
  predicate SameKey(a: HistoryItem, b: HistoryItem)
  {
    a.passage == b.passage && a.translation == b.translation
  }

  /** No two entries are the same study. */
  predicate UniqueKeys(h: seq<HistoryItem>)
  {
    forall i, j :: 0 <= i < j < |h| ==> !SameKey(h[i], h[j])
  }

  /** The `filter` of `addToHistory`: the entries that are not the same study
      as `item`, in their order. */
  function WithoutKey(prev: seq<HistoryItem>, item: HistoryItem): (r: seq<HistoryItem>)
    ensures |r| <= |prev|
    ensures forall x :: x in r <==> x in prev && !SameKey(x, item)
    ensures Subsequence(r, prev)
  {
    if prev == [] then []
    else if SameKey(prev[0], item) then WithoutKey(prev[1..], item)
    else [prev[0]] + WithoutKey(prev[1..], item)
  }

  /** The filter drops every copy of the entries that are the same study
      as `item` and keeps every copy of the others. */
  lemma {:induction false} WithoutKeyCounts(prev: seq<HistoryItem>, item: HistoryItem)
    ensures var r := WithoutKey(prev, item);
      forall x :: multiset(r)[x] == if SameKey(x, item) then 0 else multiset(prev)[x]
  {
    if prev != [] {
      WithoutKeyCounts(prev[1..], item);
      assert prev == [prev[0]] + prev[1..];
    }
  }

  function Min(a: nat, b: nat): nat { if a <= b then a else b }

  /** The new history: `item` first, then the older entries that are not the
      same study, cut to ten entries. */
  function UpdatedHistory(prev: seq<HistoryItem>, item: HistoryItem): (h: seq<HistoryItem>)
    ensures 1 <= |h| <= HistoryLimit && h[0] == item
    ensures |h| == Min(HistoryLimit, 1 + |WithoutKey(prev, item)|)
    ensures forall i :: 1 <= i < |h| ==> !SameKey(h[i], item) && h[i] in prev
    ensures h[1..] == WithoutKey(prev, item)[..|h| - 1]
  {
    var kept := WithoutKey(prev, item);
    var h := ([item] + kept)[..Min(HistoryLimit, 1 + |kept|)];
    assert h[1..] == kept[..|h| - 1];
    h
  }

  /** The older entries that stay keep their relative order. */
  lemma HistoryKeepsOrder(prev: seq<HistoryItem>, item: HistoryItem)
    ensures Subsequence(UpdatedHistory(prev, item)[1..], prev)
  {
    var h := UpdatedHistory(prev, item);
    PrefixSubsequence(WithoutKey(prev, item), prev, |h| - 1);
  }

  lemma {:induction false} WithoutKeyUnique(prev: seq<HistoryItem>, item: HistoryItem)
    requires UniqueKeys(prev)
    ensures UniqueKeys(WithoutKey(prev, item))
  {
    if prev != [] {
      assert UniqueKeys(prev[1..]) by {
        forall i, j | 0 <= i < j < |prev[1..]|
          ensures !SameKey(prev[1..][i], prev[1..][j])
        {
          assert prev[1..][i] == prev[i + 1] && prev[1..][j] == prev[j + 1];
        }
      }
      WithoutKeyUnique(prev[1..], item);
      var rest := WithoutKey(prev[1..], item);
      if !SameKey(prev[0], item) {
        forall x | x in rest
          ensures !SameKey(prev[0], x)
        {
          var j :| 0 <= j < |prev[1..]| && prev[1..][j] == x;
          assert prev[j + 1] == x;
        }
        var r := [prev[0]] + rest;
        forall i, j | 0 <= i < j < |r|
          ensures !SameKey(r[i], r[j])
        {
          assert r[j] == rest[j - 1];
          if i > 0 {
            assert r[i] == rest[i - 1];
          } else {
            assert r[j] in rest;
          }
        }
      }
    }
  }

  /** A history without repeated studies stays so. */
  lemma HistoryKeysStayUnique(prev: seq<HistoryItem>, item: HistoryItem)
    requires UniqueKeys(prev)
    ensures UniqueKeys(UpdatedHistory(prev, item))
  {
    WithoutKeyUnique(prev, item);
    var kept := WithoutKey(prev, item);
    var h := UpdatedHistory(prev, item);
    forall i, j | 0 <= i < j < |h|
      ensures !SameKey(h[i], h[j])
    {
      if i > 0 {
        assert h[i] == kept[i - 1] && h[j] == kept[j - 1];
      }
    }
  }

  lemma {:induction false} WithoutAbsentKey(s: seq<HistoryItem>, item: HistoryItem)
    requires forall x :: x in s ==> !SameKey(x, item)
    ensures WithoutKey(s, item) == s
  {
    if s != [] {
      WithoutAbsentKey(s[1..], item);
      assert s == [s[0]] + s[1..];
    }
  }

  /** Requesting the same study again replaces its entry: the history is as
      if only the later request had been made. */
  lemma RepeatedRequestReplaces(prev: seq<HistoryItem>, first: HistoryItem, second: HistoryItem)
    requires SameKey(first, second)
    ensures UpdatedHistory(UpdatedHistory(prev, first), second) == UpdatedHistory(prev, second)
  {
    var h1 := UpdatedHistory(prev, first);
    var k1 := WithoutKey(prev, first);
    WithoutKeySameKey(prev, first, second);
    assert WithoutKey(h1, second) == h1[1..] by {
      assert h1 == [first] + h1[1..];
      WithoutAbsentKey(h1[1..], second);
    }
    var m := |h1|;
    assert h1[1..] == k1[..m - 1];
    assert UpdatedHistory(h1, second) == [second] + h1[1..] by {
      assert ([second] + h1[1..])[..Min(HistoryLimit, m)] == [second] + h1[1..];
    }
    assert UpdatedHistory(prev, second) == ([second] + k1)[..m];
    assert [second] + k1[..m - 1] == ([second] + k1)[..m];
  }

  lemma {:induction false} WithoutKeySameKey(prev: seq<HistoryItem>, a: HistoryItem, b: HistoryItem)
    requires SameKey(a, b)
    ensures WithoutKey(prev, a) == WithoutKey(prev, b)
  {
    if prev != [] {
      WithoutKeySameKey(prev[1..], a, b);
    }
  }

  // ---------------------------------------------------------------------
  // URL parameters and messages

  /** `value || fallback`: a missing or empty parameter takes the default. */
  function ParamOr(value: Option<string>, fallback: string): (r: string)
    ensures value.Some? && value.value != "" ==> r == value.value
    ensures value.None? || value.value == "" ==> r == fallback
  {
    if value.None? || value.value == "" then fallback else value.value
  }

  /** The request the URL parameters ask for: none without a non-empty `ref`,
      and none when `decodeURIComponent` throws on it (`decode` returns None);
      otherwise the decoded reference with the translation defaulting to NVI
      and the depth to `detalhado`, and no mode. */
  function UrlRequest(ref: Option<string>, trans: Option<string>, depth: Option<string>,
                      decode: string -> Option<string>): (r: Option<StudyRequest>)
    ensures r.Some? <==> ref.Some? && ref.value != "" && decode(ref.value).Some?
    ensures r.Some? ==> r.value == StudyRequest(decode(ref.value).value, ParamOr(trans, "NVI"),
                                                ParamOr(depth, "detalhado"), None)
  {
    if ref.None? || ref.value == "" then None
    else match decode(ref.value)
      case None => None
      case Some(passage) => Some(StudyRequest(passage, ParamOr(trans, "NVI"), ParamOr(depth, "detalhado"), None))
  }

  /** `err.message || fallback`. */
  function ErrorText(message: string): (r: string)
    ensures r != ""
    ensures message != "" ==> r == message
  {
    if message == "" then FallbackErrorMessage else message
  }

  /** The generator's errors are never empty, so the fallback text is never
      shown for them. */
  lemma GenerationErrorsShownAsIs(message: string)
    requires message in {ConfigErrorMessage, GenerationFailedMessage}
    ensures ErrorText(message) == message && ErrorText(message) != FallbackErrorMessage
  {
  }

  /** The loading-message index after `k` ticks of the interval. */
  function CycleAfter(k: nat): (i: nat)
    ensures i < |LoadingMessages|
  {
    if k == 0 then 0 else (CycleAfter(k - 1) + 1) % |LoadingMessages|
  }

  /** Counting ticks modulo seven: after `k` ticks message `k mod 7` shows. */
  lemma {:induction false} CycleIsModular(k: nat)
    ensures CycleAfter(k) == k % |LoadingMessages|
  {
    if k > 0 {
      CycleIsModular(k - 1);
    }
  }

  // ---------------------------------------------------------------------
  // The component state

  datatype AppSnapshot = AppSnapshot(currentStudy: Option<StudyData>, isLoading: bool, cycleIndex: nat,
                                     loadingMsg: string, error: Option<string>,
                                     history: seq<HistoryItem>, hasCheckedUrl: bool)

  class App {
    var currentStudy: Option<StudyData>
    var isLoading: bool
    /** The interval's counter `i`, kept between ticks. */
    var cycleIndex: nat
    var loadingMsg: string
    var error: Option<string>
    var history: seq<HistoryItem>
    var hasCheckedUrl: bool

    /** The whole state, as a value. */
    function Snapshot(): AppSnapshot
      reads this
    {
      AppSnapshot(currentStudy, isLoading, cycleIndex, loadingMsg, error, history, hasCheckedUrl)
    }

    /** The message shown is the one at the cycle counter. */
    predicate Valid()
      reads this
    {
      cycleIndex < |LoadingMessages| && loadingMsg == LoadingMessages[cycleIndex]
    }

    constructor()
      ensures Valid()
      ensures currentStudy == None && !isLoading && error == None
      ensures history == [] && !hasCheckedUrl
      ensures cycleIndex == 0 && loadingMsg == LoadingMessages[0]
    {
      currentStudy := None;
      isLoading := false;
      cycleIndex := 0;
      loadingMsg := LoadingMessages[0];
      error := None;
      history := [];
      hasCheckedUrl := false;
    }

    /** The first effect: the saved history, when there is one and it parses,
        replaces the empty one. */
    method LoadHistory(saved: Option<seq<HistoryItem>>)
      modifies this
      ensures history == (if saved.Some? then saved.value else old(history))
      ensures currentStudy == old(currentStudy) && isLoading == old(isLoading) && error == old(error)
      ensures cycleIndex == old(cycleIndex) && loadingMsg == old(loadingMsg) && hasCheckedUrl == old(hasCheckedUrl)
    {
      if saved.Some? {
        history := saved.value;
      }
    }

    /** The loading effect, when loading starts: the counter restarts at the
        first message. */
    method StartLoadingCycle()
      modifies this
      ensures Valid() && cycleIndex == 0 && loadingMsg == LoadingMessages[0]
      ensures currentStudy == old(currentStudy) && isLoading == old(isLoading) && error == old(error)
      ensures history == old(history) && hasCheckedUrl == old(hasCheckedUrl)
    {
      cycleIndex := 0;
      loadingMsg := LoadingMessages[0];
    }

    /** One tick of the interval: the next message, wrapping after the last. */
    method Tick()
      requires Valid()
      modifies this
      ensures Valid() && cycleIndex == (old(cycleIndex) + 1) % |LoadingMessages|
      ensures currentStudy == old(currentStudy) && isLoading == old(isLoading) && error == old(error)
      ensures history == old(history) && hasCheckedUrl == old(hasCheckedUrl)
    {
      cycleIndex := (cycleIndex + 1) % |LoadingMessages|;
      loadingMsg := LoadingMessages[cycleIndex];
    }

    /** `k` ticks after the cycle starts, message `k mod 7` is shown. */
    method RunCycle(k: nat)
      modifies this
      ensures Valid() && cycleIndex == k % |LoadingMessages| && loadingMsg == LoadingMessages[k % |LoadingMessages|]
      ensures currentStudy == old(currentStudy) && isLoading == old(isLoading) && error == old(error)
      ensures history == old(history) && hasCheckedUrl == old(hasCheckedUrl)
    {
      StartLoadingCycle();
      var n := 0;
      while n < k
        invariant 0 <= n <= k
        invariant Valid() && cycleIndex == CycleAfter(n)
        invariant currentStudy == old(currentStudy) && isLoading == old(isLoading) && error == old(error)
        invariant history == old(history) && hasCheckedUrl == old(hasCheckedUrl)
      {
        Tick();
        n := n + 1;
      }
      CycleIsModular(k);
    }

    /** `addToHistory`: the request, stamped with the current time, becomes
        the most recent entry. */
    method AddToHistory(request: StudyRequest, now: int)
      modifies this
      ensures history == UpdatedHistory(old(history), Stamp(request, now))
      ensures history[0].Request() == request && |history| <= HistoryLimit
      ensures currentStudy == old(currentStudy) && isLoading == old(isLoading) && error == old(error)
      ensures cycleIndex == old(cycleIndex) && loadingMsg == old(loadingMsg) && hasCheckedUrl == old(hasCheckedUrl)
    {
      history := UpdatedHistory(history, Stamp(request, now));
    }

    /** `handleCreateStudy`: loading starts and the error clears, the request
        is recorded, the study is generated; then either the study is shown
        or the error message is, and loading ends. */
    method HandleCreateStudy(request: StudyRequest, now: int, apiKey: Option<string>,
                             service: (Call, nat) -> AttemptOutcome, generatedAt: string)
      modifies this
      ensures history == UpdatedHistory(old(history), Stamp(request, now))
      ensures !isLoading
      ensures var run := Generate(request, apiKey, service, generatedAt);
        match run.outcome
        case Ok(d) => currentStudy == Some(d) && error == None
        case Err(m) => currentStudy == old(currentStudy) && error == Some(ErrorText(m))
      ensures Valid() && cycleIndex == 0 && hasCheckedUrl == old(hasCheckedUrl)
    {
      BeginRequest(request, now);
      var outcome, attempts, delays := GenerateStudy(request, apiKey, service, generatedAt);
      EndRequest(outcome);
    }

    /** The steps before the call: loading starts, the message cycle
        restarts, the error clears and the request is recorded. */
    method BeginRequest(request: StudyRequest, now: int)
      modifies this
      ensures history == UpdatedHistory(old(history), Stamp(request, now))
      ensures isLoading && error == None && Valid() && cycleIndex == 0
      ensures currentStudy == old(currentStudy) && hasCheckedUrl == old(hasCheckedUrl)
    {
      isLoading := true;
      StartLoadingCycle();
      error := None;
      AddToHistory(request, now);
    }

    /** The steps after the call: the study or the error message is shown,
        and loading ends. */
    method EndRequest(outcome: Result<StudyData, string>)
      modifies this
      ensures match outcome
        case Ok(d) => currentStudy == Some(d) && error == old(error)
        case Err(m) => currentStudy == old(currentStudy) && error == Some(ErrorText(m))
      ensures !isLoading && history == old(history) && hasCheckedUrl == old(hasCheckedUrl)
      ensures cycleIndex == old(cycleIndex) && loadingMsg == old(loadingMsg)
    {
      match outcome {
        case Ok(d) => currentStudy := Some(d);
        case Err(m) => error := Some(ErrorText(m));
      }
      isLoading := false;
    }

    /** `handleBack`: back to the form with no study and no error. */
    method HandleBack()
      modifies this
      ensures currentStudy == None && error == None
      ensures isLoading == old(isLoading) && history == old(history)
      ensures cycleIndex == old(cycleIndex) && loadingMsg == old(loadingMsg) && hasCheckedUrl == old(hasCheckedUrl)
    {
      currentStudy := None;
      error := None;
    }

    /** The URL effect: on its first run only, a request given by the
        parameters is made, exactly as `handleCreateStudy` makes it; `made`
        is what was requested. Without a request nothing but the flag
        changes. */
    method CheckUrlParams(ref: Option<string>, trans: Option<string>, depth: Option<string>,
                          decode: string -> Option<string>, now: int, apiKey: Option<string>,
                          service: (Call, nat) -> AttemptOutcome, generatedAt: string)
      returns (made: Option<StudyRequest>)
      modifies this
      ensures hasCheckedUrl
      ensures old(hasCheckedUrl) ==> made == None
      ensures !old(hasCheckedUrl) ==> made == UrlRequest(ref, trans, depth, decode)
      ensures made.Some? ==> history == UpdatedHistory(old(history), Stamp(made.value, now)) && !isLoading
      ensures made.Some? ==> Valid() && cycleIndex == 0
      ensures made.Some? ==> var run := Generate(made.value, apiKey, service, generatedAt);
        match run.outcome
        case Ok(d) => currentStudy == Some(d) && error == None
        case Err(m) => currentStudy == old(currentStudy) && error == Some(ErrorText(m))
      ensures made.None? ==> history == old(history) && currentStudy == old(currentStudy) && error == old(error)
      ensures made.None? ==> isLoading == old(isLoading) && cycleIndex == old(cycleIndex) && loadingMsg == old(loadingMsg)
    {
      if hasCheckedUrl {
        return None;
      }
      hasCheckedUrl := true;
      made := UrlRequest(ref, trans, depth, decode);
      if made.Some? {
        HandleCreateStudy(made.value, now, apiKey, service, generatedAt);
      }
    }
  }

  /** The URL check runs once: on a fresh shell the first run makes the
      request the parameters give, and a second run requests nothing and
      leaves the state (`afterFirst`, `afterSecond`) as the first left it. */
  method UrlCheckRunsOnce(ref: Option<string>, trans: Option<string>, depth: Option<string>,
                          decode: string -> Option<string>, now: int, apiKey: Option<string>,
                          service: (Call, nat) -> AttemptOutcome, generatedAt: string)
    returns (first: Option<StudyRequest>, second: Option<StudyRequest>, afterFirst: AppSnapshot, afterSecond: AppSnapshot)
    ensures first == UrlRequest(ref, trans, depth, decode) && second == None
    ensures afterSecond == afterFirst && afterFirst.hasCheckedUrl
  {
    var app := new App();
    first := app.CheckUrlParams(ref, trans, depth, decode, now, apiKey, service, generatedAt);
    afterFirst := app.Snapshot();
    second := app.CheckUrlParams(ref, trans, depth, decode, now, apiKey, service, generatedAt);
    afterSecond := app.Snapshot();
  }
}
