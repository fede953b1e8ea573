/** The request form: passage validation, the submit decision, the reaction
    to typing and to a click on a history entry, and the history filter. */
module InputForm {
  import opened Wrappers
  import opened Text
  import opened Seqs
  import opened StudyTypes
  import opened PassageFormat

  const FormatErrorMessage: string :=
    "Formato inválido. Use: Livro Capítulo:Versículo (ex: Mateus 3:11, 1 Jo 1:9)"
  const EmptyPassageMessage: string := "Por favor, insira uma passagem bíblica."

  // ---------------------------------------------------------------------
  // History filter

  /** An entry is shown when its passage or its translation, lower-cased,
      contains the lower-cased filter text. */
  predicate Shown(item: HistoryItem, filter: string)
    ensures filter == "" ==> Shown(item, filter)
    ensures Shown(item, filter) ==> |filter| <= |item.passage| || |filter| <= |item.translation|
  {
    ContainsEmpty(Lower(item.passage));
    Contains(Lower(item.passage), Lower(filter)) || Contains(Lower(item.translation), Lower(filter))
  }

  /** `filteredHistory`. */
  function FilterHistory(history: seq<HistoryItem>, filter: string): (r: seq<HistoryItem>)
    ensures forall x :: x in r <==> x in history && Shown(x, filter)
    ensures Subsequence(r, history)
    ensures forall x :: multiset(r)[x] == if Shown(x, filter) then multiset(history)[x] else 0
  {
    if history == [] then []
    else
      assert history == [history[0]] + history[1..];
      if Shown(history[0], filter) then [history[0]] + FilterHistory(history[1..], filter)
    else FilterHistory(history[1..], filter)
  }

  /** An empty filter shows the whole history, in order. */
  lemma {:induction false} EmptyFilterShowsAll(history: seq<HistoryItem>)
    ensures FilterHistory(history, "") == history
  {
    if history != [] {
      ContainsEmpty(Lower(history[0].passage));
      EmptyFilterShowsAll(history[1..]);
      assert history == [history[0]] + history[1..];
    }
  }

  lemma LowerCharIdempotent(c: char)
    ensures LowerChar(LowerChar(c)) == LowerChar(c)
  {
  }

  lemma LowerIdempotent(s: string)
    ensures Lower(Lower(s)) == Lower(s)
  {
    forall i | 0 <= i < |s|
      ensures Lower(Lower(s))[i] == Lower(s)[i]
    {
      LowerCharIdempotent(s[i]);
    }
  }

  /** The filter ignores the case of what is typed: typing it in lower case
      shows the same entries. */
  lemma {:induction false} FilterIgnoresCase(history: seq<HistoryItem>, filter: string)
    ensures FilterHistory(history, Lower(filter)) == FilterHistory(history, filter)
  {
    LowerIdempotent(filter);
    if history != [] {
      FilterIgnoresCase(history[1..], filter);
    }
  }

  // ---------------------------------------------------------------------
  // The form state

  class Form {
    var passage: string
    var translation: string
    var depth: string
    var validationError: Option<string>
    var historyFilter: string

    constructor()
      ensures passage == "" && translation == "NVI" && depth == "detalhado"
      ensures validationError == None && historyFilter == ""
    {
      passage := "";
      translation := "NVI";
      depth := "detalhado";
      validationError := None;
      historyFilter := "";
    }

    /** `validatePassage`: a blank input is refused without a message; an
        input of the wrong shape is refused with the format message; a
        well-formed one is accepted and clears the message. */
    method ValidatePassage(input: string) returns (ok: bool)
      modifies this
      ensures ok <==> IsPassageFormat(input)
      ensures AllSpaces(input) ==> !ok && validationError == old(validationError)
      ensures !AllSpaces(input) ==> validationError == (if ok then None else Some(FormatErrorMessage))
      ensures passage == old(passage) && translation == old(translation) && depth == old(depth)
      ensures historyFilter == old(historyFilter)
    {
      TrimEmptyIffBlank(input);
      if Trim(input) == "" {
        if Matches(input) {
          MatchIsNotBlank(input);
        }
        return false;
      }
      if !IsPassageFormat(input) {
        validationError := Some(FormatErrorMessage);
        return false;
      }
      validationError := None;
      return true;
    }

    /** `handleSubmit`: the message clears, a blank passage gets the empty
        message, a malformed one the format message; a well-formed one is
        submitted as it was typed, with the chosen translation and depth and
        no mode. */
    method HandleSubmit() returns (submitted: Option<StudyRequest>)
      modifies this
      ensures submitted.Some? <==> IsPassageFormat(passage)
      ensures submitted.Some? ==> submitted.value == StudyRequest(passage, translation, depth, None)
      ensures AllSpaces(passage) ==> validationError == Some(EmptyPassageMessage)
      ensures !AllSpaces(passage) ==> validationError == (if submitted.Some? then None else Some(FormatErrorMessage))
      ensures passage == old(passage) && translation == old(translation) && depth == old(depth)
      ensures historyFilter == old(historyFilter)
    {
      validationError := None;
      TrimEmptyIffBlank(passage);
      if Trim(passage) == "" {
        validationError := Some(EmptyPassageMessage);
        if Matches(passage) {
          MatchIsNotBlank(passage);
        }
        return None;
      }
      var ok := ValidatePassage(passage);
      if !ok {
        return None;
      }
      return Some(StudyRequest(passage, translation, depth, None));
    }

    /** `handleInputChange`: the text is taken and any message cleared. */
    method HandleInputChange(value: string)
      modifies this
      ensures passage == value && validationError == None
      ensures translation == old(translation) && depth == old(depth) && historyFilter == old(historyFilter)
    {
      passage := value;
      if validationError.Some? {
        validationError := None;
      }
    }

    /** `handleHistoryClick`: the entry's passage, translation and depth fill
        the form, the message clears, and the entry is passed on to be
        generated again. */
    method HandleHistoryClick(item: HistoryItem) returns (selected: HistoryItem)
      modifies this
      ensures passage == item.passage && translation == item.translation && depth == item.depth
      ensures validationError == None && historyFilter == old(historyFilter)
      ensures selected == item
    {
      passage := item.passage;
      translation := item.translation;
      depth := item.depth;
      validationError := None;
      selected := item;
    }

    /** The entries listed under the current filter. */
    function FilteredHistory(history: seq<HistoryItem>): (r: seq<HistoryItem>)
      reads this
      ensures r == FilterHistory(history, historyFilter)
      ensures historyFilter == "" ==> r == history
    {
      EmptyFilterShowsAll(history);
      FilterHistory(history, historyFilter)
    }
  }
}
