/**
 * The two suggestion generators of the backend: the initial questions
 * produced when content is analysed and the follow-up questions produced
 * from the recent conversation, with their fixed fallback lists.
 */
module Suggestions {
  import opened Util
  import opened PyText
  import opened JsonValue
  import opened ResponseExtractor
  import opened GeminiApi

  const PreviewLength := 1500

  /** What the initial generator returns when its reply cannot be parsed. */
  const GenericFallback: seq<string> := [
    "Can you explain the main concept?",
    "How does this work in practice?",
    "What are the key points I should remember?",
    "Can you give me another example?",
    "What's the most important thing to understand?"
  ]

  const CodingFallback: seq<string> := [
    "How can I use this in my own project?",
    "What are common mistakes to avoid?",
    "Are there alternative approaches?",
    "Can you show me a more complex example?",
    "How does this relate to other concepts?"
  ]

  const HistoryFallback: seq<string> := [
    "What happened next?",
    "How did this impact modern times?",
    "What were the long-term effects?",
    "Who opposed this and why?",
    "Are there any interesting details I should know?"
  ]

  const LanguageFallback: seq<string> := [
    "Can you give me more practice examples?",
    "What are common mistakes learners make?",
    "How is this used in everyday conversation?",
    "Are there any exceptions to this rule?",
    "Can you explain the cultural context?"
  ]

  const ScienceFallback: seq<string> := [
    "What are the practical applications?",
    "How does this connect to what I already know?",
    "What are some common misconceptions?",
    "Can you explain this with an analogy?",
    "What would happen if...?"
  ]

  /** The per-subject fallback lists of the follow-up generator. */
  const FallbackTable: map<string, seq<string>> := map[
    "coding" := CodingFallback,
    "history" := HistoryFallback,
    "language" := LanguageFallback,
    "science" := ScienceFallback
  ]

  /** No question appears twice in the list. */
  predicate Distinct(questions: seq<string>) {
    forall i, j :: 0 <= i < j < |questions| ==> questions[i] != questions[j]
  }

  /** Every fallback list holds five distinct questions, and the table covers exactly four subjects. */
  lemma FallbackShapes()
    ensures Distinct(GenericFallback) && Distinct(CodingFallback) && Distinct(HistoryFallback)
    ensures Distinct(LanguageFallback) && Distinct(ScienceFallback)
    ensures |GenericFallback| == 5 && |CodingFallback| == 5 && |HistoryFallback| == 5
    ensures |LanguageFallback| == 5 && |ScienceFallback| == 5
    ensures forall key :: key in FallbackTable ==> |FallbackTable[key]| == 5
    ensures FallbackTable.Keys == {"coding", "history", "language", "science"}
    ensures forall key :: key in FallbackTable ==> FallbackTable[key] != GenericFallback
  {
  }

  /**
   * The prompt of `generate_question_suggestions`: it reads the subject,
   * topic and level fields (a missing one, or a subject that is not a dict,
   * raises) and embeds the first 1500 characters of the transcript.
   */
  function InitialPromptFor(transcript: string, subject: Json): (r: Option<Prompt>)
    ensures r.Some? <==> Get(subject, "subject").Some? && Get(subject, "topic").Some? && Get(subject, "level").Some?
    ensures r.Some? ==>
      && r.value.InitialQuestionsPrompt?
      && r.value.subject == Get(subject, "subject").value
      && r.value.topic == Get(subject, "topic").value
      && r.value.level == Get(subject, "level").value
      && |r.value.preview| == Min(PreviewLength, |transcript|)
      && r.value.preview == transcript[..|r.value.preview|]
  {
    match (Get(subject, "subject"), Get(subject, "topic"), Get(subject, "level"))
    case (Some(s), Some(t), Some(l)) => Some(InitialQuestionsPrompt(s, t, l, Take(transcript, PreviewLength)))
    case _ => None
  }

  /**
   * The list a generator keeps from a parse: a parsed list as it is (of any
   * length, items unchecked), `[]` for any other parsed value, the fallback
   * when parsing raised.
   */
  function KeepList(outcome: Parsed, fallback: seq<Json>): (r: seq<Json>)
    ensures outcome.Parsed? && IsList(outcome.value) ==> r == outcome.value.items
    ensures outcome.Parsed? && !IsList(outcome.value) ==> r == []
    ensures outcome.ParseError? ==> r == fallback
  {
    match outcome
    case Parsed(value) => if value.JArray? then value.items else []
    case ParseError(_) => fallback
  }

  /**
   * `generate_question_suggestions`: None where building the prompt raises
   * (the endpoint then fails with a server error).
   */
  function InitialSuggestions(transcript: string, subject: Json, provider: Provider, parse: Parser): (r: Option<seq<Json>>)
    ensures r.Some? <==> InitialPromptFor(transcript, subject).Some?
    ensures r.Some? ==>
      var outcome := Extract(GenerateText(provider, InitialPromptFor(transcript, subject).value), parse);
      && (outcome.Parsed? && IsList(outcome.value) ==> r.value == outcome.value.items)
      && (outcome.Parsed? && !IsList(outcome.value) ==> r.value == [])
      && (outcome.ParseError? ==> r.value == Strings(GenericFallback) && |r.value| == 5)
  {
    match InitialPromptFor(transcript, subject)
    case None => None
    case Some(prompt) =>
      FallbackShapes();
      Some(KeepList(Extract(GenerateText(provider, prompt), parse), Strings(GenericFallback)))
  }

  /**
   * `fallbacks.get(subject, fallbacks['coding'])`: the subject's own list
   * for the four known subjects, the coding list for any other hashable
   * value, and None where Python cannot hash the key (a list or a dict).
   */
  function ContextualFallback(subject: Json): (r: Option<seq<Json>>)
    ensures r.None? <==> !Hashable(subject)
    ensures r.Some? ==> |r.value| == 5
    ensures subject.JString? && subject.str in FallbackTable ==> r == Some(Strings(FallbackTable[subject.str]))
    ensures Hashable(subject) && !(subject.JString? && subject.str in FallbackTable) ==> r == Some(Strings(CodingFallback))
  {
    FallbackShapes();
    if !Hashable(subject) then None
    else if subject.JString? && subject.str in FallbackTable then Some(Strings(FallbackTable[subject.str]))
    else Some(Strings(CodingFallback))
  }

  /** A subject the detector could not classify gets the coding questions. */
  lemma UnknownSubjectGetsCoding(reason: string)
    ensures Get(UnknownSubject(reason), "subject").Some?
    ensures ContextualFallback(Get(UnknownSubject(reason), "subject").value) == Some(Strings(CodingFallback))
  {
    assert "unknown" !in FallbackTable;
  }

  /** The prompt of `generate_contextual_suggestions`: it reads the subject and topic fields. */
  function FollowUpPromptFor(subject: Json, recent: string): (r: Option<Prompt>)
    ensures r.Some? <==> Get(subject, "subject").Some? && Get(subject, "topic").Some?
    ensures r.Some? ==>
      && r.value.FollowUpPrompt? && r.value.recent == recent
      && r.value.subject == Get(subject, "subject").value
      && r.value.topic == Get(subject, "topic").value
  {
    match (Get(subject, "subject"), Get(subject, "topic"))
    case (Some(s), Some(t)) => Some(FollowUpPrompt(s, t, recent))
    case _ => None
  }

  /**
   * `generate_contextual_suggestions`, given the recent-conversation block:
   * None where building the prompt raises or where the fallback lookup
   * raises because the subject cannot be hashed.
   */
  function FollowUpSuggestions(subject: Json, recent: string, provider: Provider, parse: Parser): (r: Option<seq<Json>>)
    ensures FollowUpPromptFor(subject, recent).None? ==> r.None?
    ensures FollowUpPromptFor(subject, recent).Some? ==>
      var outcome := Extract(GenerateText(provider, FollowUpPromptFor(subject, recent).value), parse);
      && (outcome.Parsed? && IsList(outcome.value) ==> r == Some(outcome.value.items))
      && (outcome.Parsed? && !IsList(outcome.value) ==> r == Some([]))
      && (outcome.ParseError? ==> r == ContextualFallback(Get(subject, "subject").value))
  {
    match FollowUpPromptFor(subject, recent)
    case None => None
    case Some(prompt) =>
      match Extract(GenerateText(provider, prompt), parse)
      case Parsed(value) => Some(KeepList(Parsed(value), []))
      case ParseError(_) => ContextualFallback(prompt.subject)
  }

  /** A reply wrapped in a (possibly `json`-tagged) fence yields the suggestions the bare reply would. */
  lemma InitialSuggestionsFenced(transcript: string, subject: Json, provider: Provider, parse: Parser,
                                 s: string, tagged: bool)
    requires InitialPromptFor(transcript, subject).Some?
    requires !Contains(s, Fence)
    requires provider(TextRequest(InitialPromptFor(transcript, subject).value))
          == Generated(Fence + FenceOpening(tagged) + s + "\n" + Fence)
    ensures InitialSuggestions(transcript, subject, provider, parse)
         == Some(KeepList(parse(Strip(s)), Strings(GenericFallback)))
  {
    ExtractFenced(s, tagged, parse);
    CleanUnfenced(s);
  }
}
