/**
 * The in-memory session store of the API and its endpoints. The module-level
 * `sessions` dict becomes the field of a `SessionStore`; each endpoint is a
 * method that answers with a value or an HTTP error and updates the store.
 */
module Sessions {
  import opened Util
  import opened PyText
  import opened JsonValue
  import opened GeminiApi
  import opened YouTubeService
  import opened Conversation
  import opened Suggestions

  const TutorialLength := 3000
  const TranscriptPreviewLength := 200
  const ScreenshotThreshold := 100
  const ConceptSeparator := ", "
  const ClearedMessage := "Session cleared"

  /** A learning session, keyed in the store by its video id. */
  datatype Session = Session(
    url: string,
    transcript: string,
    subject: Json,
    chatHistory: seq<ChatMessage>,
    suggestedQuestions: seq<Json>,
    segments: seq<Segment>)

  /** How an endpoint fails: an `HTTPException` it raises, or an uncaught exception (status 500). */
  datatype Failure = HttpError(status: int, detail: string) | ServerError

  const NotFound := HttpError(404, "Session not found")

  datatype Result<T> = Ok(value: T) | Err(failure: Failure)

  /**
   * The answer of `analyze_content`. The "Ready to chat about ..." message
   * is represented by the topic it names.
   */
  datatype Analysis = Analysis(sessionId: string, subject: Json, suggestedQuestions: seq<Json>,
                               readyTopic: Json, transcriptPreview: string)

  datatype ChatReply = ChatReply(response: string, chatHistory: seq<ChatMessage>, messageCount: nat)

  datatype SessionInfo = SessionInfo(sessionId: string, subject: Json, messageCount: nat,
                                     suggestedQuestions: seq<Json>, url: string)

  datatype HistoryInfo = HistoryInfo(sessionId: string, chatHistory: seq<ChatMessage>, subject: Json)

  /** A history made of whole exchanges: a user message, then the assistant's reply. */
  predicate Alternating(history: seq<ChatMessage>) {
    && |history| % 2 == 0
    && forall k :: 0 <= k < |history| ==> history[k].role == (if k % 2 == 0 then User else Assistant)
  }

  /** What every stored session satisfies: its subject has the fields both prompts read, and its history alternates. */
  predicate WellFormed(s: Session) {
    && Get(s.subject, "subject").Some?
    && Get(s.subject, "topic").Some?
    && Get(s.subject, "level").Some?
    && Alternating(s.chatHistory)
  }

  predicate AllWellFormed(sessions: map<string, Session>) {
    forall id :: id in sessions ==> WellFormed(sessions[id])
  }

  /** Storing a well-formed session keeps every stored session well-formed. */
  lemma StoreWellFormed(sessions: map<string, Session>, id: string, s: Session)
    requires AllWellFormed(sessions) && WellFormed(s)
    ensures AllWellFormed(sessions[id := s])
  {
  }

  /**
   * The history after a chat turn: the old entries unchanged, then the
   * user's message, then the reply; a history of whole exchanges stays one.
   */
  function AfterTurn(history: seq<ChatMessage>, message: string, reply: string): (h: seq<ChatMessage>)
    ensures |h| == |history| + 2
    ensures h[..|history|] == history
    ensures h[|history|] == ChatMessage(User, message) && h[|history| + 1] == ChatMessage(Assistant, reply)
    ensures Alternating(history) ==> Alternating(h)
  {
    history + [ChatMessage(User, message)] + [ChatMessage(Assistant, reply)]
  }

  /**
   * The tutor prompt of `chat`: it reads the subject, topic, level and
   * concepts fields and joins the concepts with ", " (any of these raising
   * gives None), and embeds the first 3000 characters of the transcript.
   */
  function TutorPromptFor(subject: Json, transcript: string, conversation: string, message: string): (r: Option<Prompt>)
    ensures r.Some? <==>
      && Get(subject, "subject").Some? && Get(subject, "topic").Some? && Get(subject, "level").Some?
      && Get(subject, "concepts").Some? && JoinOperands(Get(subject, "concepts").value).Some?
    ensures r.Some? ==>
      && r.value.TutorPrompt?
      && r.value.subject == Get(subject, "subject").value
      && r.value.topic == Get(subject, "topic").value
      && r.value.level == Get(subject, "level").value
      && r.value.concepts == Join(JoinOperands(Get(subject, "concepts").value).value, ConceptSeparator)
      && |r.value.tutorial| == Min(TutorialLength, |transcript|)
      && r.value.tutorial == transcript[..|r.value.tutorial|]
      && r.value.conversation == conversation
      && r.value.message == message
  {
    match (Get(subject, "subject"), Get(subject, "topic"), Get(subject, "level"), Get(subject, "concepts"))
    case (Some(s), Some(t), Some(l), Some(c)) =>
      (match JoinOperands(c)
       case Some(names) =>
         Some(TutorPrompt(s, t, l, Join(names, ConceptSeparator), Take(transcript, TutorialLength), conversation, message))
       case None => None)
    case _ => None
  }

  /** A session whose subject could not be detected can still chat: its concept list joins to "". */
  lemma UnknownSubjectChats(reason: string, transcript: string, conversation: string, message: string)
    ensures TutorPromptFor(UnknownSubject(reason), transcript, conversation, message).Some?
    ensures TutorPromptFor(UnknownSubject(reason), transcript, conversation, message).value.concepts == ""
  {
    assert JoinOperands(JArray([])) == Some([]);
  }

  /** The image path is taken exactly for a screenshot that is non-empty and longer than 100 characters. */
  predicate UsesImage(screenshot: Option<string>) {
    screenshot.Some? && screenshot.value != "" && |screenshot.value| > ScreenshotThreshold
  }

  /** The reply `chat` records: from an image request carrying the stripped screenshot, or from a text request. */
  function ChatResponse(provider: Provider, prompt: Prompt, screenshot: Option<string>): (r: string)
    ensures UsesImage(screenshot) ==> r == ReplyText(provider(ImageRequest(prompt, StripDataUrl(screenshot.value))))
    ensures !UsesImage(screenshot) ==> r == ReplyText(provider(TextRequest(prompt)))
  {
    if UsesImage(screenshot) then GenerateWithImage(provider, prompt, screenshot.value)
    else GenerateText(provider, prompt)
  }

  class SessionStore {
    var sessions: map<string, Session>

    ghost predicate Valid()
      reads this
    {
      AllWellFormed(sessions)
    }

    constructor()
      ensures sessions == map[] && Valid()
    {
      sessions := map[];
    }

    /**
     * `analyze_content`: a transcript failure answers 400 with its error and
     * leaves the store alone; otherwise the subject is detected, the initial
     * suggestions generated, and the session for the video id (re)created
     * with an empty history.
     */
    method AnalyzeContent(url: string, fetch: Fetcher, provider: Provider, parse: Parser) returns (r: Result<Analysis>)
      requires Valid()
      modifies this
      ensures Valid()
      ensures var t := GetTranscript(url, fetch);
        && (!t.Transcript? ==> r == Err(HttpError(400, t.ErrorText())) && sessions == old(sessions))
        && (t.Transcript? ==>
              var subject := DetectSubject(t.fullText, provider, parse);
              var suggestions := InitialSuggestions(t.fullText, subject, provider, parse);
              && (suggestions.None? ==> r == Err(ServerError) && sessions == old(sessions))
              && (suggestions.Some? ==>
                    && r == Ok(Analysis(t.videoId, subject, suggestions.value, Get(subject, "topic").value,
                                        Take(t.fullText, TranscriptPreviewLength) + "..."))
                    && sessions == old(sessions)[t.videoId := Session(url, t.fullText, subject, [],
                                                                      suggestions.value, t.segments)]))
    {
      var t := GetTranscript(url, fetch);
      if !t.Transcript? {
        return Err(HttpError(400, t.ErrorText()));
      }
      var subject := DetectSubject(t.fullText, provider, parse);
      var suggestions := InitialSuggestions(t.fullText, subject, provider, parse);
      if suggestions.None? {
        return Err(ServerError);
      }
      var session := Session(url, t.fullText, subject, [], suggestions.value, t.segments);
      StoreWellFormed(sessions, t.videoId, session);
      sessions := sessions[t.videoId := session];
      r := Ok(Analysis(t.videoId, subject, suggestions.value, Get(subject, "topic").value,
                       Take(t.fullText, TranscriptPreviewLength) + "..."));
    }

    /**
     * `chat`: an unknown session answers 404 and changes nothing; a prompt
     * that cannot be built fails before the service is called; otherwise the
     * exchange is appended to the history and the reply returned with the
     * new history and its length.
     */
    method Chat(sessionId: string, message: string, screenshot: Option<string>, provider: Provider)
      returns (r: Result<ChatReply>)
      requires Valid()
      modifies this
      ensures Valid()
      ensures sessionId !in old(sessions) ==> r == Err(NotFound) && sessions == old(sessions)
      ensures sessionId in old(sessions) ==>
        var s := old(sessions)[sessionId];
        var prompt := TutorPromptFor(s.subject, s.transcript, ConversationBlock(s.chatHistory), message);
        && (prompt.None? ==> r == Err(ServerError) && sessions == old(sessions))
        && (prompt.Some? ==>
              var reply := ChatResponse(provider, prompt.value, screenshot);
              var history := AfterTurn(s.chatHistory, message, reply);
              && r == Ok(ChatReply(reply, history, |history|))
              && sessions == old(sessions)[sessionId := s.(chatHistory := history)])
    {
      if sessionId !in sessions {
        return Err(NotFound);
      }
      var s := sessions[sessionId];
      var conversation := BuildConversation(s.chatHistory);
      var prompt := TutorPromptFor(s.subject, s.transcript, conversation, message);
      if prompt.None? {
        return Err(ServerError);
      }
      var reply: string;
      if UsesImage(screenshot) {
        reply := GenerateWithImage(provider, prompt.value, screenshot.value);
      } else {
        reply := GenerateText(provider, prompt.value);
      }
      var history := s.chatHistory + [ChatMessage(User, message)];
      history := history + [ChatMessage(Assistant, reply)];
      assert history == AfterTurn(s.chatHistory, message, reply);
      StoreWellFormed(sessions, sessionId, s.(chatHistory := history));
      sessions := sessions[sessionId := s.(chatHistory := history)];
      r := Ok(ChatReply(reply, history, |history|));
    }

    /**
     * `get_suggestions`: an unknown session answers 404; otherwise only the
     * session's suggested questions are replaced. The only possible failure
     * is a subject value Python cannot use as a dict key.
     */
    method GetSuggestions(sessionId: string, provider: Provider, parse: Parser) returns (r: Result<seq<Json>>)
      requires Valid()
      modifies this
      ensures Valid()
      ensures sessionId !in old(sessions) ==> r == Err(NotFound) && sessions == old(sessions)
      ensures sessionId in old(sessions) ==>
        var s := old(sessions)[sessionId];
        var suggestions := FollowUpSuggestions(s.subject, RecentContext(s.chatHistory), provider, parse);
        && (suggestions.None? ==>
              && r == Err(ServerError) && sessions == old(sessions)
              && !Hashable(Get(s.subject, "subject").value))
        && (suggestions.Some? ==>
              && r == Ok(suggestions.value)
              && sessions == old(sessions)[sessionId := s.(suggestedQuestions := suggestions.value)])
    {
      if sessionId !in sessions {
        return Err(NotFound);
      }
      var s := sessions[sessionId];
      var recent := BuildRecentContext(s.chatHistory);
      var suggestions := FollowUpSuggestions(s.subject, recent, provider, parse);
      if suggestions.None? {
        return Err(ServerError);
      }
      StoreWellFormed(sessions, sessionId, s.(suggestedQuestions := suggestions.value));
      sessions := sessions[sessionId := s.(suggestedQuestions := suggestions.value)];
      r := Ok(suggestions.value);
    }

    /** `get_session`: the session's summary, or 404. */
    method GetSession(sessionId: string) returns (r: Result<SessionInfo>)
      ensures sessionId !in sessions ==> r == Err(NotFound)
      ensures sessionId in sessions ==>
        var s := sessions[sessionId];
        r == Ok(SessionInfo(sessionId, s.subject, |s.chatHistory|, s.suggestedQuestions, s.url))
    {
      if sessionId !in sessions {
        return Err(NotFound);
      }
      var s := sessions[sessionId];
      r := Ok(SessionInfo(sessionId, s.subject, |s.chatHistory|, s.suggestedQuestions, s.url));
    }

    /** `get_chat_history`: the session's whole history and subject, or 404. */
    method GetChatHistory(sessionId: string) returns (r: Result<HistoryInfo>)
      ensures sessionId !in sessions ==> r == Err(NotFound)
      ensures sessionId in sessions ==>
        r == Ok(HistoryInfo(sessionId, sessions[sessionId].chatHistory, sessions[sessionId].subject))
    {
      if sessionId !in sessions {
        return Err(NotFound);
      }
      r := Ok(HistoryInfo(sessionId, sessions[sessionId].chatHistory, sessions[sessionId].subject));
    }

    /** `clear_session`: removes exactly that session, or answers 404 and changes nothing. */
    method ClearSession(sessionId: string) returns (r: Result<string>)
      requires Valid()
      modifies this
      ensures Valid()
      ensures sessionId in old(sessions) ==> r == Ok(ClearedMessage) && sessions == old(sessions) - {sessionId}
      ensures sessionId !in old(sessions) ==> r == Err(NotFound) && sessions == old(sessions)
    {
      if sessionId in sessions {
        sessions := sessions - {sessionId};
        return Ok(ClearedMessage);
      }
      r := Err(NotFound);
    }
  }

  /** After a session is cleared, asking for it answers 404, whether or not it existed. */
  method ClearThenGet(store: SessionStore, sessionId: string) returns (cleared: Result<string>, after: Result<SessionInfo>)
    requires store.Valid()
    modifies store
    ensures store.Valid()
    ensures cleared.Ok? <==> sessionId in old(store.sessions)
    ensures after == Err(NotFound)
  {
    cleared := store.ClearSession(sessionId);
    after := store.GetSession(sessionId);
  }
}
