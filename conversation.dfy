/**
 * The chat history of a session and the two text blocks built from its
 * tail with `+=` loops: the previous-conversation block of the tutor prompt
 * (the last six messages in full) and the recent-conversation block of the
 * follow-up suggestion prompt (the last four messages, each cut to 100
 * characters).
 */
module Conversation {
  import opened Util
  import opened PyText

  datatype Role = User | Assistant

  /** One history entry, the record `{"role": ..., "content": ...}`. */
  datatype ChatMessage = ChatMessage(role: Role, content: string)

  const ConversationHeader := "PREVIOUS CONVERSATION:\n"
  const RecentHeader := "RECENT CONVERSATION:\n"
  const ConversationWindow := 6
  const RecentWindow := 4
  const ExcerptLength := 100
  const Ellipsis := "..."

  /** A message as the tutor prompt shows it: "User: ..." or "Assistant: ...", with the whole content. */
  function ChatLine(m: ChatMessage): (r: string)
    ensures |r| == (if m.role == User then |"User: "| else |"Assistant: "|) + |m.content| + 1
    ensures r[|r| - |m.content| - 1..] == m.content + "\n"
  {
    (if m.role == User then "User" else "Assistant") + ": " + m.content + "\n"
  }

  /** The label of a tutor-prompt line tells the role of its message. */
  lemma ChatLineLabel(m: ChatMessage)
    ensures StartsWith(ChatLine(m), "User: ") <==> m.role == User
    ensures StartsWith(ChatLine(m), "Assistant: ") <==> m.role == Assistant
  {
    var l := ChatLine(m);
    if m.role == User {
      assert l[..6] == "User: ";
      assert l[0] != 'A';
    } else {
      assert l[..11] == "Assistant: ";
      assert l[0] != 'U';
    }
  }

  /**
   * The previous-conversation block: nothing for an empty history, else the
   * header, one line per message of the last six, and a blank line.
   */
  function ConversationBlock(history: seq<ChatMessage>): (r: string)
    ensures r == [] <==> history == []
    ensures history != [] ==> StartsWith(r, ConversationHeader) && r[|r| - 1] == '\n'
  {
    if history == [] then []
    else ConversationHeader + ConcatMap(ChatLine, Last(history, ConversationWindow)) + "\n"
  }

  /** The `+=` loop of both blocks: appends the line of each message in turn. */
  method AppendLines(context: string, line: ChatMessage -> string, messages: seq<ChatMessage>) returns (r: string)
    ensures r == context + ConcatMap(line, messages)
  {
    r := context;
    for i := 0 to |messages|
      invariant r == context + ConcatMap(line, messages[..i])
    {
      ConcatMapSnoc(line, messages[..i], messages[i]);
      assert messages[..i + 1] == messages[..i] + [messages[i]];
      r := r + line(messages[i]);
    }
    assert messages[..|messages|] == messages;
  }

  /** The code of `chat` that builds the previous-conversation block. */
  method BuildConversation(history: seq<ChatMessage>) returns (context: string)
    ensures context == ConversationBlock(history)
  {
    if history == [] {
      return "";
    }
    context := AppendLines(ConversationHeader, ChatLine, Last(history, ConversationWindow));
    context := context + "\n";
  }

  /** Messages older than the last six never reach the tutor prompt. */
  lemma ConversationIgnoresOlder(older: seq<ChatMessage>, history: seq<ChatMessage>)
    requires |history| >= ConversationWindow
    ensures ConversationBlock(older + history) == ConversationBlock(history)
  {
    LastIgnoresOlder(older, history, ConversationWindow);
  }

  /** After an exchange, the block shows the four messages before it and then the exchange itself. */
  lemma ConversationAfterTurn(history: seq<ChatMessage>, question: ChatMessage, answer: ChatMessage)
    ensures ConversationBlock(history + [question, answer])
         == ConversationHeader + (ConcatMap(ChatLine, Last(history, 4)) + ChatLine(question) + ChatLine(answer)) + "\n"
  {
    ConcatMapLastAppendTwo(ChatLine, history, question, answer, 4);
  }

  /**
   * A message as the follow-up prompt shows it: a label, `content[:100]`
   * and "...", so no line is longer than the longest label allows.
   */
  function RecentLine(m: ChatMessage): (r: string)
    ensures StartsWith(r, "Student: ") <==> m.role == User
    ensures StartsWith(r, "Assistant: ") <==> m.role == Assistant
    ensures var excerpt := Take(m.content, ExcerptLength);
      && |r| == (if m.role == User then |"Student: "| else |"Assistant: "|) + |excerpt| + |Ellipsis| + 1
      && r[|r| - |excerpt| - |Ellipsis| - 1..] == excerpt + Ellipsis + "\n"
    ensures |r| <= |"Assistant: "| + ExcerptLength + |Ellipsis| + 1
  {
    var r := (if m.role == User then "Student" else "Assistant") + ": " + Take(m.content, ExcerptLength) + Ellipsis + "\n";
    assert m.role == User ==> r[..9] == "Student: " && r[0] != 'A';
    assert m.role != User ==> r[..11] == "Assistant: " && r[0] != 'S';
    r
  }

  /** Characters past the hundredth never reach the follow-up prompt. */
  lemma RecentLineIgnoresTail(m: ChatMessage, extra: string)
    requires |m.content| >= ExcerptLength
    ensures RecentLine(m.(content := m.content + extra)) == RecentLine(m)
  {
    assert (m.content + extra)[..ExcerptLength] == m.content[..ExcerptLength];
  }

  /** The recent-conversation block: nothing for an empty history, else the header and the last four messages. */
  function RecentContext(history: seq<ChatMessage>): (r: string)
    ensures r == [] <==> history == []
    ensures history != [] ==> StartsWith(r, RecentHeader)
  {
    if history == [] then []
    else RecentHeader + ConcatMap(RecentLine, Last(history, RecentWindow))
  }

  /** The code of `generate_contextual_suggestions` that builds the recent-conversation block. */
  method BuildRecentContext(history: seq<ChatMessage>) returns (context: string)
    ensures context == RecentContext(history)
  {
    if history == [] {
      return "";
    }
    context := AppendLines(RecentHeader, RecentLine, Last(history, RecentWindow));
  }

  /** Messages older than the last four never reach the follow-up prompt. */
  lemma RecentIgnoresOlder(older: seq<ChatMessage>, history: seq<ChatMessage>)
    requires |history| >= RecentWindow
    ensures RecentContext(older + history) == RecentContext(history)
  {
    LastIgnoresOlder(older, history, RecentWindow);
  }

  /** After an exchange, the block shows the two messages before it and then the exchange itself. */
  lemma RecentAfterTurn(history: seq<ChatMessage>, question: ChatMessage, answer: ChatMessage)
    ensures RecentContext(history + [question, answer])
         == RecentHeader + (ConcatMap(RecentLine, Last(history, 2)) + RecentLine(question) + RecentLine(answer))
  {
    ConcatMapLastAppendTwo(RecentLine, history, question, answer, 2);
  }
}
