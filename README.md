# SHOWDESK backend — a Dafny model

SHOWDESK is a tutoring backend. A user submits a YouTube URL. The backend
fetches the video's transcript and asks a text-generation service which
subject the video teaches. It then keeps an in-memory learning session per
video, in which the user chats with the service about the video and gets
suggested questions. This project models the backend's core:

- the session store and its six handlers (`analyze_content`, `chat`,
  `get_suggestions`, `get_session`, `get_chat_history`, `clear_session`),
  as the class `Sessions.SessionStore`, whose field is the `sessions` dict;
- the context windows and truncations that build the prompts, with the two
  `+=` loops written as methods proved against specification functions
  (`Conversation`);
- the clean-up of a service reply before JSON parsing (strip, keep the
  text between the first two code fences, drop a leading `json` tag, strip
  again) and the fallbacks used when parsing fails (`ResponseExtractor`,
  `Suggestions`, `GeminiApi.DetectSubject`);
- the `"Error: "` convention of the two generators and the data-URL prefix
  removed from a screenshot (`GeminiApi`);
- video-id extraction from the three URL forms and the assembly of the
  transcript text (`YouTubeService`).

Python's string operations (`strip`, slices, `startswith`, `in`,
`split(sep)[1]`, `join`) are written out once in `PyText`. JSON values
are in `JsonValue`, and the shared `Option` and `Min` in `Util`. Three outside services are parameters of the model,
each an uninterpreted function:
- the generation service is `Provider`, from request to reply;
- the transcript download is `Fetcher`, from video id to segments or an
  error message;
- `json.loads` is `Parser`, from text to a value or the message of the
  exception it raised.

An exception that escapes a handler is modelled as an explicit
`ServerError` result, which the web framework turns into HTTP 500. Such
exceptions come from reading a subject field that is missing or reading
any field of a detected subject that is not a dict, from joining
concepts that are not strings, and from a fallback lookup keyed by a list
or a dict. In every such case the store is unchanged.

The model keeps two behaviours of the code that a reader might not expect:
- `detect_subject` returns whatever the parser produced, without checking
  its shape.
- A parsed reply that is not a list yields `[]`, not the fallback list.
  A parsed list is kept whatever its length.

`generate_contextual_suggestions` takes a `transcript` argument that it
never reads, so `Suggestions.FollowUpSuggestions` has no such parameter.

## Model

| member | source | states |
|---|---|---|
| PyText.LeadingSpace | backend/gemini_api.py:110 | counts the whitespace that `strip` removes at the front: all of it is space and the next character is not |
| PyText.TrailingSpace | backend/gemini_api.py:110 | the same for the whitespace `strip` removes at the end |
| PyText.Strip | backend/gemini_api.py:110 | `str.strip()`: the result is the infix of the input that starts at its first non-space, has only whitespace around it, has no space at either end, and is empty exactly when the input is all whitespace |
| PyText.StripUnique | backend/gemini_api.py:110 | any infix with only whitespace around it and none at its ends is what `strip` returns |
| PyText.StripPadded | backend/gemini_api.py:110 | whitespace added on either side does not change what `strip` returns |
| PyText.StripIdempotent | backend/gemini_api.py:115 | stripping a stripped text changes nothing |
| PyText.Take | backend/main.py:149 | `s[:n]` has length min(n, len(s)) and is a prefix of `s` |
| PyText.Last | backend/main.py:134 | `s[-n:]` has length min(n, len(s)) and is a suffix of `s` |
| PyText.LastIgnoresOlder | backend/main.py:134 | elements before the last n never reach `s[-n:]` |
| PyText.LastAppend | backend/main.py:175-182 | after appending, the last n+k window is the old last-n window followed by the k new elements |
| PyText.OccursInInfix | backend/gemini_api.py:112 | an occurrence inside an infix is an occurrence in the whole text that ends inside the infix, and back |
| PyText.StripKeepsOut | backend/gemini_api.py:115 | stripping cannot create an occurrence of a pattern |
| PyText.ContainsPadded | backend/gemini_api.py:111-112 | padding that holds neither the pattern's first character (before) nor its last (after) adds no occurrence |
| PyText.FindFrom | backend/gemini_api.py:55-56 | returns the first occurrence at or after a position, and None only when there is none |
| PyText.SplitSecond | backend/gemini_api.py:56 | `s.split(sep)[1]` is the text after the first `sep`, up to the next `sep` or the end, with no `sep` starting inside it |
| PyText.SplitSecondFree | backend/gemini_api.py:112 | `split(sep)[1]` never contains `sep` |
| PyText.SplitSecondTail | backend/gemini_api.py:56 | when no `sep` follows the first one, `split(sep)[1]` is the whole rest of the text |
| PyText.Join | backend/youtube_service.py:30 | `sep.join(parts)` is empty for no parts; otherwise it opens with the first part and its length is the parts' total length plus one separator between each pair of neighbours |
| PyText.JoinSnoc | backend/youtube_service.py:30 | joining one more part appends exactly the separator and that part |
| PyText.ConcatMapSnoc | backend/main.py:134-136 | one more loop round appends exactly the new element's line |
| PyText.ConcatMapAppend | backend/main.py:134-136 | the lines of two lists, concatenated, are the lines of the concatenated list |
| PyText.ConcatMapLastAppendTwo | backend/main.py:175-182 | after two appends, the lines of the last n+2 elements are those of the last n before, then the two new lines |
| JsonValue.Lookup | backend/main.py:143-146 | a dict lookup finds a value exactly when the key is among the members, and the value is stored under that key |
| JsonValue.Get | backend/main.py:143-146 | `value[key]` yields a value exactly when the value is a dict holding the key, and then the value stored under it; otherwise it raises |
| JsonValue.Strings | backend/main.py:307-313 | a list of Python strings becomes the JSON list of the same strings in the same order |
| JsonValue.Keys | backend/main.py:146 | iterating a dict yields its keys in order |
| JsonValue.StringItems | backend/main.py:146 | a list can be joined exactly when every item is a string, and it yields those strings in order |
| JsonValue.JoinOperands | backend/main.py:146 | `join` accepts a list of strings, a string (its characters) or a dict (its keys), and raises for anything else; a string gives one one-character operand per character, in order |
| ResponseExtractor.FenceBody | backend/gemini_api.py:111-114 | the text taken from a fenced reply contains no fence |
| ResponseExtractor.CleanResponse | backend/gemini_api.py:110-115 | the text given to the parser has no whitespace at either end and never opens with a fence; a reply whose stripped form does not open with a fence is only stripped |
| ResponseExtractor.CleanIdempotent | backend/gemini_api.py:110-115 | cleaning a cleaned reply changes nothing |
| ResponseExtractor.CleanUnfenced | backend/gemini_api.py:110-115 | a reply without any fence is only stripped |
| ResponseExtractor.NoFenceInside | backend/gemini_api.py:112 | in `"```" + m + "```"` followed by any text, no fence starts between the two fences when `m` holds none and does not end in a backtick |
| ResponseExtractor.BetweenFences | backend/gemini_api.py:112 | splitting `"```" + m + "```"` followed by any text on fences gives back exactly `m` |
| ResponseExtractor.OpeningKeepsOut | backend/gemini_api.py:112 | the text between the fences of a fenced block around a fence-free payload contains no fence |
| ResponseExtractor.BodyBetweenFences | backend/gemini_api.py:111-114 | the body of `"```" + m + "```"`, whatever text follows the closing fence, is `m` minus a leading `json` tag |
| ResponseExtractor.UntaggedOpening | backend/gemini_api.py:113-114 | the `json` tag is removed from a tagged opening and nothing is removed from an untagged one |
| ResponseExtractor.FencedBody | backend/gemini_api.py:111-114 | the body of a fenced block is its payload between two line breaks |
| ResponseExtractor.CleanFenced | backend/gemini_api.py:110-115 | a fence-free payload in a fenced block, `json`-tagged or not, cleans to `strip(payload)`, the same as the bare payload |
| ResponseExtractor.Extract | backend/gemini_api.py:110-117 | a reply without fences is parsed after stripping only |
| ResponseExtractor.ExtractFenced | backend/main.py:296-303 | the parser sees the same text for a fenced payload as for the bare payload |
| GeminiApi.GenerateText | backend/gemini_api.py:18-45 | `generate_text` returns the generated text, or `"Error: "` followed by the failure's message; it never raises |
| GeminiApi.GenerateWithImage | backend/gemini_api.py:47-83 | `generate_with_image` sends the image with its data-URL prefix stripped, and returns the generated text or `"Error: "` followed by the failure's message |
| GeminiApi.ReplyText | backend/gemini_api.py:34-45 | a generator never raises: a reply is its text, and a failure is `"Error: "` followed by the exception's message |
| GeminiApi.StripDataUrl | backend/gemini_api.py:55-56 | with `base64,` present, the data sent is the text between its first occurrence and the next one or the end, and contains no `base64,`; otherwise the input is sent unchanged |
| GeminiApi.FirstMarkerAfterHeader | backend/gemini_api.py:55-56 | in a data URL whose header holds no `base64,`, the first `base64,` directly follows the header |
| GeminiApi.DataUrlPayloadSent | backend/gemini_api.py:55-83 | for a data URL `header + "base64," + payload` whose header holds no `base64,` and whose payload holds none either, exactly the payload is sent with the prompt |
| GeminiApi.WebpDataUrlExample | backend/gemini_api.py:55-56 | `data:image/webp;base64,AAAA`, whose header holds a `b`, sends exactly `AAAA` |
| GeminiApi.SubjectPromptFor | backend/gemini_api.py:100 | the detection prompt embeds `content[:2000]`, a prefix of length min(2000, len) |
| GeminiApi.UnknownSubject | backend/gemini_api.py:129-134 | the fallback record has all four fields: subject and level "unknown", topic the parser's message, concepts empty, in that order |
| GeminiApi.DetectSubject | backend/gemini_api.py:105-134 | a successful parse is returned unchanged, with no shape check; a failed one gives the fully populated "unknown" record |
| GeminiApi.FailedCallReachesParser | backend/gemini_api.py:105-115 | when the service call fails, the parser is handed the stripped `"Error: ..."` text |
| YouTubeService.IdRun | backend/youtube_service.py:8 | the greedy `[^&\n?#]+` run: all of its characters are id characters, and it stops at the end or at an excluded character |
| YouTubeService.MatchAt | backend/youtube_service.py:8 | the alternation at one position: the first alternative whose literal is followed by a non-empty id run, or none when no alternative matches there |
| YouTubeService.SearchFrom | backend/youtube_service.py:13 | `re.search`: the match at the leftmost position where the pattern matches, or None when it matches nowhere |
| YouTubeService.FindVideoId | backend/youtube_service.py:7-15 | a maximal, non-empty id right after one of the three literals; the embed literal only when the watch/short pattern matches nowhere; the match returned is the leftmost one of its pattern, watch/short or embed |
| YouTubeService.ExtractVideoId | backend/youtube_service.py:5-16 | returns the id of that match, or None when neither pattern matches; any id returned is non-empty and free of `&`, newline, `?` and `#` |
| YouTubeService.IdRunExact | backend/youtube_service.py:8 | a run of id characters that ends at the end or at an excluded character is exactly what the greedy `+` takes |
| YouTubeService.MatchAtPrefix | backend/youtube_service.py:8 | at a literal followed by a well-formed id, the alternation matches that literal and captures that id |
| YouTubeService.NoLinkMatchAt | backend/youtube_service.py:8 | without a watch or short-link literal at a position, the first pattern does not match there |
| YouTubeService.LinkLiteralsExclusive | backend/youtube_service.py:8 | `youtube.com/watch?v=` and `youtu.be/` never start at the same position |
| YouTubeService.SearchFindsLeftmost | backend/youtube_service.py:13 | the search reports the match at the first position where the pattern matches |
| YouTubeService.LinkUrlId | backend/youtube_service.py:8-15 | for `pre + literal + id + rest`, with no link literal in `pre` and `rest` empty or starting with an excluded character, the result is `id` |
| YouTubeService.EmbedUrlId | backend/youtube_service.py:9-15 | an embed URL gives its id when no link literal appears anywhere in it and no embed literal starts before the id's own |
| YouTubeService.NoLinkWithoutY | backend/youtube_service.py:8 | no link literal starts before the first `y` of a URL |
| YouTubeService.WatchUrlExample | backend/youtube_service.py:8-15 | `https://www.youtube.com/watch?v=ABC123` gives `ABC123` |
| YouTubeService.ShortUrlExample | backend/youtube_service.py:8-15 | `https://youtu.be/ABC123?t=5` gives `ABC123`, stopping at `?` |
| YouTubeService.Texts | backend/youtube_service.py:30 | the segment `text` fields, in order |
| YouTubeService.FullText | backend/youtube_service.py:30 | the full text is empty for no segments; otherwise it opens with the first segment's text and its length is the texts' total length plus one space between each pair of neighbours |
| YouTubeService.FullTextSnoc | backend/youtube_service.py:30 | each further segment adds one space and its text to the full text |
| YouTubeService.GetTranscript | backend/youtube_service.py:18-42 | the invalid-URL record exactly when no id is found; on success the id, the segments fetched for it and their joined text; on a fetch failure its message |
| Conversation.ChatLine | backend/main.py:135-136 | a tutor-prompt line ends with the message's whole content and a line break, and its length is that of its role's label (`User: ` or `Assistant: `) plus the content and the line break |
| Conversation.ChatLineLabel | backend/main.py:135-136 | a prompt line starts with `User: ` exactly for a user message and with `Assistant: ` exactly for an assistant message |
| Conversation.ConversationBlock | backend/main.py:131-137 | the previous-conversation block is empty exactly when the history is; otherwise it opens with its header and ends with a line break |
| Conversation.AppendLines | backend/main.py:134-136 | the `+=` loop appends the line of each message in turn |
| Conversation.BuildConversation | backend/main.py:131-137 | the loop computes the previous-conversation block: header, one line per message of `history[-6:]`, a blank line |
| Conversation.ConversationIgnoresOlder | backend/main.py:134 | messages older than the last six never reach the tutor prompt |
| Conversation.ConversationAfterTurn | backend/main.py:134 | after an exchange, the block shows the four messages before it and then the exchange |
| Conversation.RecentLine | backend/main.py:326-327 | a follow-up line starts with `Student: ` exactly for a user message and with `Assistant: ` exactly for an assistant message, ends with `content[:100]`, `...` and a line break, and has exactly the length of those parts, so it is the label, `content[:100]`, `...` and a line break and nothing else; no line is longer than `Assistant: ` plus 100 characters, `...` and the line break |
| Conversation.RecentLineIgnoresTail | backend/main.py:327 | characters past the hundredth never reach the follow-up prompt |
| Conversation.RecentContext | backend/main.py:322-327 | the recent-conversation block is empty exactly when the history is; otherwise it opens with its header |
| Conversation.BuildRecentContext | backend/main.py:322-327 | the loop computes the recent-conversation block from `history[-4:]` |
| Conversation.RecentIgnoresOlder | backend/main.py:325 | messages older than the last four never reach the follow-up prompt |
| Conversation.RecentAfterTurn | backend/main.py:325-327 | after an exchange, the block shows the two messages before it and then the exchange |
| Suggestions.FallbackShapes | backend/main.py:307-391 | every fallback list has five distinct questions; the table covers exactly coding, history, language and science; no subject list is the generic list |
| Suggestions.InitialPromptFor | backend/main.py:267-274 | the prompt builds exactly when subject, topic and level are present, and embeds `transcript[:1500]` |
| Suggestions.KeepList | backend/main.py:303-304 | a parsed list is kept as it is, any other parsed value gives `[]`, and a parse failure gives the fallback |
| Suggestions.InitialSuggestions | backend/main.py:262-313 | fails exactly when the prompt cannot be built; otherwise the parsed list, `[]` for a parsed non-list, or the five generic questions |
| Suggestions.ContextualFallback | backend/main.py:362-393 | the subject's own five questions for the four known subjects, the coding list for any other hashable subject, an error for a list or dict subject |
| Suggestions.UnknownSubjectGetsCoding | backend/main.py:393 | a subject the detector could not classify gets the coding questions |
| Suggestions.FollowUpPromptFor | backend/main.py:329-334 | the follow-up prompt builds exactly when subject and topic are present, and carries the recent-conversation block |
| Suggestions.FollowUpSuggestions | backend/main.py:346-393 | the parsed list, `[]` for a parsed non-list, or the subject's fallback when parsing fails |
| Suggestions.InitialSuggestionsFenced | backend/main.py:291-304 | a fenced reply gives the suggestions the bare reply would |
| Sessions.AfterTurn | backend/main.py:175-182 | a chat turn keeps the old entries, then adds the user's message and then the reply; a history of whole exchanges stays one |
| Sessions.TutorPromptFor | backend/main.py:140-164 | the tutor prompt builds exactly when subject, topic, level and joinable concepts are present; it carries the concepts joined with ", ", `transcript[:3000]`, the conversation block and the message |
| Sessions.UnknownSubjectChats | backend/main.py:146 | a session whose subject was not detected can still chat, with an empty concept list |
| Sessions.ChatResponse | backend/main.py:167-172 | an image request with the stripped screenshot exactly when the screenshot is non-empty and longer than 100 characters; otherwise a text request |
| Sessions.SessionStore.constructor | backend/main.py:33 | the store starts empty |
| Sessions.SessionStore.AnalyzeContent | backend/main.py:69-113 | a transcript failure answers 400 with its error and changes nothing; a failing prompt changes nothing; otherwise the video's session is (re)created with an empty history, and the answer carries the subject, the suggestions and `full_text[:200] + "..."` |
| Sessions.SessionStore.Chat | backend/main.py:117-191 | an unknown session answers 404 and changes nothing; otherwise only that session's history changes, gaining the message and then the reply, and the answer carries the new history and its length |
| Sessions.SessionStore.GetSuggestions | backend/main.py:195-218 | an unknown session answers 404; otherwise only `suggested_questions` of that session is replaced; it fails only for an unhashable subject, and then changes nothing |
| Sessions.SessionStore.GetSession | backend/main.py:222-234 | the session's subject, message count, suggestions and URL, or 404 |
| Sessions.SessionStore.GetChatHistory | backend/main.py:237-247 | the session's whole history and subject, or 404 |
| Sessions.SessionStore.ClearSession | backend/main.py:251-257 | removes exactly that session, or answers 404 and changes nothing |
| Sessions.ClearThenGet | backend/main.py:250-257 | after a session is cleared, asking for it answers 404 |

## Left out

- The FastAPI application: routing, request models, CORS, environment loading and server startup. The `/` status endpoint returns a constant and is not modelled.
- The HTTP calls to the generation service and the transcript download are left out. `Provider` and `Fetcher` stand for them; each gives the same reply to the same request.
- `Provider` also stands for whatever makes a real call fail.
- The internals of `json.loads` are left out: `Parser` is an uninterpreted function.
- JSON objects are assumed to have distinct keys. For an object with duplicate keys, `json.loads` keeps the last value; that case is not modelled.
- The regular-expression engine is left out. The two fixed patterns are hand-coded.
- The wording of the prompts is left out. A `Prompt` holds only its variable parts: the subject fields, the truncated transcript, the conversation blocks and the message.
- Python's `str()` rendering of subject fields inside prompts is not modelled.
- Sessions.SessionStore.AnalyzeContent: the "Ready to chat about ...!" message is represented by the topic value it names.
- Sessions.SessionStore.Chat: the reply's `chat_history` is a copy of the history. In the source it is the same list object as the session's.
- Transcript segments keep only `text`, `start` and `duration`. The timing values are carried through unchanged as reals.
- All console logging and the `__main__` test blocks are left out.
- Handlers are modelled as one sequential operation after another. The source has no concurrency control, and none is modelled.
