/**
 * Video-id extraction and transcript assembly. The two regular expressions
 * of `extract_video_id` are written out by hand: a literal prefix (one of
 * two alternatives in the first pattern) followed by the longest non-empty
 * run of characters other than `&`, newline, `?` and `#`, searched for
 * leftmost-first as `re.search` does. The transcript download is an oracle.
 */
module YouTubeService {
  import opened Util
  import opened PyText

  const WatchPrefix := "youtube.com/watch?v="
  const ShortPrefix := "youtu.be/"
  const EmbedPrefix := "youtube.com/embed/"
  /** The alternatives of the first pattern, in the order the regex tries them. */
  const LinkPattern := [WatchPrefix, ShortPrefix]
  const EmbedPattern := [EmbedPrefix]
  const InvalidUrlMessage := "Invalid YouTube URL"

  /** The character class `[^&\n?#]`. */
  predicate IsIdChar(c: char) {
    c != '&' && c != '\n' && c != '?' && c != '#'
  }

  predicate ValidId(id: string) {
    |id| > 0 && forall k :: 0 <= k < |id| ==> IsIdChar(id[k])
  }

  /** A match of one pattern: where the literal starts, which literal it is, and the captured id. */
  datatype Match = Match(start: nat, prefix: string, id: string)

  /** `m` is a match in `url`: its literal, then its id, which ends the run of id characters. */
  predicate IsMatch(url: string, m: Match) {
    var b := m.start + |m.prefix|;
    && OccursAt(url, m.prefix, m.start)
    && b + |m.id| <= |url| && url[b..b + |m.id|] == m.id
    && ValidId(m.id)
    && (b + |m.id| == |url| || !IsIdChar(url[b + |m.id|]))
  }

  /** Length of the run of id characters in `url` from index `from` (the greedy `+`). */
  function IdRun(url: string, from: nat): (n: nat)
    requires from <= |url|
    decreases |url| - from
    ensures from + n <= |url|
    ensures forall k :: from <= k < from + n ==> IsIdChar(url[k])
    ensures from + n == |url| || !IsIdChar(url[from + n])
  {
    if from == |url| || !IsIdChar(url[from]) then 0 else 1 + IdRun(url, from + 1)
  }

  /** A match can begin at `start` with the literal `p`. */
  predicate MatchesWith(url: string, start: nat, p: string) {
    OccursAt(url, p, start) && IdRun(url, start + |p|) > 0
  }

  /** The pattern tried at one position: the first alternative that matches there. */
  function MatchAt(url: string, start: nat, alternatives: seq<string>): (r: Option<Match>)
    ensures r.Some? ==> IsMatch(url, r.value) && r.value.start == start && r.value.prefix in alternatives
    ensures r.None? <==> forall p :: p in alternatives ==> !MatchesWith(url, start, p)
  {
    if alternatives == [] then None
    else
      var p := alternatives[0];
      if MatchesWith(url, start, p) then
        var b := start + |p|;
        var id := url[b..b + IdRun(url, b)];
        assert forall k :: 0 <= k < |id| ==> id[k] == url[b + k];
        Some(Match(start, p, id))
      else
        var r := MatchAt(url, start, alternatives[1..]);
        assert forall q :: q in alternatives <==> q == p || q in alternatives[1..];
        r
  }

  /** `re.search` from position `from`: the leftmost position where the pattern matches. */
  function SearchFrom(url: string, from: nat, alternatives: seq<string>): (r: Option<Match>)
    decreases |url| + 1 - from
    ensures r.Some? ==> IsMatch(url, r.value) && r.value.prefix in alternatives && from <= r.value.start
    ensures r.Some? ==> MatchAt(url, r.value.start, alternatives) == r
    ensures r.Some? ==> forall j: nat :: from <= j < r.value.start ==> MatchAt(url, j, alternatives).None?
    ensures r.None? ==> forall j: nat :: from <= j <= |url| ==> MatchAt(url, j, alternatives).None?
  {
    if from > |url| then None
    else
      var here := MatchAt(url, from, alternatives);
      if here.Some? then here
      else
        SearchFrom(url, from + 1, alternatives)
  }

  /**
   * The match `extract_video_id` reports: the leftmost match of the first
   * pattern and, only when that pattern matches nowhere, the leftmost match
   * of the embed pattern.
   */
  function FindVideoId(url: string): (r: Option<Match>)
    ensures r.Some? ==> IsMatch(url, r.value)
    ensures r.Some? ==> r.value.prefix in {WatchPrefix, ShortPrefix, EmbedPrefix}
    ensures r.Some? && r.value.prefix != EmbedPrefix ==>
      forall j: nat :: j < r.value.start ==> MatchAt(url, j, LinkPattern).None?
    ensures (r.None? || r.value.prefix == EmbedPrefix) ==>
      forall j: nat :: j <= |url| ==> MatchAt(url, j, LinkPattern).None?
    ensures r.Some? && r.value.prefix == EmbedPrefix ==>
      forall j: nat :: j < r.value.start ==> MatchAt(url, j, EmbedPattern).None?
    ensures r.None? ==> forall j: nat :: j <= |url| ==> MatchAt(url, j, EmbedPattern).None?
  {
    match SearchFrom(url, 0, LinkPattern)
    case Some(m) => Some(m)
    case None => SearchFrom(url, 0, EmbedPattern)
  }

  /** `extract_video_id`: the captured id, or None when neither pattern matches. */
  function ExtractVideoId(url: string): (r: Option<string>)
    ensures r.Some? <==> FindVideoId(url).Some?
    ensures r.Some? ==> r.value == FindVideoId(url).value.id && ValidId(r.value)
  {
    match FindVideoId(url)
    case Some(m) => Some(m.id)
    case None => None
  }

  /** No alternative of the first pattern begins before index `n`. */
  predicate NoLinkBefore(url: string, n: nat) {
    forall j: nat :: j < n ==> !OccursAt(url, WatchPrefix, j) && !OccursAt(url, ShortPrefix, j)
  }

  /** A run of `m` id characters ending at the end of `url` or at another character is what `IdRun` counts. */
  lemma {:induction false} IdRunExact(url: string, from: nat, m: nat)
    requires from + m <= |url|
    requires forall k :: from <= k < from + m ==> IsIdChar(url[k])
    requires from + m == |url| || !IsIdChar(url[from + m])
    ensures IdRun(url, from) == m
    decreases m
  {
    if m > 0 {
      IdRunExact(url, from + 1, m - 1);
    }
  }

  /** The match of one alternative at a position where the id runs exactly to `rest`. */
  lemma {:induction false} MatchAtPrefix(pre: string, p: string, id: string, rest: string, alternatives: seq<string>)
    requires p in alternatives && ValidId(id) && (rest == [] || !IsIdChar(rest[0]))
    requires forall q :: q in alternatives && q != p ==> !OccursAt(pre + p + id + rest, q, |pre|)
    ensures MatchAt(pre + p + id + rest, |pre|, alternatives) == Some(Match(|pre|, p, id))
    decreases |alternatives|
  {
    var url := pre + p + id + rest;
    var b := |pre| + |p|;
    assert url[|pre|..b] == p;
    assert url[b..b + |id|] == id;
    assert forall k :: b <= k < b + |id| ==> url[k] == id[k - b];
    assert b + |id| < |url| ==> url[b + |id|] == rest[0];
    IdRunExact(url, b, |id|);
    if alternatives[0] != p {
      assert p in alternatives[1..];
      assert forall q :: q in alternatives[1..] ==> q in alternatives;
      MatchAtPrefix(pre, p, id, rest, alternatives[1..]);
    }
  }

  /** No link literal starting at `j` means the first pattern does not match there. */
  lemma NoLinkMatchAt(url: string, j: nat)
    requires !OccursAt(url, WatchPrefix, j) && !OccursAt(url, ShortPrefix, j)
    ensures MatchAt(url, j, LinkPattern).None?
  {
    assert forall p :: p in LinkPattern ==> p == WatchPrefix || p == ShortPrefix;
  }

  /**
   * A URL whose first link literal is followed by a well-formed id yields
   * that id, e.g. "https://www.youtube.com/watch?v=ABC123" gives "ABC123"
   * and "https://youtu.be/ABC123?t=5" gives "ABC123".
   */
  lemma LinkUrlId(pre: string, p: string, id: string, rest: string)
    requires p in LinkPattern && ValidId(id) && (rest == [] || !IsIdChar(rest[0]))
    requires NoLinkBefore(pre + p + id + rest, |pre|)
    ensures ExtractVideoId(pre + p + id + rest) == Some(id)
  {
    var url := pre + p + id + rest;
    assert url[|pre| + 5] == p[5];
    LinkLiteralsExclusive(url, |pre|, p);
    MatchAtPrefix(pre, p, id, rest, LinkPattern);
    forall j: nat | j < |pre|
      ensures MatchAt(url, j, LinkPattern).None?
    {
      NoLinkMatchAt(url, j);
    }
    SearchFindsLeftmost(url, LinkPattern, Match(|pre|, p, id));
  }

  /** The two link literals differ at index 5, so at most one of them starts at any position. */
  lemma LinkLiteralsExclusive(url: string, i: nat, p: string)
    requires p in LinkPattern && i + 5 < |url| && url[i + 5] == p[5]
    ensures forall q :: q in LinkPattern && q != p ==> !OccursAt(url, q, i)
  {
    assert WatchPrefix[5] == 'b' && ShortPrefix[5] == '.';
    forall q | q in LinkPattern && q != p && OccursAt(url, q, i)
      ensures url[i + 5] == q[5]
    {
      assert url[i..i + |q|][5] == q[5];
    }
  }

  /** The search reports the match at the first position where the pattern matches. */
  lemma SearchFindsLeftmost(url: string, alternatives: seq<string>, m: Match)
    requires MatchAt(url, m.start, alternatives) == Some(m)
    requires forall j: nat :: j < m.start ==> MatchAt(url, j, alternatives).None?
    ensures SearchFrom(url, 0, alternatives) == Some(m)
  {
    var r := SearchFrom(url, 0, alternatives);
    assert m.start <= |url|;
    assert r.Some?;
    assert !(r.value.start < m.start);
    assert !(m.start < r.value.start);
  }

  /**
   * The embed form is recognised when no link literal appears anywhere in
   * the URL and no embed literal starts before the id's own.
   */
  lemma EmbedUrlId(pre: string, id: string, rest: string)
    requires ValidId(id) && (rest == [] || !IsIdChar(rest[0]))
    requires NoLinkBefore(pre + EmbedPrefix + id + rest, |pre + EmbedPrefix + id + rest|)
    requires forall j: nat :: j < |pre| ==> !OccursAt(pre + EmbedPrefix + id + rest, EmbedPrefix, j)
    ensures ExtractVideoId(pre + EmbedPrefix + id + rest) == Some(id)
  {
    var url := pre + EmbedPrefix + id + rest;
    MatchAtPrefix(pre, EmbedPrefix, id, rest, EmbedPattern);
    forall j: nat | j <= |url|
      ensures MatchAt(url, j, LinkPattern).None?
    {
      NoLinkMatchAt(url, j);
    }
    forall j: nat | j < |pre|
      ensures MatchAt(url, j, EmbedPattern).None?
    {
      assert forall p :: p in EmbedPattern ==> p == EmbedPrefix;
    }
    SearchFindsLeftmost(url, EmbedPattern, Match(|pre|, EmbedPrefix, id));
  }

  /** Before the first 'y' of a URL no link literal begins (both begin with "youtu"). */
  lemma NoLinkWithoutY(url: string, n: nat)
    requires n <= |url| && forall k :: 0 <= k < n ==> url[k] != 'y'
    ensures NoLinkBefore(url, n)
  {
    forall j: nat | j < n
      ensures !OccursAt(url, WatchPrefix, j) && !OccursAt(url, ShortPrefix, j)
    {
      assert url[j] != 'y';
    }
  }

  lemma WatchUrlExample()
    ensures ExtractVideoId("https://www.youtube.com/watch?v=ABC123") == Some("ABC123")
  {
    var pre := "https://www.";
    var url := pre + WatchPrefix + "ABC123" + "";
    assert url == "https://www.youtube.com/watch?v=ABC123";
    NoLinkWithoutY(url, |pre|);
    LinkUrlId(pre, WatchPrefix, "ABC123", "");
  }

  lemma ShortUrlExample()
    ensures ExtractVideoId("https://youtu.be/ABC123?t=5") == Some("ABC123")
  {
    var pre := "https://";
    var url := pre + ShortPrefix + "ABC123" + "?t=5";
    assert url == "https://youtu.be/ABC123?t=5";
    NoLinkWithoutY(url, |pre|);
    LinkUrlId(pre, ShortPrefix, "ABC123", "?t=5");
  }

  /** One timed piece of the transcript; the timing is carried through untouched. */
  datatype Segment = Segment(text: string, start: real, duration: real)

  /** The transcript download: the segments for a video id, or the message of the exception raised. */
  datatype Fetched = Segments(segments: seq<Segment>) | FetchFailed(message: string)

  type Fetcher = string -> Fetched

  /**
   * What `get_transcript` returns: the success record, the record holding
   * only the "Invalid YouTube URL" error (no success key), or the record
   * with success false and the exception message.
   */
  datatype TranscriptResult =
    | Transcript(videoId: string, fullText: string, segments: seq<Segment>)
    | InvalidUrl
    | TranscriptError(error: string)
  {
    function ErrorText(): string
      requires !Transcript?
    {
      if InvalidUrl? then InvalidUrlMessage else error
    }
  }

  function Texts(segments: seq<Segment>): (r: seq<string>)
    ensures |r| == |segments|
    ensures forall k :: 0 <= k < |segments| ==> r[k] == segments[k].text
  {
    if segments == [] then [] else [segments[0].text] + Texts(segments[1..])
  }

  /** `" ".join(entry['text'] for entry in segments)`: the texts in order, one space between neighbours. */
  function FullText(segments: seq<Segment>): (r: string)
    ensures segments == [] ==> r == ""
    ensures segments != [] ==> StartsWith(r, segments[0].text)
    ensures segments != [] ==> |r| == TotalLength(Texts(segments)) + |segments| - 1
  {
    Join(Texts(segments), " ")
  }

  /** The full text grows by one space and the new segment's text for each further segment. */
  lemma FullTextSnoc(segments: seq<Segment>, s: Segment)
    requires segments != []
    ensures FullText(segments + [s]) == FullText(segments) + " " + s.text
  {
    assert Texts(segments + [s]) == Texts(segments) + [s.text];
    JoinSnoc(Texts(segments), s.text, " ");
  }

  /** `get_transcript`. */
  function GetTranscript(url: string, fetch: Fetcher): (r: TranscriptResult)
    ensures r.InvalidUrl? <==> ExtractVideoId(url).None?
    ensures r.Transcript? ==>
      && ExtractVideoId(url) == Some(r.videoId)
      && fetch(r.videoId) == Segments(r.segments)
      && r.fullText == FullText(r.segments)
    ensures r.TranscriptError? ==>
      ExtractVideoId(url).Some? && fetch(ExtractVideoId(url).value) == FetchFailed(r.error)
  {
    match ExtractVideoId(url)
    case None => InvalidUrl
    case Some(id) =>
      match fetch(id)
      case Segments(segments) => Transcript(id, FullText(segments), segments)
      case FetchFailed(message) => TranscriptError(message)
  }
}
