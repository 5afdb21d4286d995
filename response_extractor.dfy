/**
 * The clean-up applied to a model's reply before it is handed to
 * `json.loads`, written once here although the backend repeats it in
 * `detect_subject` and in both suggestion generators: strip whitespace;
 * if the text opens with a code fence, keep what lies between the first
 * two fences and drop a leading `json` info string; strip again.
 */
module ResponseExtractor {
  import opened Util
  import opened PyText
  import opened JsonValue

  const Fence := "```"
  const JsonTag := "json"

  /** The text between the opening fence and the next fence (or the end), without a leading `json` tag. */
  function FenceBody(t: string): (r: string)
    requires StartsWith(t, Fence)
    ensures !Contains(r, Fence)
  {
    assert OccursAt(t, Fence, 0);
    assert FindFrom(t, Fence, 0) == Some(0);
    var inner := SplitSecond(t, Fence);
    SplitSecondFree(t, Fence);
    if StartsWith(inner, JsonTag) then
      var r := inner[|JsonTag|..];
      assert !Contains(r, Fence) by {
        forall j: nat | j <= |r|
          ensures !OccursAt(r, Fence, j)
        {
          OccursInInfix(inner, Fence, |JsonTag|, |inner|, j);
          assert inner[|JsonTag|..|inner|] == r;
        }
      }
      r
    else
      inner
  }

  /**
   * The text given to the JSON parser. It never has whitespace at either
   * end and never opens with a fence; text whose stripped form does not
   * open with a fence is only stripped.
   */
  function CleanResponse(raw: string): (r: string)
    ensures Unpadded(r)
    ensures !StartsWith(r, Fence)
    ensures !StartsWith(Strip(raw), Fence) ==> r == Strip(raw)
  {
    var t := Strip(raw);
    if StartsWith(t, Fence) then
      var body := FenceBody(t);
      StripKeepsOut(body, Fence);
      var r := Strip(body);
      assert StartsWith(r, Fence) ==> OccursAt(r, Fence, 0);
      r
    else
      t
  }

  /** Cleaning a cleaned reply changes nothing. */
  lemma CleanIdempotent(raw: string)
    ensures CleanResponse(CleanResponse(raw)) == CleanResponse(raw)
  {
    var r := CleanResponse(raw);
    assert r[0..|r|] == r;
    StripUnique(r, 0, r);
  }

  /** A payload with no fence in it is only stripped by the cleaning. */
  lemma CleanUnfenced(s: string)
    requires !Contains(s, Fence)
    ensures CleanResponse(s) == Strip(s)
  {
    StripKeepsOut(s, Fence);
    assert StartsWith(Strip(s), Fence) ==> OccursAt(Strip(s), Fence, 0);
  }

  /** Splitting on fences keeps exactly the fence-free text between the first two fences. */
  /** Between the two fences of "```" + m + "```" + rest there is no other fence. */
  lemma NoFenceInside(m: string, rest: string, j: nat)
    requires !Contains(m, Fence)
    requires m == [] || m[|m| - 1] != '`'
    requires 3 <= j < 3 + |m|
    ensures !OccursAt(Fence + m + Fence + rest, Fence, j)
  {
    var t := Fence + m + Fence + rest;
    var e := 3 + |m|;
    if j + 3 <= e {
      assert t[j..j + 3] == m[j - 3..j];
      assert !OccursAt(m, Fence, j - 3);
    } else {
      // The window at j covers the payload's last character, which is no backtick.
      assert t[j..j + 3][e - 1 - j] == t[e - 1] == m[|m| - 1] != '`';
      assert Fence[e - 1 - j] == '`';
    }
  }

  lemma BetweenFences(m: string, rest: string)
    requires !Contains(m, Fence)
    requires m == [] || m[|m| - 1] != '`'
    ensures StartsWith(Fence + m + Fence + rest, Fence) && Contains(Fence + m + Fence + rest, Fence)
    ensures SplitSecond(Fence + m + Fence + rest, Fence) == m
  {
    var t := Fence + m + Fence + rest;
    var e := 3 + |m|;
    assert OccursAt(t, Fence, 0);
    assert OccursAt(t, Fence, e);
    forall j: nat | 3 <= j < e
      ensures !OccursAt(t, Fence, j)
    {
      NoFenceInside(m, rest, j);
    }
    assert FindFrom(t, Fence, 0) == Some(0);
    var r := SplitSecond(t, Fence);
    assert |r| == |m|;
    assert r == t[3..e] == m;
  }

  /** The opening of a fenced block: an optional `json` tag and a line break. */
  function FenceOpening(tagged: bool): string {
    if tagged then JsonTag + "\n" else "\n"
  }

  /** The text between the fences of a fenced block around a fence-free payload holds no fence. */
  lemma OpeningKeepsOut(s: string, tagged: bool)
    requires !Contains(s, Fence)
    ensures !Contains(FenceOpening(tagged) + s + "\n", Fence)
  {
    var open := FenceOpening(tagged);
    assert forall k :: 0 <= k < |open| ==> open[k] != '`';
    ContainsPadded(open, s, "\n", Fence);
  }

  /** The body of "```" + m + "```", whatever text follows, is `m` without a leading `json` tag. */
  lemma BodyBetweenFences(m: string, rest: string)
    requires !Contains(m, Fence)
    requires m == [] || m[|m| - 1] != '`'
    ensures StartsWith(Fence + m + Fence + rest, Fence)
    ensures FenceBody(Fence + m + Fence + rest) == if StartsWith(m, JsonTag) then m[|JsonTag|..] else m
  {
    BetweenFences(m, rest);
  }

  /** Removing a leading `json` tag from an opening followed by a payload leaves the line break and the payload. */
  lemma UntaggedOpening(s: string, tagged: bool)
    ensures var m := FenceOpening(tagged) + s + "\n";
      (if StartsWith(m, JsonTag) then m[|JsonTag|..] else m) == "\n" + s + "\n"
  {
    var m := FenceOpening(tagged) + s + "\n";
    if tagged {
      assert m[..4] == JsonTag;
      assert m[4..] == "\n" + s + "\n";
    } else {
      assert m[0] == '\n' != JsonTag[0];
    }
  }

  /** The body of a fenced block around a fence-free payload is the payload between its line breaks. */
  lemma FencedBody(s: string, tagged: bool)
    requires !Contains(s, Fence)
    ensures StartsWith(Fence + FenceOpening(tagged) + s + "\n" + Fence, Fence)
    ensures FenceBody(Fence + FenceOpening(tagged) + s + "\n" + Fence) == "\n" + s + "\n"
  {
    var m := FenceOpening(tagged) + s + "\n";
    assert Fence + FenceOpening(tagged) + s + "\n" + Fence == Fence + m + Fence + [];
    OpeningKeepsOut(s, tagged);
    assert m[|m| - 1] == '\n';
    BodyBetweenFences(m, []);
    UntaggedOpening(s, tagged);
  }

  /** The parser sees the same text for a payload wrapped in a fenced block as for the bare payload. */
  lemma CleanFenced(s: string, tagged: bool)
    requires !Contains(s, Fence)
    ensures CleanResponse(Fence + FenceOpening(tagged) + s + "\n" + Fence) == Strip(s)
    ensures CleanResponse(Fence + FenceOpening(tagged) + s + "\n" + Fence) == CleanResponse(s)
  {
    var t := Fence + FenceOpening(tagged) + s + "\n" + Fence;
    FencedBody(s, tagged);
    assert Unpadded(t) by {
      assert t[0] == '`';
      assert t[|t| - 1] == '`';
    }
    assert t[0..|t|] == t;
    StripUnique(t, 0, t);
    StripPadded("\n", s, "\n");
    CleanUnfenced(s);
  }

  /** What a caller gets from `json.loads` after cleaning the reply. */
  function Extract(raw: string, parse: Parser): (p: Parsed)
    ensures !Contains(raw, Fence) ==> p == parse(Strip(raw))
  {
    var p := parse(CleanResponse(raw));
    assert !Contains(raw, Fence) ==> p == parse(Strip(raw)) by {
      if !Contains(raw, Fence) { CleanUnfenced(raw); }
    }
    p
  }

  /** A fenced, optionally `json`-tagged payload parses exactly as the bare payload. */
  lemma ExtractFenced(s: string, tagged: bool, parse: Parser)
    requires !Contains(s, Fence)
    ensures Extract(Fence + FenceOpening(tagged) + s + "\n" + Fence, parse) == Extract(s, parse)
  {
    CleanFenced(s, tagged);
  }
}
