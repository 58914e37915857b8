/**
 * `templateGeneration`: select the agent's recent, fashion-related memories,
 * join their texts into the prompt's memory content, and clean the language
 * model's reply of a Markdown JSON fence before it is parsed.
 *
 * The memories of the agent's rooms and the model's reply are parameters;
 * `now` stands for `Date.now()`.
 */
module Generation {
  import opened Types
  import opened Wrappers
  import Seqs
  import Text

  const EightHoursMs: int := 8 * 60 * 60 * 1000
  const Keywords: seq<string> := ["fashion", "style", "outfit", "look", "trend"]
  const JsonFenceOpen: string := "```json"
  const FenceClose: string := "```"

  /** `item.createdAt >= eightHrsAgo`; a memory without a creation time compares false. */
  predicate IsRecent(now: int, m: Memory)
  {
    m.createdAt.Some? && m.createdAt.value >= now - EightHoursMs
  }

  /** Some keyword occurs in the lower-cased text (as a substring, not a word). */
  predicate IsRelevant(m: Memory)
  {
    exists k :: k in Keywords && Text.Contains(Text.ToLower(m.content.text), k)
  }

  function RecentAt(now: int): Memory -> bool
  {
    m => IsRecent(now, m)
  }

  function Relevant(): Memory -> bool
  {
    m => IsRelevant(m)
  }

  /** `recentMemories`, then `relevantMemories`. */
  function RelevantMemories(memories: seq<Memory>, now: int): (r: seq<Memory>)
    ensures |r| <= |memories|
  {
    Seqs.Filter(Seqs.Filter(memories, RecentAt(now)), Relevant())
  }

  /** The selection keeps exactly the recent relevant memories, in their original order. */
  lemma RelevantMemoriesSpec(memories: seq<Memory>, now: int)
    ensures forall m :: m in RelevantMemories(memories, now) <==> m in memories && IsRecent(now, m) && IsRelevant(m)
    ensures Seqs.IsSubsequence(RelevantMemories(memories, now), memories)
  {
    var recent := Seqs.Filter(memories, RecentAt(now));
    Seqs.FilterMembers(memories, RecentAt(now));
    Seqs.FilterMembers(recent, Relevant());
    Seqs.FilterIsSubsequence(memories, RecentAt(now));
    Seqs.FilterIsSubsequence(recent, Relevant());
    Seqs.SubsequenceTransitive(RelevantMemories(memories, now), recent, memories);
  }

  /**
   * A memory is relevant exactly when one of the keywords occurs, at some
   * position, in its lower-cased text.
   */
  lemma KeywordMatching(m: Memory)
    ensures IsRelevant(m) <==>
      exists k, i :: k in Keywords && Text.OccursAt(Text.ToLower(m.content.text), k, i)
  {
    var t := Text.ToLower(m.content.text);
    forall k ensures Text.Contains(t, k) <==> exists i :: Text.OccursAt(t, k, i) {
      Text.ContainsIff(t, k);
    }
  }

  /** A keyword inside a longer word, in any ASCII case, makes the text relevant. */
  lemma KeywordInsideWord(m: Memory, p: string, k: string, q: string)
    requires k in Keywords && Text.SameUpToAsciiCase(m.content.text, p + k + q)
    ensures IsRelevant(m)
  {
    Text.ToLowerIgnoresAsciiCase(m.content.text, p + k + q);
    Text.ToLowerAppend(p + k, q);
    Text.ToLowerAppend(p, k);
    KeywordsAreLowerCase(k);
    Text.ContainsInfix(Text.ToLower(p), k, Text.ToLower(q));
  }

  lemma KeywordsAreLowerCase(k: string)
    requires k in Keywords
    ensures Text.ToLower(k) == k
  {
    Text.ToLowerOfLower(k);
  }

  /** Changing the case of ASCII letters in a memory's text does not change its relevance. */
  lemma RelevanceIgnoresCase(m: Memory, text: string)
    requires Text.SameUpToAsciiCase(m.content.text, text)
    ensures IsRelevant(m) <==> IsRelevant(m.(content := m.content.(text := text)))
  {
    Text.ToLowerIgnoresAsciiCase(m.content.text, text);
  }

  /** The `relevantMemories.forEach(item => contents.push(item.content.text))` loop. */
  method CollectTexts(memories: seq<Memory>) returns (contents: seq<string>)
    ensures |contents| == |memories|
    ensures forall i :: 0 <= i < |memories| ==> contents[i] == memories[i].content.text
  {
    contents := [];
    for i := 0 to |memories|
      invariant |contents| == i
      invariant forall k :: 0 <= k < i ==> contents[k] == memories[k].content.text
    {
      contents := contents + [memories[i].content.text];
    }
  }

  /** The texts of some memories, in order. */
  function Texts(memories: seq<Memory>): seq<string>
  {
    seq(|memories|, i requires 0 <= i < |memories| => memories[i].content.text)
  }

  /** `contents.join("-")`. */
  function MemoryContent(contents: seq<string>): string
  {
    Text.Join(contents, "-")
  }

  /** With no relevant memory the memory content is empty; texts without `-` are recovered by splitting it. */
  lemma MemoryContentSpec(contents: seq<string>)
    ensures contents == [] ==> MemoryContent(contents) == ""
    ensures contents != [] && (forall i :: 0 <= i < |contents| ==> '-' !in contents[i]) ==>
      Text.Split(MemoryContent(contents), '-') == contents
  {
    if contents != [] && (forall i :: 0 <= i < |contents| ==> '-' !in contents[i]) {
      Text.SplitJoin(contents, '-');
    }
  }

  /** `.replace(/^\s*```json/, "")`: the leading white space and the opening fence go together. */
  function StripJsonOpen(s: string): (r: string)
    ensures Text.StartsWith(Text.TrimStart(s), JsonFenceOpen) ==> r == Text.TrimStart(s)[|JsonFenceOpen|..]
    ensures !Text.StartsWith(Text.TrimStart(s), JsonFenceOpen) ==> r == s
  {
    var n := Text.LeadingSpaces(s);
    if Text.StartsWith(s[n..], JsonFenceOpen) then s[n + |JsonFenceOpen|..] else s
  }

  /** A reply that is white space, the JSON fence and a rest loses exactly the white space and the fence. */
  lemma StripJsonOpenOfSplit(w: string, rest: string)
    requires Text.IsBlank(w)
    ensures StripJsonOpen(w + JsonFenceOpen + rest) == rest
  {
    var s := w + JsonFenceOpen + rest;
    assert s == w + (JsonFenceOpen + rest);
    Text.LeadingSpacesOfBlankPrefix(w, JsonFenceOpen + rest);
    assert s[|w|..] == JsonFenceOpen + rest;
  }

  /** Whatever `StripJsonOpen` changes, it changes by removing white space and the JSON fence in front. */
  lemma StripJsonOpenSplits(s: string)
    ensures StripJsonOpen(s) == s || exists w :: Text.IsBlank(w) && s == w + JsonFenceOpen + StripJsonOpen(s)
  {
    var n := Text.LeadingSpaces(s);
    if Text.StartsWith(s[n..], JsonFenceOpen) {
      var w := s[..n];
      assert Text.IsBlank(w);
      assert s == w + JsonFenceOpen + s[n + |JsonFenceOpen|..];
    }
  }

  /** `.replace(/```$/, "")`: only a fence at the very end is removed. */
  function StripCloseFence(s: string): (r: string)
    ensures Text.EndsWith(s, FenceClose) ==> r + FenceClose == s
    ensures !Text.EndsWith(s, FenceClose) ==> r == s
  {
    if Text.EndsWith(s, FenceClose) then s[..|s| - |FenceClose|] else s
  }

  /** The text handed to `JSON.parse`. */
  function CleanGenerated(raw: string): string
  {
    Text.Trim(StripCloseFence(StripJsonOpen(raw)))
  }

  /** A reply wrapped in a JSON fence, with any leading white space, yields its trimmed body. */
  lemma CleanFenced(w: string, body: string)
    requires Text.IsBlank(w)
    ensures CleanGenerated(w + JsonFenceOpen + body + FenceClose) == Text.Trim(body)
  {
    var s := w + JsonFenceOpen + body + FenceClose;
    assert s == w + (JsonFenceOpen + body + FenceClose);
    Text.LeadingSpacesOfBlankPrefix(w, JsonFenceOpen + body + FenceClose);
    assert s[|w|..] == JsonFenceOpen + body + FenceClose;
    assert StripJsonOpen(s) == body + FenceClose;
    assert StripCloseFence(body + FenceClose) == body;
  }

  /** A reply with neither fence is only trimmed. */
  lemma CleanUnfenced(s: string)
    requires !Text.StartsWith(Text.TrimStart(s), JsonFenceOpen) && !Text.EndsWith(s, FenceClose)
    ensures CleanGenerated(s) == Text.Trim(s)
  {
  }

  /**
   * A reply fenced without the `json` tag keeps its opening fence: `^\s*```json`
   * does not match, only the closing fence goes, and the parser receives
   * the backticks followed by the body.
   */
  lemma PlainFenceKept(w: string, body: string)
    requires Text.IsBlank(w) && !Text.StartsWith(body, "json")
    ensures CleanGenerated(w + FenceClose + body + FenceClose) == FenceClose + Text.TrimEnd(body)
    ensures Text.StartsWith(CleanGenerated(w + FenceClose + body + FenceClose), FenceClose)
  {
    var t := FenceClose + body;
    var s := w + t + FenceClose;
    assert w + FenceClose + body + FenceClose == s;
    PlainFenceOpenKept(w, t + FenceClose, body);
    assert s == w + (t + FenceClose);
    assert s[..|s| - |FenceClose|] == w + t;
    assert StripCloseFence(s) == w + t;
    Text.TrimAfterBlank(w, t);
    Text.TrimEndAfterUnpadded(FenceClose, body);
    assert CleanGenerated(s) == Text.TrimEnd(t);
  }

  lemma PlainFenceOpenKept(w: string, u: string, body: string)
    requires Text.IsBlank(w) && !Text.StartsWith(body, "json") && u == FenceClose + body + FenceClose
    ensures StripJsonOpen(w + u) == w + u
  {
    Text.LeadingSpacesOfBlankPrefix(w, u);
    assert (w + u)[|w|..] == u;
    PlainFenceNotJson(body);
  }

  /** A plain fence followed by the body and the closing fence does not start with ```` ```json ````. */
  lemma PlainFenceNotJson(body: string)
    requires !Text.StartsWith(body, "json")
    ensures !Text.StartsWith(FenceClose + body + FenceClose, JsonFenceOpen)
  {
    var u := FenceClose + body + FenceClose;
    if |body| >= 4 {
      assert u[3..7] == body[..4];
    } else {
      assert u[3 + |body|] == '`';
    }
  }

  datatype Prompt = Prompt(relevant: seq<Memory>, memoryContent: string, cleaned: string)

  /**
   * `templateGeneration(runtime)` up to the parse: `memories` stands for the
   * memories of the agent's rooms and `generated` for the model's reply.
   */
  method TemplateGeneration(memories: seq<Memory>, now: int, generated: string) returns (p: Prompt)
    ensures p.relevant == RelevantMemories(memories, now)
    ensures p.memoryContent == MemoryContent(Texts(p.relevant))
    ensures p.cleaned == CleanGenerated(generated)
  {
    var relevant := RelevantMemories(memories, now);
    var contents := CollectTexts(relevant);
    assert contents == Texts(relevant);
    p := Prompt(relevant, MemoryContent(contents), CleanGenerated(generated));
  }
}
