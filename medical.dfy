/** The pure steps of `POST /analyze`: which prompt an image type gets, and how
    the model's text becomes the stored `analysis`. `JSON.parse` is the
    parameter `parse`, a partial function onto JSON values. */
module Medical {
  import opened Common
  import opened Strings
  import opened Json
  import opened Models

  /** An X-ray gets the X-ray prompt; a prescription and a report share the prescription prompt. */
  function PromptFor(t: ImageType): (p: Prompt)
    ensures p == XrayPrompt <==> t == Xray
    ensures p.XrayPrompt? || p.PrescriptionPrompt?
  {
    if t == Xray then XrayPrompt else PrescriptionPrompt
  }

  const FenceOpen := "```json"
  const FenceClose := "```"

  /** A match of `/```json\s*([\s\S]*?)\s*```/`: group 1 and the whole match. */
  datatype FenceMatch = FenceMatch(capture: string, whole: string)

  /** The leftmost match of the fence pattern. Only the first "```json" can
      start a match: a later one would itself be a closing "```" for the first.
      The lazy group ends where the white space before the first closing "```"
      begins, so it is the text up to that "```" with trailing white space removed. */
  function JsonFence(text: string): (r: Option<FenceMatch>)
    ensures IndexOf(text, FenceOpen, 0).None? ==> r.None?
    ensures r.Some? ==> FenceShaped(r.value) && InfixOf(r.value.whole, text) && InfixOf(r.value.capture, text)
  {
    match IndexOf(text, FenceOpen, 0)
    case None => None
    case Some(p) =>
      FenceFromShape(text, p);
      FenceFrom(text, p)
  }

  /** The rest of the fence pattern once "```json" matched at `p`. */
  function FenceFrom(text: string, p: nat): Option<FenceMatch>
    requires p + |FenceOpen| <= |text|
  {
    var e := SkipSpaces(text, p + |FenceOpen|);
    match IndexOf(text, FenceClose, e)
    case None => None
    case Some(q) => Some(FenceMatch(TrimEnd(text[e..q]), text[p..q + |FenceClose|]))
  }

  /** After an opener at `p` the pattern fails exactly when no "```" follows it; a
      match starts at `p`, runs from "```json" to "```", and captures a piece of the text. */
  lemma FenceFromShape(text: string, p: nat)
    requires OccursAt(text, FenceOpen, p)
    ensures FenceFrom(text, p).None? <==> IndexOf(text, FenceClose, p + |FenceOpen|).None?
    ensures FenceFrom(text, p).Some? ==>
      var m := FenceFrom(text, p).value;
      OccursAt(text, m.whole, p) && FenceShaped(m) && InfixOf(m.capture, text)
  {
    var e := SkipSpaces(text, p + |FenceOpen|);
    match IndexOf(text, FenceClose, e)
    case None =>
      ClosingNotInGap(text, p + |FenceOpen|, e);
    case Some(q) =>
      FenceFromAt(text, p, e, q);
      FenceMatchShaped(text, p, e, q);
  }

  /** The match built from an opener at `p`, a non-space at `e` (or the end) and a closer at `q`. */
  lemma FenceMatchShaped(text: string, p: nat, e: nat, q: nat)
    requires OccursAt(text, FenceOpen, p) && OccursAt(text, FenceClose, q)
    requires p + |FenceOpen| <= e <= q && (e == |text| || !IsSpace(text[e]))
    ensures var m := FenceMatch(TrimEnd(text[e..q]), text[p..q + |FenceClose|]);
      OccursAt(text, m.whole, p) && FenceShaped(m) && InfixOf(m.capture, text)
  {
    var m := FenceMatch(TrimEnd(text[e..q]), text[p..q + |FenceClose|]);
    assert m.whole[..|FenceOpen|] == text[p..p + |FenceOpen|];
    assert m.whole[|m.whole| - |FenceClose|..] == text[q..q + |FenceClose|];
    assert text[e..q][..|m.capture|] == text[e..e + |m.capture|];
    InfixAt(m.capture, text, e);
  }

  /** A one-character pattern occurs exactly where that character is. */
  lemma CharOccurs(text: string, c: char, i: nat)
    requires i < |text|
    ensures OccursAt(text, [c], i) <==> text[i] == c
  {
    assert text[i..i + 1] == [text[i]];
  }

  /** `r` occurs in `text` at `i`. */
  lemma InfixAt(r: string, text: string, i: nat)
    requires i + |r| <= |text| && text[i..i + |r|] == r
    ensures InfixOf(r, text)
  {
    assert OccursAt(text, r, i);
  }

  /** A piece of `text`: what a regular-expression group or match can be. */
  predicate InfixOf(r: string, text: string)
  {
    exists i :: 0 <= i <= |text| - |r| && OccursAt(text, r, i)
  }

  /** The whole match runs from "```json" to "```", and the capture has no white space
      at its end nor at its start. */
  predicate FenceShaped(m: FenceMatch)
  {
    && |m.whole| >= |FenceOpen| + |FenceClose|
    && m.whole[..|FenceOpen|] == FenceOpen && m.whole[|m.whole| - |FenceClose|..] == FenceClose
    && (m.capture == [] || (!IsSpace(m.capture[0]) && !IsSpace(m.capture[|m.capture| - 1])))
  }

  /** White space holds no "```", so the first "```" after the opener is at or after the gap. */
  lemma ClosingNotInGap(text: string, from: nat, e: nat)
    requires from <= e <= |text| && AllSpace(text[from..e])
    requires IndexOf(text, FenceClose, e).None?
    ensures IndexOf(text, FenceClose, from).None?
  {
    forall j | from <= j < e ensures text[j] != '`' {
      assert text[j] == text[from..e][j - from];
    }
    forall j | from <= j ensures !OccursAt(text, FenceClose, j) {
      if j < e && j + |FenceClose| <= |text| {
        assert text[j..j + |FenceClose|][0] == text[j];
      }
    }
  }

  /** The match of `/\{[\s\S]*\}/`: greedy, from the first '{' to the last '}'. */
  function BraceSpan(text: string): (r: Option<string>)
    ensures r.Some? ==> |r.value| >= 2 && r.value[0] == '{' && r.value[|r.value| - 1] == '}' && InfixOf(r.value, text)
    ensures r.None? <==> forall i, j :: 0 <= i < j < |text| && text[i] == '{' ==> text[j] != '}'
  {
    match IndexOf(text, "{", 0)
    case None =>
      OpenBraceSearch(text, None);
      None
    case Some(p) =>
      OpenBraceSearch(text, Some(p));
      match LastIndexOf(text, '}')
      case None => None
      case Some(q) =>
        if p < q then
          InfixAt(text[p..q + 1], text, p);
          Some(text[p..q + 1])
        else None
  }

  /** What the search for "{" tells about the characters of `text`. */
  lemma OpenBraceSearch(text: string, r: Option<nat>)
    requires IndexOf(text, "{", 0) == r
    ensures r.Some? ==> r.value < |text| && text[r.value] == '{'
    ensures forall i :: 0 <= i < |text| && (r.None? || i < r.value) ==> text[i] != '{'
  {
    if r.Some? {
      CharOccurs(text, '{', r.value);
    }
    forall i | 0 <= i < |text| && (r.None? || i < r.value) ensures text[i] != '{' {
      CharOccurs(text, '{', i);
    }
  }

  /** `jsonMatch ? (jsonMatch[1] || jsonMatch[0]) : analysisText`. */
  function Candidate(text: string): (r: string)
    ensures InfixOf(r, text)
  {
    match JsonFence(text)
    case Some(m) => if m.capture != "" then m.capture else m.whole
    case None =>
      match BraceSpan(text)
      case Some(b) => b
      case None =>
        InfixAt(text, text, 0);
        text
  }

  /** The `try { JSON.parse } catch` step: a parse failure becomes `{rawText, type}`
      holding the full model text, never an error. */
  function AnalysisOf(text: string, t: ImageType, parse: string -> Option<Json>): (a: Analysis)
    ensures a.Structured? <==> parse(Candidate(text)).Some?
    ensures a.Structured? ==> a.value == parse(Candidate(text)).value
    ensures a.Fallback? ==> a.rawText == text && a.kind == t
  {
    match parse(Candidate(text))
    case Some(v) => Structured(v)
    case None => Fallback(text, t)
  }

  /** The fence pattern read off the positions of its parts: the first "```json" at
      `p`, white space up to `e`, and the first "```" at or after `e` at `q`. */
  lemma FenceAt(text: string, p: nat, e: nat, q: nat)
    requires OccursAt(text, FenceOpen, p) && forall j :: 0 <= j < p ==> !OccursAt(text, FenceOpen, j)
    requires p + |FenceOpen| <= e <= |text| && AllSpace(text[p + |FenceOpen|..e]) && (e == |text| || !IsSpace(text[e]))
    requires e <= q && OccursAt(text, FenceClose, q) && forall j :: e <= j < q ==> !OccursAt(text, FenceClose, j)
    ensures JsonFence(text) == Some(FenceMatch(TrimEnd(text[e..q]), text[p..q + |FenceClose|]))
  {
    FirstOccurrence(text, FenceOpen, 0, p);
    SkipSpacesTo(text, p + |FenceOpen|, e);
    FirstOccurrence(text, FenceClose, e, q);
    FenceFromSearches(text, p, e, q);
  }

  /** The fence match from the results of the three searches it performs. */
  lemma FenceFromSearches(text: string, p: nat, e: nat, q: nat)
    requires IndexOf(text, FenceOpen, 0) == Some(p)
    requires p + |FenceOpen| <= |text| && SkipSpaces(text, p + |FenceOpen|) == e
    requires IndexOf(text, FenceClose, e) == Some(q)
    ensures e <= q && q + |FenceClose| <= |text|
    ensures JsonFence(text) == Some(FenceMatch(TrimEnd(text[e..q]), text[p..q + |FenceClose|]))
  {
    FenceFromAt(text, p, e, q);
  }

  lemma FenceFromAt(text: string, p: nat, e: nat, q: nat)
    requires p + |FenceOpen| <= |text| && SkipSpaces(text, p + |FenceOpen|) == e
    requires IndexOf(text, FenceClose, e) == Some(q)
    ensures e <= q && q + |FenceClose| <= |text|
    ensures FenceFrom(text, p) == Some(FenceMatch(TrimEnd(text[e..q]), text[p..q + |FenceClose|]))
  {
    assert IndexOf(text, FenceClose, SkipSpaces(text, p + |FenceOpen|)) == Some(q);
    var m := FenceMatch(TrimEnd(text[e..q]), text[p..q + |FenceClose|]);
    assert FenceFrom(text, p) == Some(m);
  }

  /** Wrapping a trimmed payload without backticks in a fence, after text
      without backticks, is undone by the fence pattern. */
  lemma FenceRoundTrip(pre: string, left: string, body: string, right: string, post: string)
    requires NoChar(pre, '`') && NoChar(body, '`')
    requires AllSpace(left) && AllSpace(right)
    requires body != [] && Trimmed(body)
    ensures JsonFence(pre + FenceOpen + left + body + right + FenceClose + post)
      == Some(FenceMatch(body, FenceOpen + left + body + right + FenceClose))
  {
    var text := pre + FenceOpen + left + body + right + FenceClose + post;
    var p := |pre|;
    var e := p + |FenceOpen| + |left|;
    var q := e + |body| + |right|;
    assert text[p..p + 7] == FenceOpen;
    assert text[p + 7..e] == left;
    assert text[e..q] == body + right;
    assert text[q..q + 3] == FenceClose;
    assert text[p..q + 3] == FenceOpen + left + body + right + FenceClose;
    forall j | 0 <= j < p ensures !OccursAt(text, FenceOpen, j) {
      assert text[j] == pre[j];
      assert text[j..j + 7][0] == text[j];
    }
    assert text[e] == body[0];
    NoBacktickBeforeClose(text, body + right, e);
    FenceAt(text, p, e, q);
    TrimEndPadded(body, right);
  }

  /** A stretch without '`' holds no closing fence. */
  lemma NoBacktickBeforeClose(text: string, part: string, e: nat)
    requires e + |part| <= |text| && text[e..e + |part|] == part && NoChar(part, '`')
    ensures forall j :: e <= j < e + |part| ==> !OccursAt(text, FenceClose, j)
  {
    forall j | e <= j < e + |part| ensures !OccursAt(text, FenceClose, j) {
      assert text[j] == part[j - e];
      if j + 3 <= |text| {
        assert text[j..j + 3][0] == text[j];
      }
    }
  }

  /** Such a fenced payload is the parse candidate, whatever braces surround it. */
  lemma FencedPayloadIsCandidate(pre: string, left: string, body: string, right: string, post: string)
    requires NoChar(pre, '`') && NoChar(body, '`')
    requires AllSpace(left) && AllSpace(right)
    requires body != [] && Trimmed(body)
    ensures Candidate(pre + FenceOpen + left + body + right + FenceClose + post) == body
  {
    FenceRoundTrip(pre, left, body, right, post);
  }

  /** An empty fence is no capture: the whole fenced match becomes the candidate. */
  lemma EmptyFenceGivesWholeMatch(pre: string, gap: string, post: string)
    requires NoChar(pre, '`') && AllSpace(gap)
    ensures Candidate(pre + FenceOpen + gap + FenceClose + post) == FenceOpen + gap + FenceClose
  {
    var text := pre + FenceOpen + gap + FenceClose + post;
    var p := |pre|;
    var e := p + 7 + |gap|;
    assert text[p..p + 7] == FenceOpen;
    assert text[p + 7..e] == gap;
    assert text[e..e + 3] == FenceClose;
    assert text[p..e + 3] == FenceOpen + gap + FenceClose;
    forall j | 0 <= j < p ensures !OccursAt(text, FenceOpen, j) {
      assert text[j] == pre[j];
      assert text[j..j + 7][0] == text[j];
    }
    assert text[e] == '`';
    FenceAt(text, p, e, e);
    assert text[e..e] == [];
  }

  /** Without any '`' there is no fence, and the candidate is the greedy span
      from the first '{' to the last '}'; the text between may hold further
      braces, so two objects in one answer yield one span across both. */
  lemma BraceSpanIsCandidate(pre: string, mid: string, post: string)
    requires NoChar(pre, '`') && NoChar(mid, '`') && NoChar(post, '`')
    requires NoChar(pre, '{') && NoChar(post, '}')
    ensures Candidate(pre + "{" + mid + "}" + post) == "{" + mid + "}"
  {
    var text := pre + "{" + mid + "}" + post;
    NoCharAroundBraces(pre, mid, post, '`');
    AbsentPattern(text, FenceOpen, 0, 0);
    NoJsonOpenerIsNoMatch(text);
    OutermostBraces(pre, mid, post);
    BraceStageCandidate(text, |pre|, |pre| + 1 + |mid|);
  }

  /** An answer in a plain "```" fence, or any text without the letter 'j', has no
      "```json" opener and so reaches the brace pattern. */
  lemma PlainFenceGoesToBraces(pre: string, mid: string, post: string)
    requires NoChar(pre, 'j') && NoChar(mid, 'j') && NoChar(post, 'j')
    requires NoChar(pre, '{') && NoChar(post, '}')
    ensures Candidate(pre + "{" + mid + "}" + post) == "{" + mid + "}"
  {
    var text := pre + "{" + mid + "}" + post;
    NoCharAroundBraces(pre, mid, post, 'j');
    AbsentPattern(text, FenceOpen, 3, 0);
    NoJsonOpenerIsNoMatch(text);
    OutermostBraces(pre, mid, post);
    BraceStageCandidate(text, |pre|, |pre| + 1 + |mid|);
  }

  lemma NoCharAroundBraces(pre: string, mid: string, post: string, c: char)
    requires NoChar(pre, c) && NoChar(mid, c) && NoChar(post, c) && c != '{' && c != '}'
    ensures NoChar(pre + "{" + mid + "}" + post, c)
  {
    var text := pre + "{" + mid + "}" + post;
    var p := |pre|;
    var q := p + 1 + |mid|;
    forall j | 0 <= j < |text| ensures text[j] != c {
      if j < p {
        assert text[j] == pre[j];
      } else if p < j < q {
        assert text[j] == mid[j - p - 1];
      } else if q < j {
        assert text[j] == post[j - q - 1];
      }
    }
  }

  /** The first '{' and the last '}' of a text in which `pre` has no '{' and `post` no '}'. */
  lemma OutermostBraces(pre: string, mid: string, post: string)
    requires NoChar(pre, '{') && NoChar(post, '}')
    ensures var text := pre + "{" + mid + "}" + post;
      && IndexOf(text, "{", 0) == Some(|pre|)
      && LastIndexOf(text, '}') == Some(|pre| + 1 + |mid|)
      && text[|pre|..|pre| + |mid| + 2] == "{" + mid + "}"
  {
    var text := pre + "{" + mid + "}" + post;
    var p := |pre|;
    var q := p + 1 + |mid|;
    assert text[p] == '{' && text[q] == '}';
    forall j | 0 <= j < p ensures !OccursAt(text, "{", j) {
      assert text[j] == pre[j];
      CharOccurs(text, '{', j);
    }
    CharOccurs(text, '{', p);
    FirstOccurrence(text, "{", 0, p);
    forall j | q < j < |text| ensures text[j] != '}' {
      assert text[j] == post[j - q - 1];
    }
    LastOccurrence(text, '}', q);
    assert text[p..q + 1] == "{" + mid + "}";
  }

  /** `lastIndexOf` finds the occurrence that nothing after it follows. */
  lemma LastOccurrence(s: string, c: char, q: nat)
    requires q < |s| && s[q] == c && forall j :: q < j < |s| ==> s[j] != c
    ensures LastIndexOf(s, c) == Some(q)
  {
  }

  /** Whenever the fence pattern does not match, the candidate is the greedy span
      from the first '{' to the last '}', provided that '}' comes after the '{'. */
  lemma BraceStageCandidate(text: string, p: nat, q: nat)
    requires JsonFence(text).None?
    requires IndexOf(text, "{", 0) == Some(p) && LastIndexOf(text, '}') == Some(q) && p < q
    ensures Candidate(text) == text[p..q + 1]
  {
  }

  /** Whenever neither pattern matches, the whole answer is the candidate. */
  lemma WholeTextCandidate(text: string)
    requires JsonFence(text).None? && BraceSpan(text).None?
    ensures Candidate(text) == text
  {
  }

  /** Without "```json" the fence pattern does not match, whatever other fences the answer holds. */
  lemma NoJsonOpenerIsNoMatch(text: string)
    requires IndexOf(text, FenceOpen, 0).None?
    ensures JsonFence(text).None?
  {
  }

  /** An opening "```json" with no "```" after it is no match either: the answer
      goes on to the brace pattern. */
  lemma UnclosedFenceIsNoMatch(text: string, p: nat)
    requires IndexOf(text, FenceOpen, 0) == Some(p)
    requires IndexOf(text, FenceClose, p + |FenceOpen|).None?
    ensures JsonFence(text).None?
  {
    var e := SkipSpaces(text, p + |FenceOpen|);
    LaterSearchAbsent(text, FenceClose, p + |FenceOpen|, e);
  }

  /** Neither a fence nor a '{' .. '}' span: the whole text is parsed. */
  lemma PlainTextIsCandidate(text: string)
    requires NoChar(text, '`') && NoChar(text, '{')
    ensures Candidate(text) == text
  {
    AbsentPattern(text, FenceOpen, 0, 0);
    AbsentPattern(text, "{", 0, 0);
    WholeTextCandidate(text);
  }
}
