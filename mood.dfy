/** The pure steps of `POST /log`: the defaults for sentiment and theme, how the
    model's answer can override them, and the reflection sentence. */
module Mood {
  import opened Common
  import opened Strings
  import opened Json

  const DefaultSentiment := JString("neutral")
  const DefaultTheme := JString("General wellbeing")

  /** `analysisText.replace(/```json|```/g, '')`: scanning left to right, an
      occurrence of "```json" is removed, else one of "```", else the character is kept. */
  function StripFences(s: string): (r: string)
    ensures |r| <= |s|
    decreases |s|
  {
    if |s| >= 7 && s[..7] == "```json" then StripFences(s[7..])
    else if |s| >= 3 && s[..3] == "```" then StripFences(s[3..])
    else if s == [] then []
    else [s[0]] + StripFences(s[1..])
  }

  /** "```json" starts with "```". */
  lemma JsonFenceIsFence(s: string)
    ensures |s| >= 7 && s[..7] == "```json" ==> |s| >= 3 && s[..3] == "```"
  {
    if |s| >= 7 {
      assert s[..3] == s[..7][..3];
    }
  }

  /** No "```" occurs in `s`. */
  predicate NoFence(s: string)
  {
    forall i :: 0 <= i <= |s| ==> !OccursAt(s, "```", i)
  }

  /** A character in front of a string without "```" adds at most an occurrence at index 0. */
  lemma ConsNoFence(c: char, t: string)
    requires NoFence(t) && !OccursAt([c] + t, "```", 0)
    ensures NoFence([c] + t)
  {
    var r := [c] + t;
    forall i | 0 < i <= |r| ensures !OccursAt(r, "```", i) {
      if i + 3 <= |r| {
        assert r[i..i + 3] == t[i - 1..i + 2];
        assert !OccursAt(t, "```", i - 1);
      }
    }
  }

  /** A string that does not start with "```" keeps its first character in front. */
  lemma StripKeepsHead(s: string)
    requires s != [] && !(|s| >= 3 && s[..3] == "```")
    ensures StripFences(s) == [s[0]] + StripFences(s[1..])
  {
    JsonFenceIsFence(s);
  }

  /** A character other than '`' is kept in front. */
  lemma PlainHead(s: string)
    requires s != [] && s[0] != '`'
    ensures StripFences(s) == [s[0]] + StripFences(s[1..])
  {
    if |s| >= 3 {
      assert s[..3][0] == s[0];
    }
    StripKeepsHead(s);
  }

  /** A position followed, within three characters, by something other than '`' starts no "```". */
  lemma NotFenceAt(r: string, i: nat, k: nat)
    requires k < 3 && i + k < |r| && r[i + k] != '`'
    ensures !OccursAt(r, "```", i)
  {
    if i + 3 <= |r| {
      assert r[i..i + 3][k] == r[i + k];
    }
  }

  /** A kept '`' never starts a "```" in the output: the input does not start with
      "```", so one of its next two characters is not '`' and is kept too. */
  lemma KeptBacktick(s: string)
    requires s != [] && s[0] == '`' && !(|s| >= 3 && s[..3] == "```")
    ensures !OccursAt([s[0]] + StripFences(s[1..]), "```", 0)
  {
    var rest := s[1..];
    var r := [s[0]] + StripFences(rest);
    if rest == [] {
      assert |r| == 1;
    } else if rest[0] != '`' {
      PlainHead(rest);
      assert r[1] == rest[0];
      NotFenceAt(r, 0, 1);
    } else if |rest| == 1 {
      assert StripFences(rest) == [rest[0]] + StripFences([]);
      assert |r| == 2;
    } else {
      assert s[..3] == [s[0], s[1], s[2]];
      assert rest[1] == s[2] && s[2] != '`';
      if |rest| >= 3 {
        assert rest[..3][1] == rest[1];
      }
      StripKeepsHead(rest);
      PlainHead(rest[1..]);
      assert r[2] == rest[1];
      NotFenceAt(r, 0, 2);
    }
  }

  /** After the pass no "```" is left. */
  lemma {:induction false} StripLeavesNoFence(s: string)
    ensures NoFence(StripFences(s))
    decreases |s|
  {
    if |s| >= 7 && s[..7] == "```json" {
      StripLeavesNoFence(s[7..]);
    } else if |s| >= 3 && s[..3] == "```" {
      StripLeavesNoFence(s[3..]);
    } else if s != [] {
      StripKeepsHead(s);
      StripLeavesNoFence(s[1..]);
      if s[0] == '`' {
        KeptBacktick(s);
      }
      ConsNoFence(s[0], StripFences(s[1..]));
    }
  }

  /** Text without backticks passes through unchanged. */
  lemma {:induction false} StripPlainPrefix(a: string, b: string)
    requires NoChar(a, '`')
    ensures StripFences(a + b) == a + StripFences(b)
    decreases |a|
  {
    if a == [] {
      assert a + b == b;
    } else {
      var s := a + b;
      assert s[0] == a[0];
      assert s[1..] == a[1..] + b;
      assert NoChar(a[1..], '`');
      calc {
        StripFences(s);
        { PlainHead(s); }
        [a[0]] + StripFences(a[1..] + b);
        { StripPlainPrefix(a[1..], b); }
        [a[0]] + (a[1..] + StripFences(b));
        { assert a == [a[0]] + a[1..]; }
        a + StripFences(b);
      }
    }
  }

  /** Removing the fences around a payload without backticks gives the payload back. */
  lemma FencedPayloadUnwrapped(payload: string)
    requires NoChar(payload, '`')
    ensures StripFences("```json" + payload + "```") == payload
  {
    var s := "```json" + payload + "```";
    assert s[..7] == "```json";
    assert s[7..] == payload + "```";
    StripPlainPrefix(payload, "```");
    assert StripFences("```") == "";
    assert payload + "" == payload;
  }

  /** The sentiment and theme the handler ends with. */
  datatype MoodFields = MoodFields(sentiment: Json, theme: Json)

  /** The AI block: it runs only with a configured key; any failure inside it
      (no reply text, text that does not parse) keeps both defaults; a parsed
      field replaces its default only when it is truthy. */
  function Enrich(keyConfigured: bool, reply: Reply, parse: string -> Option<Json>): (f: MoodFields)
    ensures Truthy(f.sentiment) && Truthy(f.theme)
    ensures !keyConfigured || !reply.Answered? ==> f == MoodFields(DefaultSentiment, DefaultTheme)
    ensures keyConfigured && reply.Answered? ==>
      var parsed := parse(Trim(StripFences(reply.text)));
      && (parsed.None? ==> f == MoodFields(DefaultSentiment, DefaultTheme))
      && (parsed.Some? ==>
            f.sentiment == Override(Field(parsed.value, "sentiment"), DefaultSentiment) &&
            f.theme == Override(Field(parsed.value, "theme"), DefaultTheme))
  {
    if !keyConfigured then MoodFields(DefaultSentiment, DefaultTheme)
    else match reply
      case Answered(text) =>
        (match parse(Trim(StripFences(text)))
         case None => MoodFields(DefaultSentiment, DefaultTheme)
         case Some(v) =>
           MoodFields(Override(Field(v, "sentiment"), DefaultSentiment), Override(Field(v, "theme"), DefaultTheme)))
      case _ => MoodFields(DefaultSentiment, DefaultTheme)
  }

  /** The two fields are overridden independently: a non-empty string in one
      replaces that default whatever the other holds, and a missing or empty
      field keeps its default. */
  lemma OverrideIndependent(keyConfigured: bool, text: string, parse: string -> Option<Json>, fields: map<string, Json>)
    requires keyConfigured && parse(Trim(StripFences(text))) == Some(JObject(fields))
    ensures "sentiment" in fields && fields["sentiment"].JString? && fields["sentiment"].s != "" ==>
      Enrich(keyConfigured, Answered(text), parse).sentiment == fields["sentiment"]
    ensures ("theme" !in fields || fields["theme"] == JString("")) ==>
      Enrich(keyConfigured, Answered(text), parse).theme == DefaultTheme
    ensures ("sentiment" !in fields || fields["sentiment"] == JString("")) ==>
      Enrich(keyConfigured, Answered(text), parse).sentiment == DefaultSentiment
  {
    var v := JObject(fields);
    var f := Enrich(keyConfigured, Answered(text), parse);
    assert f.sentiment == Override(Field(v, "sentiment"), DefaultSentiment);
    assert f.theme == Override(Field(v, "theme"), DefaultTheme);
  }

  /** The reflection sentence; `None` when `theme.toLowerCase()` throws because the theme is not a string. */
  function Reflection(sentimentText: string, theme: Json): (r: Option<string>)
    ensures r.Some? <==> theme.JString?
    ensures r.Some? ==> (r.value ==
      "I hear that you are feeling " + sentimentText + ". It seems like " + ToLower(theme.s) + " is on your mind.")
  {
    if theme.JString? then
      Some("I hear that you are feeling " + sentimentText + ". It seems like " + ToLower(theme.s) + " is on your mind.")
    else None
  }

  /** With the defaults the reflection speaks of "neutral" and "general wellbeing". */
  lemma DefaultReflection()
    ensures Reflection("neutral", DefaultTheme)
      == Some("I hear that you are feeling " + "neutral" + ". It seems like " + "general wellbeing" + " is on your mind.")
  {
    var t := ToLower("General wellbeing");
    assert forall i :: 0 <= i < |t| ==> t[i] == "general wellbeing"[i];
    assert t == "general wellbeing";
  }
}
