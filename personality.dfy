/** The personality quiz (`POST /submit`): answers become four traits, the
    traits an archetype through an ordered rule chain, and the result is written
    to the user together with the quiz award. */
module Personality {
  import opened Common
  import opened Models
  import Ledger

  datatype Archetype = SolarAthlete | LunarDreamer | StrategicSage | EmpathicHealer | BalancedGuardian

  /** The label stored and returned for an archetype. */
  function Name(a: Archetype): string
  {
    match a
    case SolarAthlete => "The Solar Athlete"
    case LunarDreamer => "The Lunar Dreamer"
    case StrategicSage => "The Strategic Sage"
    case EmpathicHealer => "The Empathic Healer"
    case BalancedGuardian => "The Balanced Guardian"
  }

  /** Score used when an answer is falsy. */
  const DefaultScore := 50

  /** `answers[i] || 50`: a missing answer (`None`, i.e. `null` or absent) and an answer of 0 both score 50. */
  function Score(answers: seq<Option<int>>, i: nat): (t: int)
    requires i < |answers|
    ensures answers[i].Some? && answers[i].value != 0 ==> t == answers[i].value
    ensures answers[i] == None || answers[i] == Some(0) ==> t == DefaultScore
  {
    match answers[i]
    case None => DefaultScore
    case Some(v) => if v != 0 then v else DefaultScore
  }

  /** The validation `!answers || answers.length < 4` and the trait scoring;
      `None` is the 400 response. Entries past the fourth are ignored. */
  function TraitsOf(answers: Option<seq<Option<int>>>): (r: Option<Traits>)
    ensures r.Some? <==> answers.Some? && |answers.value| >= 4
    ensures r.Some? ==>
      var a := answers.value;
      r.value == Traits(Score(a, 0), Score(a, 1), Score(a, 2), Score(a, 3))
  {
    if answers.None? || |answers.value| < 4 then None
    else
      var a := answers.value;
      Some(Traits(Score(a, 0), Score(a, 1), Score(a, 2), Score(a, 3)))
  }

  /** Only the first four answers matter. */
  lemma ExtraAnswersIgnored(a: seq<Option<int>>, extra: seq<Option<int>>)
    requires |a| == 4
    ensures TraitsOf(Some(a + extra)) == TraitsOf(Some(a))
  {
    var b := a + extra;
    assert b[0] == a[0] && b[1] == a[1] && b[2] == a[2] && b[3] == a[3];
  }

  /** The `if / else if` chain of the handler, with `'The Balanced Guardian'` as the initial value. */
  function Classify(t: Traits): (r: Archetype)
    ensures r == SolarAthlete ==> t.energy > 70 && t.social > 70
    ensures r == LunarDreamer ==> t.energy < 30 && t.planning > 70
    ensures r == StrategicSage ==> t.thinking > 70 && t.planning > 70
    ensures r == EmpathicHealer ==> t.social > 70 && t.thinking > 70
  {
    if t.energy > 70 && t.social > 70 then SolarAthlete
    else if t.energy < 30 && t.planning > 70 then LunarDreamer
    else if t.thinking > 70 && t.planning > 70 then StrategicSage
    else if t.social > 70 && t.thinking > 70 then EmpathicHealer
    else BalancedGuardian
  }

  // The same classification as an explicit ordered rule table.

  datatype TraitName = Energy | Social | Planning | Thinking

  /** A strict comparison of one trait with a bound. */
  datatype Test = Above(which: TraitName, bound: int) | Below(which: TraitName, bound: int)

  datatype Rule = Rule(first: Test, second: Test, outcome: Archetype)

  function TraitValue(t: Traits, k: TraitName): int
  {
    match k
    case Energy => t.energy
    case Social => t.social
    case Planning => t.planning
    case Thinking => t.thinking
  }

  predicate Passes(t: Traits, test: Test)
  {
    match test
    case Above(k, b) => TraitValue(t, k) > b
    case Below(k, b) => TraitValue(t, k) < b
  }

  predicate Fires(t: Traits, rule: Rule)
  {
    Passes(t, rule.first) && Passes(t, rule.second)
  }

  const Rules: seq<Rule> := [
    Rule(Above(Energy, 70), Above(Social, 70), SolarAthlete),
    Rule(Below(Energy, 30), Above(Planning, 70), LunarDreamer),
    Rule(Above(Thinking, 70), Above(Planning, 70), StrategicSage),
    Rule(Above(Social, 70), Above(Thinking, 70), EmpathicHealer)
  ]

  /** The index of the first rule that fires; later rules are never consulted. */
  function FirstFiring(rules: seq<Rule>, t: Traits): (r: Option<nat>)
    ensures r.Some? ==> r.value < |rules| && Fires(t, rules[r.value])
    ensures forall j :: 0 <= j < |rules| && (r.None? || j < r.value) ==> !Fires(t, rules[j])
  {
    if rules == [] then None
    else if Fires(t, rules[0]) then Some(0)
    else match FirstFiring(rules[1..], t)
      case None => None
      case Some(k) => Some(k + 1)
  }

  /** The label of the first firing rule, or the default. */
  function ByTable(rules: seq<Rule>, t: Traits): Archetype
  {
    match FirstFiring(rules, t)
    case None => BalancedGuardian
    case Some(k) => rules[k].outcome
  }

  /** The handler's chain is exactly first-match-wins over the rule table. */
  lemma ClassifyIsFirstMatch(t: Traits)
    ensures Classify(t) == ByTable(Rules, t)
  {
    assert Fires(t, Rules[0]) <==> t.energy > 70 && t.social > 70;
    assert Fires(t, Rules[1]) <==> t.energy < 30 && t.planning > 70;
    assert Fires(t, Rules[2]) <==> t.thinking > 70 && t.planning > 70;
    assert Fires(t, Rules[3]) <==> t.social > 70 && t.thinking > 70;
    var r := FirstFiring(Rules, t);
    if r.Some? {
      var k := r.value;
      assert k == 0 || k == 1 || k == 2 || k == 3;
    }
  }

  /** The archetype is the label of a rule that holds and that no earlier rule
      preempts, or the default when no rule holds. */
  lemma ClassifyMeaning(t: Traits)
    ensures Classify(t) == BalancedGuardian <==> forall j :: 0 <= j < |Rules| ==> !Fires(t, Rules[j])
    ensures forall k :: 0 <= k < |Rules| && Classify(t) == Rules[k].outcome ==>
      Fires(t, Rules[k]) && forall j :: 0 <= j < k ==> !Fires(t, Rules[j])
  {
    ClassifyIsFirstMatch(t);
    var r := FirstFiring(Rules, t);
    forall k | 0 <= k < |Rules| && Classify(t) == Rules[k].outcome
      ensures Fires(t, Rules[k]) && forall j :: 0 <= j < k ==> !Fires(t, Rules[j])
    {
      assert r.Some? && Rules[r.value].outcome == Rules[k].outcome;
      assert r.value == k;
    }
  }

  /** Order decides: traits that satisfy the first and fourth rules are a Solar Athlete. */
  lemma SolarBeforeHealer(t: Traits)
    requires t.energy > 70 && t.social > 70 && t.thinking > 70
    ensures Fires(t, Rules[0]) && Fires(t, Rules[3])
    ensures Classify(t) == SolarAthlete && Classify(t) != EmpathicHealer
  {
  }

  /** Every bound is strict: a trait of exactly 70 is not "high" and an energy of
      exactly 30 is not "low", so a rule with such a trait never gives its archetype. */
  lemma BoundsAreStrict(t: Traits)
    ensures (t.energy == 70 || t.social == 70) ==> Classify(t) != SolarAthlete
    ensures (t.energy == 30 || t.planning == 70) ==> Classify(t) != LunarDreamer
    ensures (t.thinking == 70 || t.planning == 70) ==> Classify(t) != StrategicSage
    ensures (t.social == 70 || t.thinking == 70) ==> Classify(t) != EmpathicHealer
    ensures t.energy == 70 && t.social == 70 && t.planning == 70 && t.thinking == 70 ==>
      Classify(t) == BalancedGuardian
  {
  }

  const BalancedText := "You maintain equilibrium across all aspects of life, bringing stability and adaptability to every challenge."

  /** The `descriptions` object of `getArchetypeDescription`. */
  const Descriptions: map<string, string> := map[
    "The Solar Athlete" := "You radiate energy and thrive in social, active environments. Your strength lies in motivation and physical vitality.",
    "The Lunar Dreamer" := "Introspective and thoughtful, you find power in quiet moments and careful planning. Your intuition guides you.",
    "The Strategic Sage" := "Analytical and organized, you excel at problem-solving and long-term planning. Your wisdom is your strength.",
    "The Empathic Healer" := "Socially aware and emotionally intelligent, you connect deeply with others and bring harmony to any situation.",
    "The Balanced Guardian" := BalancedText
  ]

  /** `descriptions[archetype] || descriptions['The Balanced Guardian']`. */
  function Description(name: string): (d: string)
    ensures d in Descriptions.Values && d != ""
  {
    if name in Descriptions then Descriptions[name] else Descriptions["The Balanced Guardian"]
  }

  /** The table has exactly the five labels, and the lookup is total: a label gets
      its own text, anything else the Balanced Guardian text. */
  lemma DescriptionLookup(name: string)
    ensures Descriptions.Keys == {Name(SolarAthlete), Name(LunarDreamer), Name(StrategicSage), Name(EmpathicHealer), Name(BalancedGuardian)}
    ensures (forall a :: Name(a) != name) ==> Description(name) == BalancedText
    ensures forall a :: Name(a) == name ==> Description(name) == Descriptions[Name(a)]
  {
  }

  /** Different archetypes are described differently. */
  lemma DescriptionsDistinct(a: Archetype, b: Archetype)
    requires a != b
    ensures Description(Name(a)) != Description(Name(b))
  {
  }

  /** `findByIdAndUpdate(uid, {personalityTraits, archetype, quizCompleted: true,
      $inc: {guardianCoins: 100}})`: one update; an unknown id changes nothing. */
  function RecordQuiz(users: map<UserId, User>, uid: UserId, traits: Traits, a: Archetype): (r: map<UserId, User>)
    ensures r.Keys == users.Keys
    ensures forall u :: u in users && u != uid ==> r[u] == users[u]
  {
    if uid in users then
      users[uid := users[uid].(personalityTraits := traits, archetype := Some(Name(a)), quizCompleted := true,
                               guardianCoins := users[uid].guardianCoins + Ledger.QuizReward)]
    else users
  }

  /** The quiz update is the profile change followed by a credit of the quiz award, keeps the
      collection valid, and never lowers a balance. */
  lemma RecordQuizIsCredit(users: map<UserId, User>, uid: UserId, traits: Traits, a: Archetype)
    requires Ledger.ValidUsers(users)
    ensures uid in users ==>
      RecordQuiz(users, uid, traits, a)[uid].guardianCoins == users[uid].guardianCoins + Ledger.QuizReward &&
      RecordQuiz(users, uid, traits, a)[uid].archetype == Some(Name(a)) &&
      RecordQuiz(users, uid, traits, a)[uid].personalityTraits == traits &&
      RecordQuiz(users, uid, traits, a)[uid].quizCompleted
    ensures Ledger.ValidUsers(RecordQuiz(users, uid, traits, a))
    ensures Ledger.NoBalanceDecreased(users, RecordQuiz(users, uid, traits, a))
  {
    QuizSameAccounts(users, uid, traits, a);
    Ledger.SameAccountsKeepValid(users, RecordQuiz(users, uid, traits, a));
  }

  lemma QuizSameAccounts(users: map<UserId, User>, uid: UserId, traits: Traits, a: Archetype)
    ensures Ledger.SameAccounts(users, RecordQuiz(users, uid, traits, a))
  {
  }

  /** Nothing checks `quizCompleted`: submitting twice awards the quiz twice. */
  lemma ResubmissionAwardsAgain(users: map<UserId, User>, uid: UserId, traits: Traits, a: Archetype)
    requires uid in users
    ensures RecordQuiz(RecordQuiz(users, uid, traits, a), uid, traits, a)[uid].guardianCoins
      == users[uid].guardianCoins + 2 * Ledger.QuizReward
  {
  }
}
