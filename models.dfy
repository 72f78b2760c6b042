/** The four Mongoose schemas the handlers write: `User`, `Workout`,
    `MedicalAnalysis` and `MoodLog`. Each schema is a datatype, a validity
    predicate for what a stored document satisfies, and a constructor function
    that applies the schema's setters, defaults and validators the way a `save`
    of a new document does (`None` when validation or casting throws). */
module Models {
  import opened Common
  import opened Strings
  import opened Json

  // ----- User (backend/models/user.js) -----

  /** The four personality scores, documented as 0-100 but not range-checked. */
  datatype Traits = Traits(energy: int, social: int, planning: int, thinking: int)

  const DefaultTraits := Traits(0, 0, 0, 0)

  datatype User = User(
    email: string,
    password: string,
    name: string,
    guardianCoins: int,
    archetype: Option<string>,
    personalityTraits: Traits,
    quizCompleted: bool,
    createdAt: Timestamp)

  /** The `lowercase` and `trim` setters of the email path. */
  function NormalizeEmail(s: string): (r: string)
    ensures Trimmed(r) && LowerCased(r)
  {
    ToLowerIsLowerCased(s);
    TrimKeepsLowerCased(ToLower(s));
    Trim(ToLower(s))
  }

  lemma TrimKeepsLowerCased(l: string)
    requires LowerCased(l)
    ensures LowerCased(Trim(l))
  {
    var t := TrimStart(l);
    SuffixKeepsLowerCased(l, |l| - |t|);
    PrefixKeepsLowerCased(t, |Trim(l)|);
  }

  lemma ToLowerIsLowerCased(s: string)
    ensures LowerCased(ToLower(s))
  {
  }

  /** A suffix of lower-case text is lower-case. */
  lemma SuffixKeepsLowerCased(l: string, k: nat)
    requires LowerCased(l) && k <= |l|
    ensures LowerCased(l[k..])
  {
    forall i | 0 <= i < |l| - k ensures !('A' <= l[k..][i] <= 'Z') {
      assert l[k..][i] == l[k + i];
    }
  }

  /** A prefix of lower-case text is lower-case. */
  lemma PrefixKeepsLowerCased(l: string, n: nat)
    requires LowerCased(l) && n <= |l|
    ensures LowerCased(l[..n])
  {
    forall i | 0 <= i < n ensures !('A' <= l[..n][i] <= 'Z') {
      assert l[..n][i] == l[i];
    }
  }

  /** Lower-casing a string without upper-case letters changes nothing. */
  lemma ToLowerOfLowerCased(s: string)
    requires LowerCased(s)
    ensures ToLower(s) == s
  {
    forall i | 0 <= i < |s| ensures ToLower(s)[i] == s[i] {
      assert !('A' <= s[i] <= 'Z');
    }
  }

  /** The setters leave an email that is already trimmed and lower-case unchanged. */
  lemma NormalizedEmailIsFixed(s: string)
    requires Trimmed(s) && LowerCased(s)
    ensures NormalizeEmail(s) == s
  {
    ToLowerOfLowerCased(s);
    TrimOfTrimmed(s);
  }

  /** Setting an email twice stores the same value as setting it once. */
  lemma NormalizeEmailIdempotent(s: string)
    ensures NormalizeEmail(NormalizeEmail(s)) == NormalizeEmail(s)
  {
    NormalizedEmailIsFixed(NormalizeEmail(s));
  }

  /** A stored user document: the three required strings are present and the
      email has the form the setters give it. */
  predicate ValidUser(u: User)
  {
    u.email != "" && Trimmed(u.email) && LowerCased(u.email) && u.password != "" && u.name != ""
  }

  /** `new User({email, password, name}).save()` of a fresh document; `None` is a
      validation error. A required String rejects a missing or empty value, and
      the email is checked after its setters ran. */
  function NewUser(email: Option<string>, password: Option<string>, name: Option<string>, now: Timestamp): (r: Option<User>)
    ensures r.Some? <==>
      email.Some? && NormalizeEmail(email.value) != "" &&
      password.Some? && password.value != "" && name.Some? && name.value != ""
    ensures r.Some? ==>
      ValidUser(r.value) && r.value.email == NormalizeEmail(email.value) &&
      r.value.password == password.value && r.value.name == name.value &&
      r.value.guardianCoins == 0 && r.value.archetype == None &&
      r.value.personalityTraits == DefaultTraits && !r.value.quizCompleted && r.value.createdAt == now
  {
    if email.Some? && password.Some? && name.Some? then
      var e := NormalizeEmail(email.value);
      if e != "" && password.value != "" && name.value != "" then
        Some(User(e, password.value, name.value, 0, None, DefaultTraits, false, now))
      else None
    else None
  }

  // ----- Workout (backend/models/Workout.js) -----

  datatype WorkoutType = Strength | Cardio | Yoga | Flexibility | Custom

  /** The enum value as stored. */
  function WorkoutTypeName(t: WorkoutType): string
  {
    match t
    case Strength => "strength"
    case Cardio => "cardio"
    case Yoga => "yoga"
    case Flexibility => "flexibility"
    case Custom => "custom"
  }

  /** The `enum` validator of `workoutType`. */
  function ParseWorkoutType(s: string): (r: Option<WorkoutType>)
    ensures r.Some? ==> WorkoutTypeName(r.value) == s
    ensures r.None? ==> forall t :: WorkoutTypeName(t) != s
  {
    if s == "strength" then Some(Strength)
    else if s == "cardio" then Some(Cardio)
    else if s == "yoga" then Some(Yoga)
    else if s == "flexibility" then Some(Flexibility)
    else if s == "custom" then Some(Custom)
    else None
  }

  datatype Exercise = Exercise(name: string, sets: int, reps: int, duration: int, focusTip: string)

  datatype Workout = Workout(
    id: WorkoutId,
    userId: UserId,
    workoutType: WorkoutType,
    exercises: seq<Exercise>,
    completed: bool,
    createdAt: Timestamp)

  /** `new Workout({userId, workoutType, exercises}).save()`: `workoutType` is
      required and must be one of the enum's names; `completed` defaults to false
      and `createdAt` to the time of creation. */
  function NewWorkout(id: WorkoutId, uid: UserId, workoutType: Option<string>, exercises: seq<Exercise>, now: Timestamp): (r: Option<Workout>)
    ensures r.Some? <==> workoutType.Some? && ParseWorkoutType(workoutType.value).Some?
    ensures r.Some? ==>
      r.value.id == id && r.value.userId == uid &&
      WorkoutTypeName(r.value.workoutType) == workoutType.value &&
      r.value.exercises == exercises && !r.value.completed && r.value.createdAt == now
  {
    if workoutType.None? then None
    else match ParseWorkoutType(workoutType.value)
      case None => None
      case Some(t) => Some(Workout(id, uid, t, exercises, false, now))
  }

  // ----- MedicalAnalysis (backend/models/MedicalAnalysis.js) -----

  datatype ImageType = Xray | Prescription | Report

  function ImageTypeName(t: ImageType): string
  {
    match t
    case Xray => "xray"
    case Prescription => "prescription"
    case Report => "report"
  }

  /** The membership test `['xray', 'prescription', 'report'].includes(imageType)`,
      which is also the schema's enum. */
  function ParseImageType(s: Option<string>): (r: Option<ImageType>)
    ensures r.Some? <==> s.Some? && s.value in {"xray", "prescription", "report"}
    ensures r.Some? ==> ImageTypeName(r.value) == s.value
  {
    if s == Some("xray") then Some(Xray)
    else if s == Some("prescription") then Some(Prescription)
    else if s == Some("report") then Some(Report)
    else None
  }

  /** The stored `analysis` object: what `JSON.parse` produced, or the
      `{rawText, type}` object built when parsing fails. */
  datatype Analysis = Structured(value: Json) | Fallback(rawText: string, kind: ImageType)

  datatype MedicalAnalysis = MedicalAnalysis(
    userId: UserId,
    imageType: ImageType,
    analysis: Analysis,
    coinsEarned: int,
    timestamp: Timestamp)

  /** `analysis` is a required Mixed path, so `null` is rejected. */
  predicate ValidAnalysis(m: MedicalAnalysis)
  {
    m.analysis != Structured(JNull)
  }

  const DefaultAnalysisCoins := 25

  /** `new MedicalAnalysis({...}).save()`: `coinsEarned` defaults to 25 and
      `timestamp` to the time of creation. */
  function NewMedicalAnalysis(uid: UserId, t: ImageType, analysis: Analysis, coinsEarned: Option<int>, now: Timestamp): (r: Option<MedicalAnalysis>)
    ensures r.Some? <==> analysis != Structured(JNull)
    ensures r.Some? ==>
      ValidAnalysis(r.value) && r.value.userId == uid && r.value.imageType == t &&
      r.value.analysis == analysis && r.value.timestamp == now &&
      r.value.coinsEarned == (if coinsEarned.Some? then coinsEarned.value else DefaultAnalysisCoins)
  {
    if analysis == Structured(JNull) then None
    else
      var coins := if coinsEarned.Some? then coinsEarned.value else DefaultAnalysisCoins;
      Some(MedicalAnalysis(uid, t, analysis, coins, now))
  }

  // ----- MoodLog (backend/models/MoodLog.js) -----

  datatype MoodLog = MoodLog(
    userId: UserId,
    mood: string,
    moodText: string,
    sentiment: Option<string>,
    theme: Option<string>,
    timestamp: Timestamp)

  /** `mood` and `moodText` are required Strings. */
  predicate ValidMoodLog(m: MoodLog)
  {
    m.mood != "" && m.moodText != ""
  }

  /** What Mongoose's cast to a String path makes of a value. */
  datatype StringCast = Stored(text: string) | Nulled | Rejected

  /** Numbers and booleans become their text, `null` leaves the path unset, and
      arrays and plain objects throw a CastError. */
  function CastString(v: Json): (r: StringCast)
    ensures r.Rejected? <==> v.JArray? || v.JObject?
    ensures v.JString? ==> r == Stored(v.s)
    ensures v.JNumber? ==> r == Stored(IntToDecimal(v.n))
    ensures v.JBool? ==> r == Stored(if v.b then "true" else "false")
    ensures v.JNull? ==> r == Nulled
  {
    match v
    case JNull => Nulled
    case JBool(b) => Stored(if b then "true" else "false")
    case JNumber(n) => Stored(IntToDecimal(n))
    case JString(s) => Stored(s)
    case JArray(_) => Rejected
    case JObject(_) => Rejected
  }

  /** A mood of `5` is stored as "5", `-12` as "-12", and `true` as "true". */
  lemma CastScalarExamples()
    ensures CastString(JNumber(5)) == Stored("5")
    ensures CastString(JNumber(-12)) == Stored("-12")
    ensures CastString(JBool(true)) == Stored("true")
  {
    assert NatToDecimal(5) == "5";
    assert NatToDecimal(1) == "1";
    assert NatToDecimal(12) == "12";
  }

  /** The stored text of an optional String path given a value (`None` is `undefined`). */
  function OptionalString(v: Option<Json>): (r: Option<string>)
    ensures v.None? || v.value.JNull? || v.value.JArray? || v.value.JObject? ==> r.None?
    ensures v.Some? && v.value.JString? ==> r == Some(v.value.s)
    ensures v.Some? && v.value.JNumber? ==> r == Some(IntToDecimal(v.value.n))
    ensures v.Some? && v.value.JBool? ==> r == Some(if v.value.b then "true" else "false")
  {
    if v.Some? && CastString(v.value).Stored? then Some(CastString(v.value).text) else None
  }

  /** The stored text of a required String path: the cast must succeed and
      `required` refuses `null` and the empty string. */
  function RequiredString(v: Json): (r: Option<string>)
    ensures r.Some? <==> CastString(v).Stored? && CastString(v).text != ""
    ensures r.Some? ==> r.value == CastString(v).text
    ensures v.JString? ==> (r.Some? <==> v.s != "")
  {
    if CastString(v).Stored? && CastString(v).text != "" then Some(CastString(v).text) else None
  }

  /** `new MoodLog({userId, mood, moodText, sentiment, theme}).save()`. */
  function NewMoodLog(uid: UserId, mood: Json, moodText: Json, sentiment: Option<Json>, theme: Option<Json>, now: Timestamp): (r: Option<MoodLog>)
    ensures r.Some? <==>
      RequiredString(mood).Some? && RequiredString(moodText).Some? &&
      (sentiment.None? || !CastString(sentiment.value).Rejected?) &&
      (theme.None? || !CastString(theme.value).Rejected?)
    ensures r.Some? ==>
      ValidMoodLog(r.value) && r.value.userId == uid &&
      Some(r.value.mood) == RequiredString(mood) && Some(r.value.moodText) == RequiredString(moodText) &&
      r.value.timestamp == now &&
      r.value.sentiment == OptionalString(sentiment) && r.value.theme == OptionalString(theme)
  {
    var m := RequiredString(mood);
    var t := RequiredString(moodText);
    if m.None? || t.None? then None
    else if sentiment.Some? && CastString(sentiment.value).Rejected? then None
    else if theme.Some? && CastString(theme.value).Rejected? then None
    else Some(MoodLog(uid, m.value, t.value, OptionalString(sentiment), OptionalString(theme), now))
  }
}
