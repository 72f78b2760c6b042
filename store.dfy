/** The route handlers over the database: the user collection and one
    collection per record type, updated the way each handler's `save`,
    `findOneAndUpdate` and `findByIdAndUpdate` calls do. The AI service, the
    configured key, `JSON.parse`, the clock and database failures are inputs. */
module Backend {
  import opened Common
  import opened Json
  import opened Models
  import Strings
  import Ledger
  import History
  import Personality
  import Medical
  import Mood
  import Workouts

  const InvalidAnswers := "Invalid quiz answers"
  const QuizFailed := "Failed to process quiz"
  const NoImage := "No image uploaded"
  const BadImageType := "Invalid image type. Use: xray, prescription, or report"
  const NoApiKey := "Anthropic API key not configured"
  const AiFailed := "AI analysis failed"
  const AnalysisFailed := "Analysis failed"
  const Analyzed := "Image analyzed successfully!"
  const Disclaimer := "GuardianChain insights are AI-generated and do not replace professional medical advice. Please consult a healthcare provider."
  const MoodMissing := "Please provide mood and moodText"
  const MoodFailed := "Failed to log mood"
  const MoodLogged := "Mood logged successfully"
  const GenerateFailed := "Failed to generate workout"
  const WorkoutNotFound := "Workout not found"
  const CompleteFailed := "Failed to complete workout"
  const Completed := "Workout completed!"

  const MedicalHistoryLimit: nat := 10
  const MoodHistoryLimit: nat := 30

  datatype QuizResult = QuizResult(archetype: string, traits: Traits, coinsEarned: nat, description: string)
  datatype AnalysisResult = AnalysisResult(analysis: Analysis, coinsEarned: nat, message: string, disclaimer: string)
  datatype MoodResult = MoodResult(message: string, mood: Json, sentiment: Json, theme: Json,
                                   timestamp: Timestamp, coinsEarned: nat, reflection: string)
  datatype WorkoutResult = WorkoutResult(workout: Workout, coinsEarned: nat)
  datatype CompletionResult = CompletionResult(message: string, coinsEarned: nat)
  datatype Page<T> = Page(count: nat, items: seq<T>)

  /** The result of saving a new user document. */
  datatype Insertion = Inserted(id: UserId) | InvalidUser | DuplicateKey

  /** A body field that is present and truthy. */
  predicate Present(v: Option<Json>)
  {
    v.Some? && Truthy(v.value)
  }

  /** A present body field that the String cast of a schema path throws on. */
  predicate Uncastable(v: Option<Json>)
  {
    v.Some? && CastString(v.value).Rejected?
  }

  function AnalysisOwner(m: MedicalAnalysis): UserId { m.userId }
  function AnalysisTime(m: MedicalAnalysis): Timestamp { m.timestamp }
  function MoodOwner(m: MoodLog): UserId { m.userId }
  function MoodTime(m: MoodLog): Timestamp { m.timestamp }

  /** Some workout already has the id. */
  predicate IdTaken(ws: seq<Workout>, id: WorkoutId)
  {
    exists i :: 0 <= i < |ws| && ws[i].id == id
  }

  /** Every stored analysis passed the schema: its `analysis` is not null. */
  ghost predicate AnalysesValid(ms: seq<MedicalAnalysis>)
  {
    forall i :: 0 <= i < |ms| ==> ValidAnalysis(ms[i])
  }

  /** Every stored mood log passed the schema: `mood` and `moodText` are non-empty. */
  ghost predicate MoodLogsValid(ms: seq<MoodLog>)
  {
    forall i :: 0 <= i < |ms| ==> ValidMoodLog(ms[i])
  }

  /** Appending a log that passed the schema keeps every stored log valid. */
  lemma AppendMoodLogKeepsValid(ms: seq<MoodLog>, m: MoodLog)
    requires MoodLogsValid(ms) && ValidMoodLog(m)
    ensures MoodLogsValid(ms + [m])
  {
    assert forall i :: 0 <= i < |ms| ==> (ms + [m])[i] == ms[i];
  }

  /** The AI block of `POST /mood/log`, step by step: start from the defaults,
      and when the key is configured, the model answered and the cleaned answer
      parses, let each truthy field replace its default. */
  method EnrichMood(moodText: string, keyConfigured: bool, gateway: Prompt -> Reply, parse: string -> Option<Json>)
    returns (sentiment: Json, theme: Json)
    ensures Mood.MoodFields(sentiment, theme) == Mood.Enrich(keyConfigured, gateway(MoodPrompt(moodText)), parse)
  {
    ghost var f := Mood.Enrich(keyConfigured, gateway(MoodPrompt(moodText)), parse);
    sentiment, theme := Mood.DefaultSentiment, Mood.DefaultTheme;
    if keyConfigured {
      var reply := gateway(MoodPrompt(moodText));
      if reply.Answered? {
        var parsed := parse(Strings.Trim(Mood.StripFences(reply.text)));
        if parsed.Some? {
          sentiment := Override(Field(parsed.value, "sentiment"), sentiment);
          theme := Override(Field(parsed.value, "theme"), theme);
        }
      }
    }
    assert f == Mood.MoodFields(f.sentiment, f.theme);
  }

  class Store {
    var users: map<UserId, User>
    var workouts: seq<Workout>
    var analyses: seq<MedicalAnalysis>
    var moodLogs: seq<MoodLog>

    ghost predicate Valid()
      reads this
    {
      && Ledger.ValidUsers(users)
      && Workouts.DistinctIds(workouts)
      && AnalysesValid(analyses)
      && MoodLogsValid(moodLogs)
    }

    constructor ()
      ensures Valid()
      ensures users == map[] && workouts == [] && analyses == [] && moodLogs == []
    {
      users, workouts, analyses, moodLogs := map[], [], [], [];
    }

    /** `new User({email, password, name}).save()` with the `_id` the driver
        generated: schema validation, then the unique indexes on `_id` and `email`. */
    method InsertUser(id: UserId, email: Option<string>, password: Option<string>, name: Option<string>, now: Timestamp)
      returns (r: Insertion)
      requires Valid()
      modifies this
      ensures Valid()
      ensures workouts == old(workouts) && analyses == old(analyses) && moodLogs == old(moodLogs)
      ensures NewUser(email, password, name, now).None? ==> r == InvalidUser && users == old(users)
      ensures NewUser(email, password, name, now).Some? ==>
        var u := NewUser(email, password, name, now).value;
        && (r == DuplicateKey <==> id in old(users) || Ledger.EmailTaken(old(users), u.email))
        && (r == DuplicateKey ==> users == old(users))
        && (r != DuplicateKey ==> r == Inserted(id) && users == old(users)[id := u])
    {
      var u := NewUser(email, password, name, now);
      if u.None? {
        return InvalidUser;
      }
      if id in users || Ledger.EmailTaken(users, u.value.email) {
        return DuplicateKey;
      }
      Ledger.AddUserKeepsValid(users, id, u.value);
      users := users[id := u.value];
      return Inserted(id);
    }

    /** `POST /personality/submit`. */
    method SubmitQuiz(uid: UserId, answers: Option<seq<Option<int>>>, storage: Storage)
      returns (r: Response<QuizResult>)
      requires Valid()
      modifies this
      ensures Valid()
      ensures workouts == old(workouts) && analyses == old(analyses) && moodLogs == old(moodLogs)
      ensures Ledger.NoBalanceDecreased(old(users), users)
      ensures Personality.TraitsOf(answers).None? ==> r == Failure(400, InvalidAnswers) && users == old(users)
      ensures Personality.TraitsOf(answers).Some? && storage != Healthy ==>
        r == Failure(500, QuizFailed) && users == old(users)
      ensures Personality.TraitsOf(answers).Some? && storage == Healthy ==>
        var traits := Personality.TraitsOf(answers).value;
        var a := Personality.Classify(traits);
        && users == Personality.RecordQuiz(old(users), uid, traits, a)
        && r == Success(QuizResult(Personality.Name(a), traits, Ledger.QuizReward, Personality.Description(Personality.Name(a))))
    {
      var traits := Personality.TraitsOf(answers);
      if traits.None? {
        return Failure(400, InvalidAnswers);
      }
      var archetype := Personality.Classify(traits.value);
      if storage != Healthy {
        return Failure(500, QuizFailed);
      }
      SaveQuiz(uid, traits.value, archetype);
      var name := Personality.Name(archetype);
      return Success(QuizResult(name, traits.value, Ledger.QuizReward, Personality.Description(name)));
    }

    /** The `User.findByIdAndUpdate` of the quiz: traits, archetype, completion flag
        and the quiz award in one update; an unknown id changes nothing. */
    method SaveQuiz(uid: UserId, traits: Traits, a: Personality.Archetype)
      requires Valid()
      modifies this
      ensures Valid()
      ensures users == Personality.RecordQuiz(old(users), uid, traits, a)
      ensures workouts == old(workouts) && analyses == old(analyses) && moodLogs == old(moodLogs)
      ensures Ledger.NoBalanceDecreased(old(users), users)
    {
      Personality.RecordQuizIsCredit(users, uid, traits, a);
      users := Personality.RecordQuiz(users, uid, traits, a);
    }

    /** `POST /medical/analyze`: abort policy, so every failure before the save leaves the store as it was. */
    method Analyze(uid: UserId, hasFile: bool, imageType: Option<string>, keyConfigured: bool,
                   gateway: Prompt -> Reply, parse: string -> Option<Json>, storage: Storage, now: Timestamp)
      returns (r: Response<AnalysisResult>)
      requires Valid()
      modifies this
      ensures Valid()
      ensures workouts == old(workouts) && moodLogs == old(moodLogs)
      ensures Ledger.NoBalanceDecreased(old(users), users)
      ensures !hasFile ==> r == Failure(400, NoImage) && unchanged(this)
      ensures hasFile && ParseImageType(imageType).None? ==> r == Failure(400, BadImageType) && unchanged(this)
      ensures hasFile && ParseImageType(imageType).Some? && !keyConfigured ==>
        r == Failure(500, NoApiKey) && unchanged(this)
      ensures hasFile && ParseImageType(imageType).Some? && keyConfigured ==>
        var t := ParseImageType(imageType).value;
        var reply := gateway(Medical.PromptFor(t));
        && (reply.NotOk? ==> r == Failure(500, AiFailed) && unchanged(this))
        && (reply.TransportError? ==> r == Failure(500, AnalysisFailed) && unchanged(this))
        && (reply.Answered? ==>
              var rec := NewMedicalAnalysis(uid, t, Medical.AnalysisOf(reply.text, t, parse), Some(Ledger.MedicalReward), now);
              && (rec.None? || storage == RecordWriteFails ==> r == Failure(500, AnalysisFailed) && unchanged(this))
              && (rec.Some? && storage != RecordWriteFails ==>
                    && analyses == old(analyses) + [rec.value]
                    && (storage == CreditWriteFails ==> r == Failure(500, AnalysisFailed) && users == old(users))
                    && (storage == Healthy ==>
                          && users == Ledger.Credit(old(users), uid, Ledger.MedicalReward)
                          && r == Success(AnalysisResult(rec.value.analysis, Ledger.MedicalReward, Analyzed, Disclaimer)))))
    {
      if !hasFile {
        return Failure(400, NoImage);
      }
      var t := ParseImageType(imageType);
      if t.None? {
        return Failure(400, BadImageType);
      }
      if !keyConfigured {
        return Failure(500, NoApiKey);
      }
      var reply := gateway(Medical.PromptFor(t.value));
      if reply.NotOk? {
        return Failure(500, AiFailed);
      }
      if reply.TransportError? {
        return Failure(500, AnalysisFailed);
      }
      var analysis := Medical.AnalysisOf(reply.text, t.value, parse);
      var rec := NewMedicalAnalysis(uid, t.value, analysis, Some(Ledger.MedicalReward), now);
      if rec.None? || storage == RecordWriteFails {
        return Failure(500, AnalysisFailed);
      }
      analyses := analyses + [rec.value];
      if storage == CreditWriteFails {
        return Failure(500, AnalysisFailed);
      }
      Ledger.CreditKeepsValid(users, uid, Ledger.MedicalReward);
      users := Ledger.Credit(users, uid, Ledger.MedicalReward);
      return Success(AnalysisResult(analysis, Ledger.MedicalReward, Analyzed, Disclaimer));
    }

    /** `GET /medical/history`. */
    method MedicalHistory(uid: UserId) returns (page: Page<MedicalAnalysis>)
      ensures page.items == History.Query(analyses, AnalysisOwner, AnalysisTime, uid, MedicalHistoryLimit)
      ensures page.count == |page.items| <= MedicalHistoryLimit
    {
      var items := History.Query(analyses, AnalysisOwner, AnalysisTime, uid, MedicalHistoryLimit);
      return Page(|items|, items);
    }

    /** `POST /mood/log`: degrade policy, so a failed or absent AI answer still saves and credits.
        An array or object `mood` or `moodText` makes the save throw whatever the AI answers,
        so the model answers that 500 without building the prompt. */
    method LogMood(uid: UserId, mood: Option<Json>, moodText: Option<Json>, keyConfigured: bool,
                   gateway: Prompt -> Reply, parse: string -> Option<Json>, storage: Storage, now: Timestamp)
      returns (r: Response<MoodResult>)
      requires Valid()
      modifies this
      ensures Valid()
      ensures workouts == old(workouts) && analyses == old(analyses)
      ensures Ledger.NoBalanceDecreased(old(users), users)
      ensures !(Present(mood) && Present(moodText)) ==> r == Failure(400, MoodMissing) && unchanged(this)
      ensures Present(mood) && Present(moodText) && (Uncastable(mood) || Uncastable(moodText)) ==>
        r == Failure(500, MoodFailed) && unchanged(this)
      ensures Present(mood) && Present(moodText) && !Uncastable(mood) && !Uncastable(moodText) ==>
        var f := Mood.Enrich(keyConfigured, gateway(MoodPrompt(CastString(moodText.value).text)), parse);
        var log := NewMoodLog(uid, mood.value, moodText.value, Some(f.sentiment), Some(f.theme), now);
        && (log.None? || storage == RecordWriteFails ==> r == Failure(500, MoodFailed) && unchanged(this))
        && (log.Some? && storage != RecordWriteFails ==>
              && moodLogs == old(moodLogs) + [log.value]
              && log.value.sentiment.Some? && log.value.theme.Some?
              && (storage == CreditWriteFails ==> r == Failure(500, MoodFailed) && users == old(users))
              && (storage == Healthy ==>
                    && users == Ledger.Credit(old(users), uid, Ledger.MoodReward)
                    && r == match Mood.Reflection(log.value.sentiment.value, f.theme)
                            case None => Failure(500, MoodFailed)
                            case Some(text) =>
                              Success(MoodResult(MoodLogged, mood.value, f.sentiment, f.theme, now, Ledger.MoodReward, text))))
    {
      if !(Present(mood) && Present(moodText)) {
        return Failure(400, MoodMissing);
      }
      if Uncastable(mood) || Uncastable(moodText) {
        return Failure(500, MoodFailed);
      }
      var entry := CastString(moodText.value).text;
      var sentiment, theme := EnrichMood(entry, keyConfigured, gateway, parse);
      ghost var f := Mood.Enrich(keyConfigured, gateway(MoodPrompt(entry)), parse);
      assert f.sentiment == sentiment && f.theme == theme;
      var log := NewMoodLog(uid, mood.value, moodText.value, Some(sentiment), Some(theme), now);
      if log.None? || storage == RecordWriteFails {
        return Failure(500, MoodFailed);
      }
      AppendMoodLogKeepsValid(moodLogs, log.value);
      moodLogs := moodLogs + [log.value];
      if storage == CreditWriteFails {
        return Failure(500, MoodFailed);
      }
      Ledger.CreditKeepsValid(users, uid, Ledger.MoodReward);
      users := Ledger.Credit(users, uid, Ledger.MoodReward);
      var reflection := Mood.Reflection(log.value.sentiment.value, theme);
      if reflection.None? {
        return Failure(500, MoodFailed);
      }
      return Success(MoodResult(MoodLogged, mood.value, sentiment, theme, now, Ledger.MoodReward, reflection.value));
    }

    /** `GET /mood/history`. */
    method MoodHistory(uid: UserId) returns (page: Page<MoodLog>)
      ensures page.items == History.Query(moodLogs, MoodOwner, MoodTime, uid, MoodHistoryLimit)
      ensures page.count == |page.items| <= MoodHistoryLimit
    {
      var items := History.Query(moodLogs, MoodOwner, MoodTime, uid, MoodHistoryLimit);
      return Page(|items|, items);
    }

    /** `POST /workout/generate`, with the `_id` the driver generated; `duration`
        and `fitnessLevel` are read from the body and not used. */
    method GenerateWorkout(uid: UserId, id: WorkoutId, workoutType: Option<string>, duration: Option<int>,
                           fitnessLevel: Option<string>, storage: Storage, now: Timestamp)
      returns (r: Response<WorkoutResult>)
      requires Valid()
      modifies this
      ensures Valid()
      ensures analyses == old(analyses) && moodLogs == old(moodLogs)
      ensures Ledger.NoBalanceDecreased(old(users), users)
      ensures
        var w := NewWorkout(id, uid, workoutType, Workouts.ExercisesFor(workoutType), now);
        && (w.None? || IdTaken(old(workouts), id) || storage == RecordWriteFails ==>
              r == Failure(500, GenerateFailed) && unchanged(this))
        && (w.Some? && !IdTaken(old(workouts), id) && storage != RecordWriteFails ==>
              && workouts == old(workouts) + [w.value]
              && (storage == CreditWriteFails ==> r == Failure(500, GenerateFailed) && users == old(users))
              && (storage == Healthy ==>
                    users == Ledger.Credit(old(users), uid, Ledger.WorkoutReward) &&
                    r == Success(WorkoutResult(w.value, Ledger.WorkoutReward))))
    {
      var exercises := Workouts.ExercisesFor(workoutType);
      var w := NewWorkout(id, uid, workoutType, exercises, now);
      if w.None? || IdTaken(workouts, id) || storage == RecordWriteFails {
        return Failure(500, GenerateFailed);
      }
      workouts := workouts + [w.value];
      if storage == CreditWriteFails {
        return Failure(500, GenerateFailed);
      }
      Ledger.CreditKeepsValid(users, uid, Ledger.WorkoutReward);
      users := Ledger.Credit(users, uid, Ledger.WorkoutReward);
      return Success(WorkoutResult(w.value, Ledger.WorkoutReward));
    }

    /** `POST /workout/complete/:id`: only the caller's own workout with that id is
        updated, and every successful call credits the completion award. */
    method CompleteWorkout(uid: UserId, id: WorkoutId, storage: Storage) returns (r: Response<CompletionResult>)
      requires Valid()
      modifies this
      ensures Valid()
      ensures analyses == old(analyses) && moodLogs == old(moodLogs)
      ensures Ledger.NoBalanceDecreased(old(users), users)
      ensures storage == RecordWriteFails ==> r == Failure(500, CompleteFailed) && unchanged(this)
      ensures storage != RecordWriteFails && Workouts.MatchIndex(old(workouts), id, uid).None? ==>
        r == Failure(404, WorkoutNotFound) && unchanged(this)
      ensures storage != RecordWriteFails && Workouts.MatchIndex(old(workouts), id, uid).Some? ==>
        && workouts == Workouts.MarkCompleted(old(workouts), Workouts.MatchIndex(old(workouts), id, uid).value)
        && (storage == CreditWriteFails ==> r == Failure(500, CompleteFailed) && users == old(users))
        && (storage == Healthy ==>
              users == Ledger.Credit(old(users), uid, Ledger.CompletionReward) &&
              r == Success(CompletionResult(Completed, Ledger.CompletionReward)))
    {
      if storage == RecordWriteFails {
        return Failure(500, CompleteFailed);
      }
      var m := Workouts.MatchIndex(workouts, id, uid);
      if m.None? {
        return Failure(404, WorkoutNotFound);
      }
      workouts := Workouts.MarkCompleted(workouts, m.value);
      if storage == CreditWriteFails {
        return Failure(500, CompleteFailed);
      }
      Ledger.CreditKeepsValid(users, uid, Ledger.CompletionReward);
      users := Ledger.Credit(users, uid, Ledger.CompletionReward);
      return Success(CompletionResult(Completed, Ledger.CompletionReward));
    }
  }
}
