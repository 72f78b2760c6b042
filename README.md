# GuardianChain backend core in Dafny

This project models the GuardianChain backend, an Express server that rewards
wellness actions with Guardian Coins. Four route files and the Mongoose schemas
behind them are covered:

- the personality quiz, `POST /personality/submit`, with its archetype descriptions;
- the medical image analysis, `POST /medical/analyze` and `GET /medical/history`;
- the mood log, `POST /mood/log` and `GET /mood/history`;
- the workouts, `POST /workout/generate` and `POST /workout/complete/:id`.

The database is the class `Backend.Store`. It has one field per collection:

- `users`, a map from id to `User`;
- `workouts`, `analyses` and `moodLogs`, each a sequence of records in insertion order.

Each handler is a method on the store. It returns the handler's JSON response,
either `Success(body)` or `Failure(status, error)`. Its contract states the
store's new state on every path, in terms of pure functions; the lemmas in the
other modules are about those functions. Every handler keeps the store invariant
`Valid()`:

- every document satisfies its schema;
- emails are unique;
- no balance is negative;
- workout ids are distinct.

Every handler also never lowers a balance.

The outside world enters as parameters:

- the AI service is a function `gateway: Prompt -> Reply`, whose reply is a
  transport error, a non-OK response, or a text answer;
- whether `ANTHROPIC_API_KEY` is set is `keyConfigured`;
- `JSON.parse` is `parse: string -> Option<Json>`;
- the clock (`Date.now` defaults) is `now`;
- the document ids the driver generates are `id`;
- database failures are `storage`: `Healthy`, `RecordWriteFails` (the record's
  `save`/update rejects) or `CreditWriteFails` (the `$inc` on the user rejects).

Because `storage` is a parameter, the save-then-credit order of the handlers can
be observed. When the credit fails, the record stays saved and the user is not
credited.

Modules:

- `Common`: shared types.
- `Strings`: JavaScript whitespace, `trim` and `toLowerCase`, and substring search.
- `Json`: parsed values and JavaScript truthiness.
- `Models`: the four schemas.
- `Ledger`: the awards and the `$inc` credit.
- `History`: `find({userId}).sort({timestamp: -1}).limit(n)`.
- `Personality`: the quiz.
- `Medical`: the prompts and the two-regex extraction of the AI answer.
- `Mood`: fence stripping, the sentiment and theme enrichment, and the reflection text.
- `Workouts`: the exercise tables and completion.
- `Backend`: the store and its handlers.

## Behaviour worth knowing


- **Archetype labels.** They carry the article: `"The Solar Athlete"`, ….
- **Candidate choice.** The text handed to `JSON.parse` is chosen by which pattern matches, not by which text parses. A ```` ```json ```` fence whose body fails to parse goes straight to `{rawText, type}`; the brace span is not tried then.
- **Brace extraction.** The second extraction pattern `/\{[\s\S]*\}/` is greedy, not a balanced-brace scan. It runs from the first `{` to the last `}`, so two separate objects in one answer give one span.
- **No shape check.** Nothing checks the parsed value's shape: any value `JSON.parse` accepts is stored as the analysis. The exception is `null`, which the required `analysis` path rejects, so that request ends with a 500.
- **Completion.** Completing a workout sets `completed` again on every call, and every call credits another 30 coins.
- **Quiz.** Submitting the quiz again credits another 100.
- **Credits.** The credit has no negative-amount check, since every amount is a fixed positive constant. Its new balance is not used by any handler.
- **AI failures in `/medical/analyze`.** A non-OK reply answers `"AI analysis failed"`. A transport failure answers the generic `"Analysis failed"`. Neither persists nor credits anything.
- **Non-string mood theme.** In `/mood/log`, an AI theme that is truthy but not a string (a number, `true`, an array, an object) behaves two ways. A number or `true` is saved as its text and credited. The handler then fails with a 500 at `theme.toLowerCase()`. An array or object theme makes the String cast throw at `save`, so the handler answers 500 with nothing saved and nothing credited.
- **Non-string mood fields.** `mood` and `moodText` are JSON values. A truthy number or `true` passes the 400 check, is saved as its text and is credited. A response echoes the value as sent. An array or object passes the 400 check too, but the String cast of the schema throws at `save`, so the handler answers 500 with nothing saved.
- **Non-array answers.** A quiz body whose `answers` is `true` or a non-zero number passes the length check, because `undefined < 4` is false. It yields four traits of 50 and so The Balanced Guardian with 100 coins. This case is outside the model (see below).

## Model

| member | source | states |
|---|---|---|
| Strings.Trim | backend/routes/mood.js:44 | the result has no leading or trailing JavaScript whitespace; it is a prefix of what is left once the leading whitespace run is dropped, and only whitespace follows it there |
| Strings.TrimStart | backend/routes/mood.js:44 | the result is a suffix of the input, only whitespace was dropped, and it does not start with whitespace |
| Strings.TrimEnd | backend/routes/mood.js:44 | the result is a prefix of the input, only whitespace was dropped, and it does not end with whitespace |
| Strings.TrimPadded | backend/routes/mood.js:44 | trimming whitespace-padded trimmed text gives back exactly that text |
| Strings.TrimOfTrimmed | backend/models/user.js:9 | trim changes nothing on text without surrounding whitespace |
| Strings.ToLower | backend/models/user.js:8 | same length, every character mapped through the letter lower-casing |
| Strings.IndexOf | backend/routes/medical.js:108 | the first position at or after `from` where the pattern occurs, or none when it occurs nowhere there |
| Strings.LastIndexOf | backend/routes/medical.js:109 | the last position holding the character, or none when it is absent |
| Strings.SkipSpaces | backend/routes/medical.js:108 | the `\s*` after the opening fence: the end of the whitespace run |
| Strings.FirstOccurrence | backend/routes/medical.js:108 | a match position with no earlier match is what the search returns |
| Strings.NatToDecimal | backend/models/MoodLog.js:17-22 | the digits of a natural number, with no leading zero, denote that number |
| Strings.IntToDecimal | backend/models/MoodLog.js:9-22 | `String(n)`: a minus sign exactly for a negative number, then digits denoting its magnitude, with no leading zero unless `n` is 0 |
| Models.NormalizeEmail | backend/models/user.js:4-10 | the `lowercase` and `trim` setters give a trimmed, lower-case email |
| Models.NormalizedEmailIsFixed | backend/models/user.js:8-9 | a trimmed lower-case email is stored as given |
| Models.NormalizeEmailIdempotent | backend/models/user.js:8-9 | setting an email twice equals setting it once |
| Models.NewUser | backend/models/user.js:3-41 | the document saves exactly when email (after setters), password and name are non-empty, and then has 0 coins, null archetype, zero traits, quiz not completed, and `createdAt` now |
| Models.ParseWorkoutType | backend/models/Workout.js:9-13 | a string is accepted exactly when it is one of the five enum names |
| Models.NewWorkout | backend/models/Workout.js:3-29 | the workout saves exactly when `workoutType` is present and in the enum, and then is not completed and holds the given exercises |
| Models.ParseImageType | backend/routes/medical.js:25 | accepted exactly when the field is `xray`, `prescription` or `report` |
| Models.NewMedicalAnalysis | backend/models/MedicalAnalysis.js:3-26 | the record saves exactly when the analysis is not null, and then has the coins given or the default 25 |
| Models.CastString | backend/models/MoodLog.js:9-22 | the String cast rejects exactly arrays and objects; it stores a string unchanged, a number as `String(n)` and a boolean as "true" or "false"; `null` leaves the path unset |
| Models.CastScalarExamples | backend/models/MoodLog.js:9-16 | a mood of `5` is stored as "5", `-12` as "-12", and `true` as "true" |
| Models.OptionalString | backend/models/MoodLog.js:17-22 | an absent or null value leaves the path unset; a string is stored as is; a number or boolean is stored as its `String` text. Arrays and objects, which Mongoose rejects with a CastError, are ruled out by `NewMoodLog` before this is used |
| Models.RequiredString | backend/models/MoodLog.js:9-16 | a required path holds a value exactly when its cast succeeds and is not empty; a string passes exactly when it is non-empty |
| Models.NewMoodLog | backend/models/MoodLog.js:3-27 | the log saves exactly when mood and moodText cast to non-empty text and neither optional value is an array or object, and then holds the cast values |
| Ledger.Credit | backend/routes/medical.js:130-132 | `$inc` adds the amount to that user only; an unknown id changes nothing |
| Ledger.CreditKeepsValid | backend/routes/mood.js:63-65 | a credit keeps the user collection valid and lowers no balance |
| Ledger.SameAccountsKeepValid | backend/models/user.js:3-41 | an update that keeps email, password and name and lowers no balance keeps the collection valid |
| Ledger.SameAccountsKeepDocuments | backend/models/user.js:3-41 | such an update keeps every document schema-valid with a non-negative balance |
| Ledger.SameAccountsKeepEmails | backend/models/user.js:7 | such an update keeps the emails unique |
| Ledger.AddUserKeepsValid | backend/models/user.js:3-41 | saving a valid user under an unused id and email keeps the collection valid |
| Ledger.AddUserKeepsDocuments | backend/models/user.js:3-41 | adding a valid document keeps every document valid |
| Ledger.AddUserKeepsEmails | backend/models/user.js:7 | adding a user with an unused email keeps emails unique |
| Ledger.CreditSameAccounts | backend/routes/workout.js:81-83 | a credit changes no account's identity and lowers no balance |
| Ledger.CreditsCommute | backend/routes/workout.js:52-54 | two credits give the same collection in either order |
| Ledger.CreditTimesAdds | backend/routes/mood.js:63-65 | n credits of an amount add exactly n times the amount to that user and touch nobody else |
| History.Owned | backend/routes/medical.js:151 | the filter keeps exactly the caller's records, with their multiplicities |
| History.Insert | backend/routes/medical.js:152 | inserting into a newest-first list keeps it newest-first and adds exactly that record |
| History.SortNewestFirst | backend/routes/medical.js:152 | the result is newest-first and a permutation of the input |
| History.PrefixIsNewest | backend/routes/medical.js:153 | no record cut off by the limit is newer than a kept one |
| History.PrefixOf | backend/routes/medical.js:153 | a prefix of a newest-first list is newest-first and a sub-multiset |
| History.Query | backend/routes/mood.js:89-91 | only the caller's records, newest first, `min(owned, limit)` of them, and none left out is newer than one returned |
| Personality.Score | backend/routes/personality.js:17-20 | `answers[i] \|\| 50`: the answer when truthy, 50 for null/absent or 0 |
| Personality.TraitsOf | backend/routes/personality.js:11-21 | rejected exactly when the answers are missing or fewer than four; otherwise the four scores |
| Personality.ExtraAnswersIgnored | backend/routes/personality.js:16-21 | answers after the fourth do not change the traits |
| Personality.Classify | backend/routes/personality.js:24-34 | each of the four labels is given only when both of its traits pass their thresholds |
| Personality.FirstFiring | backend/routes/personality.js:26-34 | the index of the first rule whose two strict tests pass, and no earlier rule passes |
| Personality.ClassifyIsFirstMatch | backend/routes/personality.js:24-34 | the if/else-if chain equals the ordered first-match rule table |
| Personality.ClassifyMeaning | backend/routes/personality.js:24-34 | Balanced Guardian exactly when no rule fires; any other archetype means its rule fires and no earlier one does |
| Personality.SolarBeforeHealer | backend/routes/personality.js:26-33 | traits meeting both the first and fourth rules give The Solar Athlete |
| Personality.BoundsAreStrict | backend/routes/personality.js:26-33 | for every trait vector, one of a rule's traits exactly at 70 (or an energy of exactly 30) keeps that rule's label from being given; all four traits at 70 give The Balanced Guardian |
| Personality.Description | backend/routes/personality.js:63-73 | the description is one of the five texts and never empty |
| Personality.DescriptionLookup | backend/routes/personality.js:64-72 | the five labels are the table's keys; a label gets its own text and an unknown tag gets the Balanced Guardian text |
| Personality.DescriptionsDistinct | backend/routes/personality.js:64-70 | different archetypes have different descriptions |
| Personality.RecordQuiz | backend/routes/personality.js:37-46 | only the caller's document changes; the key set is unchanged |
| Personality.RecordQuizIsCredit | backend/routes/personality.js:37-46 | the update stores traits, label and `quizCompleted`, adds 100 coins, keeps the collection valid and lowers no balance |
| Personality.QuizSameAccounts | backend/routes/personality.js:37-46 | the quiz update keeps every account's identity and lowers no balance |
| Personality.ResubmissionAwardsAgain | backend/routes/personality.js:43 | submitting twice awards 200 coins |
| Medical.PromptFor | backend/routes/medical.js:39-63 | the X-ray prompt exactly for `xray`; `prescription` and `report` both get the prescription prompt |
| Medical.AnalysisOf | backend/routes/medical.js:105-118 | structured exactly when the extracted candidate parses, with the parsed value; otherwise the fallback keeps the whole answer text and the image type |
| Medical.JsonFence | backend/routes/medical.js:108 | no match without a ```` ```json ````; a match runs from ```` ```json ```` to ```` ``` ````, occurs in the text, and its capture is a piece of the text without surrounding whitespace |
| Medical.FenceFromShape | backend/routes/medical.js:108 | after the first opener, `FenceFrom` fails exactly when no ```` ``` ```` follows it; its match starts at the opener |
| Medical.BraceSpan | backend/routes/medical.js:109 | a span starts with `{`, ends with `}` and is a piece of the text; there is none exactly when no `}` follows any `{` |
| Medical.Candidate | backend/routes/medical.js:108-110 | the text handed to `JSON.parse` is always a piece of the answer |
| Medical.BraceStageCandidate | backend/routes/medical.js:108-110 | for every text without a fence match: with a first `{` before the last `}`, the span between them is the candidate |
| Medical.WholeTextCandidate | backend/routes/medical.js:108-110 | for every text matching neither pattern, the whole text is the candidate |
| Medical.NoJsonOpenerIsNoMatch | backend/routes/medical.js:108 | without a ```` ```json ```` there is no fence match, so a plain ```` ``` ```` fence never matches |
| Medical.UnclosedFenceIsNoMatch | backend/routes/medical.js:108 | a ```` ```json ```` with no ```` ``` ```` after it gives no fence match |
| Medical.PlainFenceGoesToBraces | backend/routes/medical.js:108-110 | in text without the letter `j` (such as a plain ```` ``` ```` fence around `{1}`), the span from the first `{` to the last `}` is the candidate |
| Medical.OutermostBraces | backend/routes/medical.js:109 | the searches find the first `{` and the last `}` of a text shaped `pre{mid}post` |
| Medical.FenceAt | backend/routes/medical.js:108 | the fenced-block pattern's capture and whole match in terms of the first opening fence, the whitespace after it and the first closing fence |
| Medical.FenceRoundTrip | backend/routes/medical.js:108 | a JSON body wrapped in a ```` ```json ```` fence with whitespace padding is captured exactly |
| Medical.NoBacktickBeforeClose | backend/routes/medical.js:108 | no closing fence starts inside text without backticks |
| Medical.FencedPayloadIsCandidate | backend/routes/medical.js:108-110 | the fenced body is the text handed to `JSON.parse` |
| Medical.EmptyFenceGivesWholeMatch | backend/routes/medical.js:110 | an empty capture falls back to the whole fenced match |
| Medical.BraceSpanIsCandidate | backend/routes/medical.js:109-110 | worked case of the brace stage: in text without backticks, the span from the first `{` to the last `}` is handed to `JSON.parse` |
| Medical.PlainTextIsCandidate | backend/routes/medical.js:110 | worked case of the last stage: text without backticks or `{` is handed to `JSON.parse` whole |
| Mood.StripFences | backend/routes/mood.js:44 | removing fences never lengthens the text |
| Mood.ConsNoFence | backend/routes/mood.js:44 | a character that starts no fence in front of fence-free text keeps it fence-free |
| Mood.StripKeepsHead | backend/routes/mood.js:44 | a character that starts no fence is kept by the replacement |
| Mood.KeptBacktick | backend/routes/mood.js:44 | a backtick that starts no fence still starts none after the replacement |
| Mood.StripLeavesNoFence | backend/routes/mood.js:44 | no ```` ``` ```` is left once fences are removed |
| Mood.StripPlainPrefix | backend/routes/mood.js:44 | text without backticks passes through the replacement unchanged |
| Mood.FencedPayloadUnwrapped | backend/routes/mood.js:44 | a ```` ```json ```` fenced payload without backticks is unwrapped to the payload |
| Mood.PlainHead | backend/routes/mood.js:44 | a first character other than a backtick is kept by the replacement |
| Mood.Enrich | backend/routes/mood.js:17-50 | sentiment and theme are always truthy; both defaults without a key, without an answer or when parsing fails; otherwise each parsed field overrides its default only when truthy |
| Mood.OverrideIndependent | backend/routes/mood.js:45-46 | a truthy parsed sentiment is taken and a missing or empty theme keeps its default, each independently of the other |
| Mood.Reflection | backend/routes/mood.js:77 | the text exists exactly when the theme is a string, and is the fixed sentence with the sentiment and the lower-cased theme |
| Mood.DefaultReflection | backend/routes/mood.js:17-18 | with the defaults the reflection mentions "neutral" and "general wellbeing" |
| Json.Override | backend/routes/mood.js:45-46 | `field \|\| current`: the field when truthy, otherwise the current value, and the result is truthy when either is |
| Workouts.ExercisesFor | backend/routes/workout.js:41 | the table entry for a known type, and the strength list for `custom`, unknown or missing types |
| Workouts.DefaultTable | backend/routes/workout.js:13-39 | the table has the four types with 5, 4, 4 and 4 exercises, and every enum type gets a non-empty list |
| Workouts.MatchIndex | backend/routes/workout.js:71-72 | the matching workout: one with that id owned by the caller, or none when no workout matches |
| Workouts.MatchIsUnique | backend/routes/workout.js:71-72 | with distinct ids the match is the only matching workout |
| Workouts.MarkCompleted | backend/routes/workout.js:73 | only that workout changes, to completed, and ids stay distinct |
| Workouts.MarkCompletedIdempotent | backend/routes/workout.js:73 | completing twice leaves the workout as completing once |
| Backend.Store.InsertUser | backend/models/user.js:3-41 | a schema failure or a duplicate id or email saves nothing; otherwise the normalised user is added under its id |
| Backend.EnrichMood | backend/routes/mood.js:17-50 | the handler's step-by-step AI block (defaults, then overrides from a parsed answer) ends with exactly the fields `Mood.Enrich` specifies |
| Backend.Store.SaveQuiz | backend/routes/personality.js:37-46 | the quiz update replaces the users map by the traits, label, completion flag and 100-coin credit applied to that user, keeps the invariant and lowers no balance |
| Backend.Store.SubmitQuiz | backend/routes/personality.js:7-60 | 400 for invalid answers, 500 with nothing changed on a database failure, otherwise the quiz update and the response with label, traits, 100 coins and description |
| Backend.Store.Analyze | backend/routes/medical.js:15-146 | 400 without a file or with a bad type, 500 without a key, on a non-OK or failed AI call, or on a failed save, each with nothing changed; otherwise the record is appended, then 25 coins are credited |
| Backend.Store.MedicalHistory | backend/routes/medical.js:149-165 | the caller's ten newest analyses and their count |
| Backend.Store.LogMood | backend/routes/mood.js:8-84 | 400 unless mood and moodText are truthy; 500 with nothing changed when either is an array or object; otherwise the enriched log is appended, then 10 coins are credited, and the reflection or a 500 is answered |
| Backend.Store.MoodHistory | backend/routes/mood.js:87-103 | the caller's thirty newest mood logs and their count |
| Backend.Store.GenerateWorkout | backend/routes/workout.js:8-66 | a failed save changes nothing; otherwise the workout with the table's exercises is appended, then 20 coins are credited |
| Backend.Store.CompleteWorkout | backend/routes/workout.js:69-94 | 404 with nothing changed when the caller owns no workout with that id; otherwise it is marked completed, then 30 coins are credited |

## Left out

- HTTP details are not modelled: `express`, the JSON body, the `success: true` flag and the `details` fields of error responses. Handlers take decoded fields and return the status and error string.
- `authMiddleware` and the `req.user.id` it supplies are not modelled; that middleware is outside this model. The caller's id is a parameter.
- The multer upload (the 5 MB limit, the memory storage), the base64 encoding and the MIME type are left out. Only whether a file was uploaded matters to the handler's logic.
- The AI request bodies (model name, token budgets, the mood prompt text) and the network call are abstracted into `gateway`. The medical prompts are named, not spelled out.
- `JSON.parse` and the regular-expression engine are not modelled as such. Parsing is the parameter `parse`. The two extraction patterns and the fence-removal pattern are written out as string functions, with lemmas tying them to their matches.
- Numbers in JSON and in documents are integers. Fractions, exponents and `NaN` are left out.
- `Strings.ToLower` maps ASCII `A`–`Z` only. Lower-casing of other Unicode letters, and UTF-16 code units as opposed to characters, are not modelled.
- Personality.TraitsOf: answers are a list of numbers or nulls. A string or object `answers` (whose `length` and elements JavaScript would still read) is left out. So is `answers` given as `true` or a non-zero number, which passes the length check and scores 50 four times (The Balanced Guardian, 100 coins).
- Workouts.ExercisesFor: an object-prototype key such as `"toString"` as `workoutType` is left out. JavaScript would find it on the defaults object; it would then fail the enum check and return 500 in any case.
- Personality.Description: the prototype-key lookup of the descriptions object is left out as well. The handler only ever passes one of the five labels.
- Mongoose casting of `userId`/`_id` values is left out. That includes a malformed `:id` in `/complete/:id`, which Mongoose rejects with a 500, and the `_id` special case of the String cast.
- Models.CastString: objects with their own `toString` are left out. Plain objects and arrays are rejected.
- Database read failures on the two history routes, which answer 500 with "Failed to fetch history" or "Failed to fetch mood history", are left out. The queries are modelled as total.
- The relative order of history records with equal timestamps is whatever the database returns. The model fixes one order: later inserted first.
- Concurrency is left out: requests are sequential calls. `$inc` is atomic in MongoDB, and `Ledger.CreditsCommute` states the order independence that atomicity provides.
- The step-based reward tiers, distances and calories appear only in the client (`frontend/src/App.jsx`), not in the backend routes, so they are not modelled.
- `server.js` only connects to the database named by `MONGO_URI` and mounts the routes; it is context, outside this model. So are `Activity.js`, `App.jsx` and `api.js`. The store's constructor only shows that an empty database meets `Valid()`.
- Backend.Store.InsertUser: password hashing and the registration route are outside this model. Only the schema's own validation and unique indexes are modelled.
- Backend.Store.LogMood: for an array or object `mood` or `moodText` the AI request is not made in the model. The source sends it first, but its answer cannot change the 500 that the cast causes; the prompt text of such a value is not modelled.
- Mood.StripFences: its contract only bounds the length; what the replacement keeps and removes is stated by the lemmas beside it.
- Backend.Store.Analyze: an OK reply whose first content block has no string `text` is left out. The source reads `undefined` there, `analysisText.match` then throws inside the parse `try`, and the fallback `{rawText: undefined, type}` is saved, credited with 25 coins and answered with a 200. `Reply` cannot express that reply. In `/mood/log` the same reply keeps the defaults, as `Mood.Enrich` does for a failed parse.
- Backend.Store.GenerateWorkout: `duration` and `fitnessLevel` are read and never used, as in the handler.
