/** The pure steps of `POST /generate` and `POST /complete/:id`: the default
    exercise table, its fallback, and the owner-scoped match of a workout. */
module Workouts {
  import opened Common
  import opened Models

  const StrengthList: seq<Exercise> := [
    Exercise("Push-ups", 3, 12, 5, "Keep your core tight and back straight"),
    Exercise("Squats", 3, 15, 5, "Keep knees behind toes"),
    Exercise("Plank", 3, 1, 3, "Hold for 30-60 seconds"),
    Exercise("Lunges", 3, 10, 5, "Alternate legs, keep form tight"),
    Exercise("Dumbbell Rows", 3, 12, 5, "Pull to your hip, squeeze shoulder blades")
  ]

  const CardioList: seq<Exercise> := [
    Exercise("Jumping Jacks", 3, 30, 3, "Keep steady rhythm"),
    Exercise("High Knees", 3, 30, 3, "Drive knees up high"),
    Exercise("Burpees", 3, 10, 5, "Full body engagement"),
    Exercise("Mountain Climbers", 3, 20, 4, "Keep core tight")
  ]

  const YogaList: seq<Exercise> := [
    Exercise("Downward Dog", 3, 1, 3, "Hold for 30 seconds, breathe deeply"),
    Exercise("Warrior Pose", 3, 1, 3, "Hold each side for 30 seconds"),
    Exercise("Child's Pose", 2, 1, 4, "Relax and breathe"),
    Exercise("Tree Pose", 3, 1, 3, "Focus on balance")
  ]

  const FlexibilityList: seq<Exercise> := [
    Exercise("Hamstring Stretch", 3, 1, 3, "Hold 30 seconds each leg"),
    Exercise("Quad Stretch", 3, 1, 3, "Balance and stretch"),
    Exercise("Shoulder Stretch", 3, 1, 2, "Gentle pull across body"),
    Exercise("Hip Flexor Stretch", 3, 1, 3, "Lunge position, hold")
  ]

  /** The `defaultWorkouts` object; `custom` has no entry. */
  const DefaultWorkouts: map<string, seq<Exercise>> := map[
    "strength" := StrengthList,
    "cardio" := CardioList,
    "yoga" := YogaList,
    "flexibility" := FlexibilityList
  ]

  /** `defaultWorkouts[workoutType] || defaultWorkouts.strength` (every list is non-empty, so truthy). */
  function ExercisesFor(workoutType: Option<string>): (r: seq<Exercise>)
    ensures workoutType.Some? && workoutType.value in DefaultWorkouts ==> r == DefaultWorkouts[workoutType.value]
    ensures (workoutType.None? || workoutType.value !in DefaultWorkouts) ==> r == StrengthList
  {
    if workoutType.Some? && workoutType.value in DefaultWorkouts then DefaultWorkouts[workoutType.value]
    else DefaultWorkouts["strength"]
  }

  /** The table holds five strength exercises and four of each other kind, `custom`
      and a missing type fall back to strength, and every enum value gets a non-empty list. */
  lemma DefaultTable()
    ensures |StrengthList| == 5 && |CardioList| == 4 && |YogaList| == 4 && |FlexibilityList| == 4
    ensures DefaultWorkouts.Keys == {"strength", "cardio", "yoga", "flexibility"}
    ensures ExercisesFor(Some("custom")) == StrengthList && ExercisesFor(None) == StrengthList
    ensures forall t :: ExercisesFor(Some(WorkoutTypeName(t))) != []
  {
  }

  /** The filter `{_id: id, userId: uid}`. */
  predicate Matches(w: Workout, id: WorkoutId, uid: UserId)
  {
    w.id == id && w.userId == uid
  }

  /** The position `findOneAndUpdate` picks: the first matching workout. */
  function MatchIndex(ws: seq<Workout>, id: WorkoutId, uid: UserId): (r: Option<nat>)
    ensures r.Some? ==> r.value < |ws| && Matches(ws[r.value], id, uid)
    ensures r.None? ==> forall i :: 0 <= i < |ws| ==> !Matches(ws[i], id, uid)
  {
    if ws == [] then None
    else if Matches(ws[0], id, uid) then Some(0)
    else match MatchIndex(ws[1..], id, uid)
      case None => None
      case Some(i) => Some(i + 1)
  }

  /** Workout ids are unique. */
  ghost predicate DistinctIds(ws: seq<Workout>)
  {
    forall i, j :: 0 <= i < j < |ws| ==> ws[i].id != ws[j].id
  }

  /** With unique ids, the match is the only workout the filter selects. */
  lemma MatchIsUnique(ws: seq<Workout>, id: WorkoutId, uid: UserId)
    requires DistinctIds(ws) && MatchIndex(ws, id, uid).Some?
    ensures forall i :: 0 <= i < |ws| && Matches(ws[i], id, uid) ==> i == MatchIndex(ws, id, uid).value
  {
  }

  /** The update `{completed: true}` on the matched workout. */
  function MarkCompleted(ws: seq<Workout>, i: nat): (r: seq<Workout>)
    requires i < |ws|
    ensures |r| == |ws| && r[i] == ws[i].(completed := true)
    ensures forall j :: 0 <= j < |ws| && j != i ==> r[j] == ws[j]
    ensures DistinctIds(ws) ==> DistinctIds(r)
  {
    ws[i := ws[i].(completed := true)]
  }

  /** Completing again leaves the workouts as they were after the first time. */
  lemma MarkCompletedIdempotent(ws: seq<Workout>, i: nat)
    requires i < |ws|
    ensures MarkCompleted(MarkCompleted(ws, i), i) == MarkCompleted(ws, i)
  {
  }
}
