/**
 * Plain data of the workout application: the program / session / exercise
 * hierarchy and the workout-log records read back by the statistics panels.
 */
module Types {

  datatype Option<+T> = None | Some(value: T)

  /** The `reps` field: either a number or free text such as "12-15", "MAX" or "20/15/12". */
  datatype Reps = RepsCount(n: int) | RepsText(text: string)

  datatype SessionType = Upper | Lower | Full | Cardio | Other

  /**
   * One exercise of a session. `tempo`, `note` and `isBonus` are optional in the
   * source (an absent `isBonus` reads as false); `originalSets` is the field that
   * express mode adds to the exercises it rewrites.
   */
  datatype Exercise = Exercise(
    name: string,
    equip: string,
    sets: int,
    reps: Reps,
    tempo: Option<string>,
    rest: int,
    note: Option<string>,
    isBonus: bool,
    originalSets: Option<int>)

  datatype Session = Session(id: string, name: string, kind: SessionType, exercises: seq<Exercise>)

  /** A training cycle. */
  datatype Program = Program(title: string, description: string, sessions: seq<Session>)

  /** The detail a workout log may carry for one exercise (weight in kilograms). */
  datatype LoggedExercise = LoggedExercise(name: string, sets: int, reps: Reps, weight: real)

  /**
   * A row of the `workout_logs` store. `completedAt` is the completion instant in
   * seconds of local time; `durationMinutes` is None when the column is null.
   */
  datatype WorkoutLog = WorkoutLog(
    sessionName: string,
    durationMinutes: Option<int>,
    completedAt: int,
    exercises: Option<seq<LoggedExercise>>)

  const SecondsPerDay: int := 86400

  /** The calendar day (local midnight) of an instant, as a day number since the epoch. */
  function DayOf(t: int): int
  {
    t / SecondsPerDay
  }

  /** JavaScript `x || d` on a number that is never NaN: zero falls back to the default. */
  function OrDefault(x: int, d: int): int
  {
    if x == 0 then d else x
  }

  /** `log.duration_minutes || 0`. */
  function MinutesOf(log: WorkoutLog): int
  {
    match log.durationMinutes
    case None => 0
    case Some(m) => m
  }

  /** The sum of `duration_minutes || 0` over a list of logs (a `reduce` in the source). */
  function TotalMinutes(logs: seq<WorkoutLog>): int
  {
    if logs == [] then 0 else TotalMinutes(logs[..|logs| - 1]) + MinutesOf(logs[|logs| - 1])
  }

  /** Logs without a duration add nothing; with non-negative durations the total is not negative. */
  lemma {:induction false} TotalMinutesNonNegative(logs: seq<WorkoutLog>)
    requires forall i | 0 <= i < |logs| :: MinutesOf(logs[i]) >= 0
    ensures TotalMinutes(logs) >= 0
  {
    if logs != [] {
      TotalMinutesNonNegative(logs[..|logs| - 1]);
    }
  }
}
