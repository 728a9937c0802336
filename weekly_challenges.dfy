/**
 * The weekly challenges of components/WeeklyChallenges.tsx: the Monday that
 * starts the current week, the days left in it, the draw of three challenges
 * from five templates, and the progress update from the week's workout logs.
 * Dates are day numbers; the shuffle and the random target draws are inputs.
 */
module WeeklyChallenges {
  import opened Types
  import opened Text

  // ---------------------------------------------------------------- calendar

  /** `getDay()` of a day number: 0 is Sunday; day 0 of the epoch was a Thursday. */
  function DayOfWeek(day: int): (w: nat)
    ensures w < 7
  {
    (day + 4) % 7
  }

  /** `getWeekStart`: a Sunday goes back six days, any other day back to its Monday. */
  function WeekStart(day: int): int
  {
    var dayOfWeek := DayOfWeek(day);
    day - dayOfWeek + (if dayOfWeek == 0 then -6 else 1)
  }

  /** `getDaysRemaining`: 0 on Sunday, otherwise the days left until Sunday. */
  function DaysRemaining(day: int): (n: nat)
    ensures n <= 6
  {
    var dayOfWeek := DayOfWeek(day);
    if dayOfWeek == 0 then 0 else 7 - dayOfWeek
  }

  /** The week starts on a Monday, at most six days back. */
  lemma WeekStartIsMonday(day: int)
    ensures DayOfWeek(WeekStart(day)) == 1
    ensures WeekStart(day) <= day <= WeekStart(day) + 6
  {
  }

  /** Every day of a week maps to the same Monday, so the start of a week is its own start. */
  lemma SameWeek(day: int, other: int)
    requires WeekStart(day) <= other <= WeekStart(day) + 6
    ensures WeekStart(other) == WeekStart(day)
  {
    var m := WeekStart(day);
    WeekStartIsMonday(day);
    var q := (m + 4) / 7;
    assert m + 4 == 7 * q + 1;
    var k := other - m;
    assert other + 4 == 7 * q + (1 + k);
    assert DayOfWeek(other) == (1 + k) % 7;
  }

  /** The days remaining reach the Sunday that ends the week. */
  lemma DaysRemainingReachSunday(day: int)
    ensures DaysRemaining(day) == WeekStart(day) + 6 - day
    ensures DayOfWeek(day + DaysRemaining(day)) == 0
  {
  }

  // --------------------------------------------------------------- challenges

  datatype Template = Template(
    id: string, title: string, description: string, icon: string, unit: string,
    min: int, max: int, reward: string)

  datatype Challenge = Challenge(
    id: string, title: string, description: string, icon: string,
    target: int, current: int, unit: string, reward: string, completed: bool)

  const TargetPlaceholder: string := "{target}"

  /** A description with the "{target}" placeholder between two fixed texts. */
  function Describe(before: string, after: string): string
  {
    before + TargetPlaceholder + after
  }

  const Templates: seq<Template> := [
    Template("sessions", "Régularité", Describe("Termine ", " séances cette semaine"),
      "\U{1F3CB}\U{FE0F}", "séances", 3, 5, "+100 XP"),
    Template("minutes", "Endurance", Describe("Accumule ", " minutes d'entraînement"),
      "\U{23F1}\U{FE0F}", "min", 90, 180, "Badge Marathonien"),
    Template("streak", "Streak Fire", Describe("Maintiens un streak de ", " jours"),
      "\U{1F525}", "jours", 3, 7, "Bouclier Streak"),
    Template("early", "Lève-tôt", Describe("Entraîne-toi avant 9h ", " fois"),
      "\U{1F305}", "fois", 2, 4, "+50 XP"),
    Template("complete", "Perfectionniste", Describe("Complète 100% des exercices ", " fois"),
      "\U{2728}", "fois", 2, 5, "Badge Perfectionniste")
  ]

  /** An ordering of the five templates (the outcome of the random shuffle). */
  predicate IsShuffle(order: seq<nat>)
  {
    && |order| == |Templates|
    && (forall k | 0 <= k < |order| :: order[k] < |Templates|)
    && (forall i, j | 0 <= i < j < |order| :: order[i] != order[j])
  }

  /** `Math.floor(r * (max - min + 1)) + min` for a draw `r` in [0, 1). */
  function DrawTarget(t: Template, r: real): (target: int)
    requires 0.0 <= r < 1.0 && t.min <= t.max
    ensures t.min <= target <= t.max
  {
    var span := t.max - t.min + 1;
    DrawBound(r, span);
    (r * span as real).Floor + t.min
  }

  lemma DrawBound(r: real, span: int)
    requires 0.0 <= r < 1.0 && span >= 1
    ensures 0 <= (r * span as real).Floor < span
  {
    assert r * span as real < span as real;
    assert r * span as real >= 0.0;
  }

  /** A fresh challenge from a template and its target. */
  function FromTemplate(t: Template, target: int): Challenge
  {
    Challenge(t.id, t.title, ReplaceFirst(t.description, TargetPlaceholder, IntToString(target)),
      t.icon, target, 0, t.unit, t.reward, false)
  }

  /**
   * `generateChallenges`: the first three templates of the shuffled order, each
   * with a target drawn in its range, no progress and not completed.
   */
  function GenerateChallenges(order: seq<nat>, draws: seq<real>): (r: seq<Challenge>)
    requires IsShuffle(order)
    requires |draws| == 3 && forall k | 0 <= k < 3 :: 0.0 <= draws[k] < 1.0
    ensures |r| == 3
    ensures forall k | 0 <= k < 3 ::
      var t := Templates[order[k]];
      && r[k].id == t.id && r[k].title == t.title && r[k].icon == t.icon
      && r[k].unit == t.unit && r[k].reward == t.reward
      && t.min <= r[k].target <= t.max
      && r[k].current == 0 && !r[k].completed
      && r[k].description == ReplaceFirst(t.description, TargetPlaceholder, IntToString(r[k].target))
  {
    var selected := order[..3];
    seq(3, k requires 0 <= k < 3 =>
      var t := Templates[selected[k]];
      FromTemplate(t, DrawTarget(t, draws[k])))
  }

  /** Where each template's description holds the "{target}" placeholder. */
  function PlaceholderAt(k: nat): nat
    requires k < |Templates|
  {
    [8, 9, 23, 22, 28][k]
  }

  /** A description whose placeholder sits at `i` with no '{' before it. */
  predicate PlaceholderFirstAt(d: string, i: nat)
  {
    i <= |d| && TargetPlaceholder <= d[i..] && forall j | 0 <= j < i :: d[j] != '{'
  }

  lemma DescribedPlaceholder(before: string, after: string)
    requires '{' !in before
    ensures PlaceholderFirstAt(Describe(before, after), |before|)
  {
    var d := Describe(before, after);
    assert d[|before|..] == TargetPlaceholder + after;
    forall j | 0 <= j < |before|
      ensures d[j] != '{'
    {
      assert d[j] == before[j];
    }
  }

  /** Each template holds the placeholder at its recorded position, and no '{' before it. */
  lemma PlaceholderInTemplate(k: nat)
    requires k < |Templates|
    ensures PlaceholderFirstAt(Templates[k].description, PlaceholderAt(k))
  {
    if k == 0 {
      DescribedPlaceholder("Termine ", " séances cette semaine");
    } else if k == 1 {
      DescribedPlaceholder("Accumule ", " minutes d'entraînement");
    } else if k == 2 {
      DescribedPlaceholder("Maintiens un streak de ", " jours");
    } else if k == 3 {
      DescribedPlaceholder("Entraîne-toi avant 9h ", " fois");
    } else {
      DescribedPlaceholder("Complète 100% des exercices ", " fois");
    }
  }

  /**
   * Every generated description shows the drawn target where its template had
   * the placeholder, the rest of the text unchanged.
   */
  lemma DescriptionShowsTarget(order: seq<nat>, draws: seq<real>, k: nat)
    requires IsShuffle(order)
    requires |draws| == 3 && forall i | 0 <= i < 3 :: 0.0 <= draws[i] < 1.0
    requires k < 3
    ensures var c := GenerateChallenges(order, draws)[k];
      var d := Templates[order[k]].description;
      var n := IntToString(c.target);
      var i := PlaceholderAt(order[k]);
      && i + |TargetPlaceholder| <= |d| && i + |n| <= |c.description|
      && c.description[..i] == d[..i]
      && c.description[i..i + |n|] == n
      && c.description[i + |n|..] == d[i + |TargetPlaceholder|..]
  {
    var c := GenerateChallenges(order, draws)[k];
    var t := Templates[order[k]];
    PlaceholderInTemplate(order[k]);
    ReplaceFirstAt(t.description, TargetPlaceholder, IntToString(c.target), PlaceholderAt(order[k]));
    FirstPlaceholder(order[k]);
  }

  /** No template has a placeholder before the one recorded. */
  lemma FirstPlaceholder(k: nat)
    requires k < |Templates|
    ensures Find(Templates[k].description, TargetPlaceholder) == Some(PlaceholderAt(k))
  {
    PlaceholderInTemplate(k);
    var d := Templates[k].description;
    ReplaceFirstAt(d, TargetPlaceholder, "", PlaceholderAt(k));
    var i := Find(d, TargetPlaceholder).value;
    assert d[i..][0] == TargetPlaceholder[0];
  }

  lemma TemplateIdsDistinct()
    ensures forall a, b | 0 <= a < b < |Templates| :: Templates[a].id != Templates[b].id
  {
    var ids := [Templates[0].id, Templates[1].id, Templates[2].id, Templates[3].id, Templates[4].id];
    assert ids[0][0] == 's' && ids[1][0] == 'm' && ids[2][0] == 's' && ids[3][0] == 'e' && ids[4][0] == 'c';
    assert ids[0][1] == 'e' && ids[2][1] == 't';
  }

  /** The template ids are distinct, so the three generated challenges are distinct ones. */
  lemma GeneratedIdsDistinct(order: seq<nat>, draws: seq<real>)
    requires IsShuffle(order)
    requires |draws| == 3 && forall k | 0 <= k < 3 :: 0.0 <= draws[k] < 1.0
    ensures forall i, j | 0 <= i < j < 3 ::
      GenerateChallenges(order, draws)[i].id != GenerateChallenges(order, draws)[j].id
  {
    var r := GenerateChallenges(order, draws);
    TemplateIdsDistinct();
    forall i, j | 0 <= i < j < 3
      ensures r[i].id != r[j].id
    {
      assert r[i].id == Templates[order[i]].id && r[j].id == Templates[order[j]].id;
      assert order[i] != order[j];
    }
  }

  // ----------------------------------------------------------------- progress

  /** The distinct calendar days of the logs. */
  function DistinctDayCount(logs: seq<WorkoutLog>): nat
  {
    |set k | 0 <= k < |logs| :: DayOf(logs[k].completedAt)|
  }

  /**
   * The raw progress of a challenge: the number of sessions, the minutes (a
   * missing duration counting 0), the number of distinct training days for the
   * streak, and for any other kind the session count capped at the target.
   */
  function RawProgress(c: Challenge, logs: seq<WorkoutLog>): int
  {
    if c.id == "sessions" then |logs|
    else if c.id == "minutes" then TotalMinutes(logs)
    else if c.id == "streak" then DistinctDayCount(logs)
    else if |logs| < c.target then |logs| else c.target
  }

  /** One challenge after the update: progress capped at the target, completed once the target is reached. */
  function Updated(c: Challenge, logs: seq<WorkoutLog>): (u: Challenge)
    ensures u.(current := c.current, completed := c.completed) == c
    ensures u.current <= c.target
    ensures u.completed <==> RawProgress(c, logs) >= c.target
    ensures u.completed ==> u.current == c.target
    ensures !u.completed ==> u.current == RawProgress(c, logs)
  {
    var current := RawProgress(c, logs);
    c.(current := if current < c.target then current else c.target, completed := current >= c.target)
  }

  /**
   * `updateProgress`: without a signed-in user or when the query returns no
   * list there is no update (None); otherwise every challenge is updated in
   * place, keeping the order.
   */
  function UpdateProgress(signedIn: bool, logs: Option<seq<WorkoutLog>>, challenges: seq<Challenge>): (r: Option<seq<Challenge>>)
    ensures r.None? <==> !signedIn || logs.None?
    ensures r.Some? ==> |r.value| == |challenges|
    ensures r.Some? ==> forall k | 0 <= k < |challenges| :: r.value[k] == Updated(challenges[k], logs.value)
  {
    if !signedIn || logs.None? then None
    else Some(seq(|challenges|, k requires 0 <= k < |challenges| => Updated(challenges[k], logs.value)))
  }

  /** Updating twice with the same logs is updating once. */
  lemma UpdateIdempotent(logs: seq<WorkoutLog>, challenges: seq<Challenge>)
    ensures var once := UpdateProgress(true, Some(logs), challenges).value;
      UpdateProgress(true, Some(logs), once) == Some(once)
  {
    var once := UpdateProgress(true, Some(logs), challenges).value;
    var twice := UpdateProgress(true, Some(logs), once).value;
    forall k | 0 <= k < |once|
      ensures twice[k] == once[k]
    {
      RawProgressOfSameKind(challenges[k], once[k], logs);
    }
    assert twice == once;
  }

  /** The raw progress depends only on the kind and the target of a challenge. */
  lemma RawProgressOfSameKind(c: Challenge, d: Challenge, logs: seq<WorkoutLog>)
    requires c.id == d.id && c.target == d.target
    ensures RawProgress(c, logs) == RawProgress(d, logs)
  {
  }

  /** With non-negative durations and a non-negative target, the stored progress stays within [0, target]. */
  lemma ProgressWithinTarget(c: Challenge, logs: seq<WorkoutLog>)
    requires c.target >= 0
    requires forall k | 0 <= k < |logs| :: MinutesOf(logs[k]) >= 0
    ensures 0 <= Updated(c, logs).current <= c.target
  {
    TotalMinutesNonNegative(logs);
  }

  lemma {:induction false} TotalMinutesGrows(logs: seq<WorkoutLog>, more: seq<WorkoutLog>)
    requires forall k | 0 <= k < |more| :: MinutesOf(more[k]) >= 0
    ensures TotalMinutes(logs + more) >= TotalMinutes(logs)
    decreases |more|
  {
    if more == [] {
      assert logs + more == logs;
    } else {
      assert (logs + more)[..|logs + more| - 1] == logs + more[..|more| - 1];
      TotalMinutesGrows(logs, more[..|more| - 1]);
    }
  }

  lemma DistinctDaysGrow(logs: seq<WorkoutLog>, more: seq<WorkoutLog>)
    ensures DistinctDayCount(logs + more) >= DistinctDayCount(logs)
  {
    var a := set k | 0 <= k < |logs| :: DayOf(logs[k].completedAt);
    var b := set k | 0 <= k < |logs + more| :: DayOf((logs + more)[k].completedAt);
    assert a <= b by {
      forall d | d in a
        ensures d in b
      {
        var k :| 0 <= k < |logs| && DayOf(logs[k].completedAt) == d;
        assert (logs + more)[k] == logs[k];
      }
    }
    SubsetCard(a, b);
  }

  lemma SubsetCard(a: set<int>, b: set<int>)
    requires a <= b
    ensures |a| <= |b|
  {
    assert b == a + (b - a);
  }

  /** More logs in the week never undo a completed challenge (durations being non-negative). */
  lemma CompletionIsStable(c: Challenge, logs: seq<WorkoutLog>, more: seq<WorkoutLog>)
    requires forall k | 0 <= k < |more| :: MinutesOf(more[k]) >= 0
    requires Updated(c, logs).completed
    ensures Updated(c, logs + more).completed
  {
    TotalMinutesGrows(logs, more);
    DistinctDaysGrow(logs, more);
  }
}
