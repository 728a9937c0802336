/**
 * The live-workout screen of components/WorkoutPlayer.tsx. The pure rules
 * (express trimming, the completion list, progress, the clock format, the
 * status line, weight suggestions, the rest timer and the session stopwatch
 * as record updates) are functions; the screen itself is the class `Player`,
 * whose methods are the event handlers and whose fields are the component's
 * state. Interval callbacks are explicit tick methods and `window.confirm` is a
 * boolean parameter.
 */
module WorkoutPlayer {
  import opened Types
  import opened Text

  // ------------------------------------------------------------ express mode

  /** The heavy compound lifts that keep a fourth set in express mode (case-sensitive). */
  predicate IsCompoundLift(name: string)
  {
    Contains(name, "Squat") || Contains(name, "D\U{E9}velopp\U{E9}") || Contains(name, "Terre")
  }

  /** The set count express mode gives an exercise. */
  function ExpressSets(sets: int, name: string): (r: int)
    ensures r <= sets && r <= 4
    ensures sets <= 3 ==> r == sets
    ensures sets > 3 ==> r >= 3
    ensures r == 4 <==> sets >= 5 && IsCompoundLift(name)
  {
    if sets >= 5 && IsCompoundLift(name) then 4
    else if sets > 3 then 3
    else sets
  }

  /** One exercise as express mode rewrites it: new set count, the old one kept in `originalSets`. */
  function Trimmed(e: Exercise): Exercise
  {
    e.(sets := ExpressSets(e.sets, e.name), originalSets := Some(e.sets))
  }

  /** The exercises that are not marked as bonus, in their order. */
  function NonBonus(exs: seq<Exercise>): (r: seq<Exercise>)
    ensures |r| <= |exs|
    ensures forall i | 0 <= i < |r| :: !r[i].isBonus && r[i] in exs
  {
    if exs == [] then []
    else
      var rest := NonBonus(exs[..|exs| - 1]);
      var e := exs[|exs| - 1];
      if e.isBonus then rest else rest + [e]
  }

  /** `getAdjustedExercises`: unchanged outside express mode, else bonus work dropped and sets trimmed. */
  function AdjustedExercises(exs: seq<Exercise>, isExpress: bool): (r: seq<Exercise>)
    ensures !isExpress ==> r == exs
    ensures isExpress ==> |r| == |NonBonus(exs)|
    ensures isExpress ==> forall i | 0 <= i < |r| ::
      var before := NonBonus(exs)[i];
      && !r[i].isBonus && r[i].sets == ExpressSets(before.sets, before.name)
      && r[i].sets <= 4 && r[i].sets <= before.sets
      && r[i].originalSets == Some(before.sets)
      && r[i].(sets := before.sets, originalSets := before.originalSets) == before
  {
    if !isExpress then exs
    else
      var kept := NonBonus(exs);
      seq(|kept|, i requires 0 <= i < |kept| => Trimmed(kept[i]))
  }

  /** The session an express plan was fetched for; `exercises` may be missing from it. */
  datatype ExpressPlan = ExpressPlan(exercises: Option<seq<Exercise>>)

  /** `displayedExercises`: the express plan's list when there is one, else the adjusted session list. */
  function DisplayedExercises(isExpress: bool, plan: Option<ExpressPlan>, session: Session): (r: seq<Exercise>)
    ensures !isExpress ==> r == session.exercises
    ensures isExpress && plan.Some? && plan.value.exercises.Some? ==> r == plan.value.exercises.value
    ensures isExpress && !(plan.Some? && plan.value.exercises.Some?) ==>
      |r| <= |session.exercises| && forall i | 0 <= i < |r| :: !r[i].isBonus && r[i].sets <= 4
    ensures isExpress && !(plan.Some? && plan.value.exercises.Some?) ==> r == AdjustedExercises(session.exercises, true)
  {
    if isExpress && plan.Some? && plan.value.exercises.Some? then plan.value.exercises.value
    else AdjustedExercises(session.exercises, isExpress)
  }

  // -------------------------------------------------------------- sessions

  /** `fullData[activeCycle] || fullData[1]`; None where the source would dereference undefined. */
  function CycleOf(fullData: map<int, Program>, cycle: int): Option<Program>
  {
    if cycle in fullData then Some(fullData[cycle])
    else if 1 in fullData then Some(fullData[1])
    else None
  }

  /** `currentCycle.sessions[activeSessionIdx] || currentCycle.sessions[0]`. */
  function SessionAt(fullData: map<int, Program>, cycle: int, idx: int): (r: Option<Session>)
    ensures r.Some? <==> CycleOf(fullData, cycle).Some? && CycleOf(fullData, cycle).value.sessions != []
    ensures r.Some? ==> r.value in CycleOf(fullData, cycle).value.sessions
  {
    match CycleOf(fullData, cycle)
    case None => None
    case Some(program) =>
      if 0 <= idx < |program.sessions| then Some(program.sessions[idx])
      else if program.sessions != [] then Some(program.sessions[0])
      else None
  }

  /** The key of the completion map and of the express cache: `c${cycle}s${idx}`. */
  function SessionKey(cycle: int, idx: int): string
  {
    "c" + IntToString(cycle) + "s" + IntToString(idx)
  }

  /** The session index after finishing: the next one, wrapping to the first past the last. */
  function NextSessionIndex(idx: int, count: nat): (r: int)
    ensures 0 <= idx < count ==> r == (idx + 1) % count
    ensures idx >= 0 ==> 0 <= r && (count > 0 ==> r < count)
  {
    if idx + 1 >= count then 0 else idx + 1
  }

  // ------------------------------------------------------ completion lists

  /** `completedExos[sessionKey] || []`. */
  function ChecksOf(completed: map<string, seq<string>>, key: string): seq<string>
  {
    if key in completed then completed[key] else []
  }

  /** `list.filter(id => id !== name)`. */
  function Without(list: seq<string>, name: string): (r: seq<string>)
    ensures name !in r && |r| <= |list|
    ensures name in list ==> |r| < |list|
    ensures forall y | y in list && y != name :: y in r
    ensures forall y | y in r :: y in list
  {
    if list == [] then []
    else
      var rest := Without(list[..|list| - 1], name);
      var last := list[|list| - 1];
      assert list == list[..|list| - 1] + [last];
      if last == name then rest else rest + [last]
  }

  /** The list `toggleExercise` stores: every occurrence removed if present, else the name appended. */
  function Toggled(list: seq<string>, name: string): seq<string>
  {
    if name in list then Without(list, name) else list + [name]
  }

  predicate NoDuplicates(list: seq<string>)
  {
    forall i, j | 0 <= i < j < |list| :: list[i] != list[j]
  }

  // --------------------------------------------------------------- progress

  /** A progress percentage; `Unbounded` is JavaScript's Infinity (checks over an empty list). */
  datatype Progress = Percent(value: int) | Unbounded

  /** `Math.round(checked / shown * 100) || 0`, on exact rationals. */
  function ProgressOf(checked: nat, shown: nat): (p: Progress)
    ensures shown == 0 ==> p == if checked == 0 then Percent(0) else Unbounded
  {
    if shown == 0 then (if checked == 0 then Percent(0) else Unbounded)
    else Percent((200 * checked + shown) / (2 * shown))
  }

  /** The finish button is enabled unless progress is below 20. */
  predicate CanFinish(p: Progress)
  {
    !(p.Percent? && p.value < 20)
  }

  // -------------------------------------------------------------- the clock

  /** `formatSessionTime`: zero-padded minutes, a colon, zero-padded seconds. */
  function FormatSessionTime(seconds: nat): string
  {
    PadStart2(NatToString(seconds / 60)) + ":" + PadStart2(NatToString(seconds % 60))
  }

  /** Reads an "m:s" display back into seconds, when both fields are decimal digits. */
  function ReadClock(text: string): Option<nat>
  {
    var parts := Split(text, ':');
    if |parts| == 2 && AllDigitsIn(parts[0], Decimal) && AllDigitsIn(parts[1], Decimal) then
      Some(ValueIn(parts[0], Decimal) * 60 + ValueIn(parts[1], Decimal))
    else None
  }

  /** `Math.round(elapsed / 60)`: round half up. */
  function RoundMinutes(elapsed: int): (m: int)
    ensures 60 * m - 30 <= elapsed < 60 * m + 30
  {
    (elapsed + 30) / 60
  }

  // ------------------------------------------------------------ status line

  /** The status text for the next planned training day, seen on `today`. */
  function StatusText(nextDay: Option<int>, today: int): string
  {
    match nextDay
    case None => "Au travail !"
    case Some(next) =>
      var diff := next - today;
      if diff <= 0 then "Go Matt !"
      else if diff == 1 then "Repos"
      else "Dans " + IntToString(diff) + "j"
  }

  // ------------------------------------------------------ weight suggestions

  /** `weights[key] || 0`: a missing, NaN (None) or zero weight reads as 0. */
  function WeightAt(weights: map<string, Option<real>>, key: string): real
  {
    if key in weights && weights[key].Some? then weights[key].value else 0.0
  }

  /** The suggestions after visiting `exs` in order: a completed exercise with a positive stored weight gets that weight plus 2.5. */
  function Suggestions(exs: seq<Exercise>, checks: seq<string>, weights: map<string, Option<real>>, key: string): map<string, real>
  {
    if exs == [] then map[]
    else
      var before := Suggestions(exs[..|exs| - 1], checks, weights, key);
      var name := exs[|exs| - 1].name;
      var w := WeightAt(weights, key + "_" + name);
      if name in checks && w > 0.0 then before[name := w + 2.5] else before
  }

  /** `calculateWeightSuggestions`'s loop over the displayed exercises. */
  method CalculateWeightSuggestions(exs: seq<Exercise>, checks: seq<string>, weights: map<string, Option<real>>, key: string)
    returns (suggestions: map<string, real>)
    ensures suggestions == Suggestions(exs, checks, weights, key)
  {
    suggestions := map[];
    var i := 0;
    while i < |exs|
      invariant 0 <= i <= |exs|
      invariant suggestions == Suggestions(exs[..i], checks, weights, key)
    {
      assert exs[..i + 1][..i] == exs[..i];
      var exoKey := key + "_" + exs[i].name;
      var isCompleted := exs[i].name in checks;
      var currentWeight := WeightAt(weights, exoKey);
      if isCompleted && currentWeight > 0.0 {
        suggestions := suggestions[exs[i].name := currentWeight + 2.5];
      }
      i := i + 1;
    }
    assert exs[..i] == exs;
  }

  // ------------------------------------------------------------- rest timer

  /** The `timer` record. */
  datatype RestTimer = RestTimer(seconds: int, initial: int, isRunning: bool, active: bool)

  predicate TimerValid(t: RestTimer)
  {
    0 <= t.seconds <= t.initial
  }

  /** `startTimer(s)`. */
  function TimerStart(s: int): RestTimer
  {
    RestTimer(s, s, true, true)
  }

  /**
   * One interval callback. The interval exists exactly while `isRunning` holds,
   * so a stopped timer receives no tick.
   */
  function TimerTick(t: RestTimer): (r: RestTimer)
    ensures r.initial == t.initial && r.active == t.active
  {
    if !t.isRunning then t
    else if t.seconds <= 1 then t.(seconds := 0, isRunning := false)
    else t.(seconds := t.seconds - 1)
  }

  /** `stopTimer`: the count is kept, the timer is hidden. */
  function TimerStop(t: RestTimer): RestTimer
  {
    t.(isRunning := false, active := false)
  }

  /** `addTime(d)`: both the count and the initial value grow by `d`. */
  function TimerAddTime(t: RestTimer, d: int): RestTimer
  {
    t.(seconds := t.seconds + d, initial := t.initial + d)
  }

  /** `n` interval callbacks in a row. */
  function TimerTicks(t: RestTimer, n: nat): RestTimer
  {
    if n == 0 then t else TimerTick(TimerTicks(t, n - 1))
  }

  // -------------------------------------------------------- session stopwatch

  /** The session stopwatch: its start instant, the seconds counted, and whether its interval runs. */
  datatype Stopwatch = Stopwatch(startTime: Option<int>, elapsed: int, ticking: bool)

  /** `startSessionTimer`: nothing while a start time is set. */
  function ClockStart(c: Stopwatch, now: int): Stopwatch
  {
    if c.startTime.Some? then c else Stopwatch(Some(now), c.elapsed, true)
  }

  /** One interval callback of the stopwatch. */
  function ClockTick(c: Stopwatch): Stopwatch
  {
    if c.ticking then c.(elapsed := c.elapsed + 1) else c
  }

  /** `stopSessionTimer`: the interval is cleared, the start time and count are kept. */
  function ClockStop(c: Stopwatch): Stopwatch
  {
    c.(ticking := false)
  }

  /** The stopwatch after `resetSessionTimer`, and at mount. */
  const ResetClock: Stopwatch := Stopwatch(None, 0, false)

  /** A click on the clock: stop when a start time is set, else start. */
  function ClockClick(c: Stopwatch, now: int): Stopwatch
  {
    if c.startTime.Some? then ClockStop(c) else ClockStart(c, now)
  }

  function ClockTicks(c: Stopwatch, n: nat): Stopwatch
  {
    if n == 0 then c else ClockTick(ClockTicks(c, n - 1))
  }

  // ---------------------------------------------------------------- the screen

  /** The state of the workout screen and its event handlers. */
  class Player {
    var activeCycle: int
    var activeSessionIdx: int
    var isExpressMode: bool
    var expressSession: Option<ExpressPlan>
    /** The planned next training day, as a day number. */
    var nextWorkoutDay: Option<int>
    var completedExos: map<string, seq<string>>
    var weights: map<string, Option<real>>
    var fullData: map<int, Program>
    var timer: RestTimer
    var clock: Stopwatch
    var weightSuggestions: map<string, real>

    /** The rest timer never shows a negative count nor more than it started from. */
    predicate Valid()
      reads this
    {
      TimerValid(timer)
    }

    /** The screen can render: the current cycle and session resolve. */
    predicate Renders()
      reads this
    {
      SessionAt(fullData, activeCycle, activeSessionIdx).Some?
    }

    function Key(): string
      reads this
    {
      SessionKey(activeCycle, activeSessionIdx)
    }

    function Checks(): seq<string>
      reads this
    {
      ChecksOf(completedExos, Key())
    }

    function Displayed(): seq<Exercise>
      reads this
      requires Renders()
    {
      DisplayedExercises(isExpressMode, expressSession, SessionAt(fullData, activeCycle, activeSessionIdx).value)
    }

    function CurrentProgress(): Progress
      reads this
      requires Renders()
    {
      ProgressOf(|Checks()|, |Displayed()|)
    }

    constructor(programs: map<int, Program>)
      ensures Valid()
      ensures activeCycle == 1 && activeSessionIdx == 0 && !isExpressMode && expressSession == None
      ensures nextWorkoutDay == None && completedExos == map[] && weights == map[] && fullData == programs
      ensures timer == RestTimer(0, 0, false, false) && clock == ResetClock
      ensures weightSuggestions == map[]
    {
      activeCycle := 1;
      activeSessionIdx := 0;
      isExpressMode := false;
      expressSession := None;
      nextWorkoutDay := None;
      completedExos := map[];
      weights := map[];
      fullData := programs;
      timer := RestTimer(0, 0, false, false);
      clock := ResetClock;
      weightSuggestions := map[];
    }

    /** Choosing a cycle in the settings panel opens its first session. */
    method SelectCycle(cycle: int)
      modifies this
      ensures activeCycle == cycle && activeSessionIdx == 0
      ensures isExpressMode == old(isExpressMode) && expressSession == old(expressSession)
      ensures completedExos == old(completedExos) && timer == old(timer) && clock == old(clock)
      ensures nextWorkoutDay == old(nextWorkoutDay) && weights == old(weights) && fullData == old(fullData)
      ensures weightSuggestions == old(weightSuggestions)
    {
      activeCycle := cycle;
      activeSessionIdx := 0;
    }

    /** Choosing a session of the current cycle. */
    method SelectSession(idx: int)
      modifies this
      ensures activeSessionIdx == idx && activeCycle == old(activeCycle)
      ensures isExpressMode == old(isExpressMode) && expressSession == old(expressSession)
      ensures completedExos == old(completedExos) && timer == old(timer) && clock == old(clock)
      ensures nextWorkoutDay == old(nextWorkoutDay) && weights == old(weights) && fullData == old(fullData)
      ensures weightSuggestions == old(weightSuggestions)
    {
      activeSessionIdx := idx;
    }

    /**
     * The express button. Without `force`, an active express mode is switched off
     * and its plan dropped. Otherwise express mode is switched on; `fetched` is
     * the plan the cache or the optimiser returned, None when both failed, in
     * which case the previous plan stays.
     */
    method ToggleExpress(force: bool, fetched: Option<ExpressPlan>)
      modifies this
      ensures old(isExpressMode) && !force ==> !isExpressMode && expressSession == None
      ensures !(old(isExpressMode) && !force) ==>
        isExpressMode && expressSession == (if fetched.Some? then fetched else old(expressSession))
      ensures activeCycle == old(activeCycle) && activeSessionIdx == old(activeSessionIdx)
      ensures completedExos == old(completedExos) && timer == old(timer) && clock == old(clock)
      ensures nextWorkoutDay == old(nextWorkoutDay) && weights == old(weights) && fullData == old(fullData)
      ensures weightSuggestions == old(weightSuggestions)
    {
      if isExpressMode && !force {
        isExpressMode := false;
        expressSession := None;
        return;
      }
      if fetched.Some? {
        expressSession := fetched;
      }
      isExpressMode := true;
    }

    /** `saveWeight`: the parsed value (None for NaN) is stored under the bare exercise name. */
    method SaveWeight(exoName: string, parsed: Option<real>)
      modifies this
      ensures weights == old(weights)[exoName := parsed]
      ensures activeCycle == old(activeCycle) && activeSessionIdx == old(activeSessionIdx)
      ensures isExpressMode == old(isExpressMode) && expressSession == old(expressSession)
      ensures completedExos == old(completedExos) && timer == old(timer) && clock == old(clock)
      ensures nextWorkoutDay == old(nextWorkoutDay) && fullData == old(fullData)
      ensures weightSuggestions == old(weightSuggestions)
    {
      weights := weights[exoName := parsed];
    }

    /** `toggleExercise`: flips `exoName` in the current session's list; the haptic fires only on a check. */
    method ToggleExercise(exoName: string) returns (haptic: bool)
      modifies this
      ensures haptic <==> exoName !in old(Checks())
      ensures completedExos == old(completedExos)[old(Key()) := Toggled(old(Checks()), exoName)]
      ensures activeCycle == old(activeCycle) && activeSessionIdx == old(activeSessionIdx)
      ensures isExpressMode == old(isExpressMode) && expressSession == old(expressSession)
      ensures timer == old(timer) && clock == old(clock)
      ensures nextWorkoutDay == old(nextWorkoutDay) && weights == old(weights) && fullData == old(fullData)
      ensures weightSuggestions == old(weightSuggestions)
    {
      var sessionKey := SessionKey(activeCycle, activeSessionIdx);
      var currentCompleted := ChecksOf(completedExos, sessionKey);
      var newCompleted;
      if exoName in currentCompleted {
        newCompleted := Without(currentCompleted, exoName);
        haptic := false;
      } else {
        newCompleted := currentCompleted + [exoName];
        haptic := true;
      }
      completedExos := completedExos[sessionKey := newCompleted];
    }

    /** `startTimer(s)`, offered only for exercises with a positive rest. */
    method StartTimer(seconds: int)
      requires seconds > 0
      modifies this
      ensures timer == TimerStart(seconds) && Valid()
      ensures activeCycle == old(activeCycle) && activeSessionIdx == old(activeSessionIdx)
      ensures isExpressMode == old(isExpressMode) && expressSession == old(expressSession)
      ensures completedExos == old(completedExos) && clock == old(clock)
      ensures nextWorkoutDay == old(nextWorkoutDay) && weights == old(weights) && fullData == old(fullData)
      ensures weightSuggestions == old(weightSuggestions)
    {
      timer := TimerStart(seconds);
    }

    /** One second of the rest timer's interval. */
    method RestTick()
      requires Valid()
      modifies this
      ensures timer == TimerTick(old(timer)) && Valid()
      ensures activeCycle == old(activeCycle) && activeSessionIdx == old(activeSessionIdx)
      ensures isExpressMode == old(isExpressMode) && expressSession == old(expressSession)
      ensures completedExos == old(completedExos) && clock == old(clock)
      ensures nextWorkoutDay == old(nextWorkoutDay) && weights == old(weights) && fullData == old(fullData)
      ensures weightSuggestions == old(weightSuggestions)
    {
      timer := TimerTick(timer);
    }

    method StopTimer()
      requires Valid()
      modifies this
      ensures timer == TimerStop(old(timer)) && Valid()
      ensures activeCycle == old(activeCycle) && activeSessionIdx == old(activeSessionIdx)
      ensures isExpressMode == old(isExpressMode) && expressSession == old(expressSession)
      ensures completedExos == old(completedExos) && clock == old(clock)
      ensures nextWorkoutDay == old(nextWorkoutDay) && weights == old(weights) && fullData == old(fullData)
      ensures weightSuggestions == old(weightSuggestions)
    {
      timer := TimerStop(timer);
    }

    /** The "+30s" button calls `addTime(30)`. */
    method AddTime(secs: int)
      requires Valid() && secs >= 0
      modifies this
      ensures timer == TimerAddTime(old(timer), secs) && Valid()
      ensures activeCycle == old(activeCycle) && activeSessionIdx == old(activeSessionIdx)
      ensures isExpressMode == old(isExpressMode) && expressSession == old(expressSession)
      ensures completedExos == old(completedExos) && clock == old(clock)
      ensures nextWorkoutDay == old(nextWorkoutDay) && weights == old(weights) && fullData == old(fullData)
      ensures weightSuggestions == old(weightSuggestions)
    {
      timer := TimerAddTime(timer, secs);
    }

    /** A click on the session clock at instant `now`. */
    method ClickSessionClock(now: int)
      modifies this
      ensures clock == ClockClick(old(clock), now)
      ensures activeCycle == old(activeCycle) && activeSessionIdx == old(activeSessionIdx)
      ensures isExpressMode == old(isExpressMode) && expressSession == old(expressSession)
      ensures completedExos == old(completedExos) && timer == old(timer)
      ensures nextWorkoutDay == old(nextWorkoutDay) && weights == old(weights) && fullData == old(fullData)
      ensures weightSuggestions == old(weightSuggestions)
    {
      if clock.startTime.Some? {
        clock := ClockStop(clock);
      } else {
        clock := ClockStart(clock, now);
      }
    }

    /** One second of the session clock's interval. */
    method SessionTick()
      modifies this
      ensures clock == ClockTick(old(clock))
      ensures activeCycle == old(activeCycle) && activeSessionIdx == old(activeSessionIdx)
      ensures isExpressMode == old(isExpressMode) && expressSession == old(expressSession)
      ensures completedExos == old(completedExos) && timer == old(timer)
      ensures nextWorkoutDay == old(nextWorkoutDay) && weights == old(weights) && fullData == old(fullData)
      ensures weightSuggestions == old(weightSuggestions)
    {
      clock := ClockTick(clock);
    }

    /** The commit `handleFinishSession` delays by one second: select the next session, stop both timers. */
    method CommitNextSession(nextIdx: int)
      requires Valid()
      modifies this
      ensures Valid()
      ensures activeSessionIdx == nextIdx && activeCycle == old(activeCycle)
      ensures timer == TimerStop(old(timer)) && clock == ResetClock
      ensures isExpressMode == old(isExpressMode) && expressSession == old(expressSession)
      ensures completedExos == old(completedExos) && nextWorkoutDay == old(nextWorkoutDay)
      ensures weights == old(weights) && fullData == old(fullData)
      ensures weightSuggestions == old(weightSuggestions)
    {
      activeSessionIdx := nextIdx;
      timer := TimerStop(timer);
      clock := ResetClock;
    }

    /**
     * The state changes of a confirmed finish: stop the stopwatch, plan the next
     * training day two days ahead, clear the session's checks, then the delayed
     * commit.
     */
    method ClearAndAdvance(sessionKey: string, nextIdx: int, now: int)
      requires Valid()
      modifies this
      ensures Valid()
      ensures activeSessionIdx == nextIdx && activeCycle == old(activeCycle)
      ensures completedExos == old(completedExos)[sessionKey := []]
      ensures nextWorkoutDay == Some(DayOf(now) + 2)
      ensures timer == TimerStop(old(timer)) && clock == ResetClock
      ensures isExpressMode == old(isExpressMode) && expressSession == old(expressSession)
      ensures weights == old(weights) && fullData == old(fullData)
      ensures weightSuggestions == old(weightSuggestions)
    {
      clock := ClockStop(clock);
      nextWorkoutDay := Some(DayOf(now) + 2);
      completedExos := completedExos[sessionKey := []];
      CommitNextSession(nextIdx);
    }

    /**
     * `handleFinishSession` at instant `now`, with the delayed commit applied at
     * once. Nothing happens when the button is disabled (progress below 20) or
     * the confirmation is declined. Otherwise the current session's checks are
     * cleared, the next session is selected in the same cycle, the next training
     * day is two days ahead, both timers are stopped and the stopwatch reset;
     * when a user is signed in the log row is returned and the suggestions are
     * computed from the checks as they were before the clear.
     */
    method FinishSession(confirmed: bool, now: int, signedIn: bool) returns (log: Option<WorkoutLog>)
      requires Valid() && Renders()
      modifies this
      ensures Valid()
      ensures !(CanFinish(old(CurrentProgress())) && confirmed) ==> unchanged(this) && log == None
      ensures CanFinish(old(CurrentProgress())) && confirmed ==> Finished(log, now, signedIn)
    {
      if !CanFinish(CurrentProgress()) || !confirmed {
        return None;
      }
      log := CompleteSession(now, signedIn);
    }

    /**
     * The state after a confirmed finish, against the state before it, and the
     * log row returned.
     */
    twostate predicate Finished(new log: Option<WorkoutLog>, now: int, signedIn: bool)
      reads this
      requires old(Renders())
    {
      && activeCycle == old(activeCycle)
      && activeSessionIdx == NextSessionIndex(old(activeSessionIdx), |CycleOf(old(fullData), old(activeCycle)).value.sessions|)
      && completedExos == old(completedExos)[old(Key()) := []]
      && nextWorkoutDay == Some(DayOf(now) + 2)
      && timer == TimerStop(old(timer))
      && clock == ResetClock
      && isExpressMode == old(isExpressMode) && expressSession == old(expressSession)
      && weights == old(weights) && fullData == old(fullData)
      && (var suggested := Suggestions(old(Displayed()), old(Checks()), old(weights), old(Key()));
          weightSuggestions == if signedIn && suggested != map[] then suggested else old(weightSuggestions))
      && log == if signedIn then
          Some(WorkoutLog(SessionAt(old(fullData), old(activeCycle), old(activeSessionIdx)).value.name,
            Some(OrDefault(RoundMinutes(old(clock).elapsed), 1)), now, None))
        else None
    }

    /** The confirmed part of `handleFinishSession`. */
    method CompleteSession(now: int, signedIn: bool) returns (log: Option<WorkoutLog>)
      requires Valid() && Renders()
      modifies this
      ensures Valid()
      ensures Finished(log, now, signedIn)
    {
      var session := SessionAt(fullData, activeCycle, activeSessionIdx).value;
      var program := CycleOf(fullData, activeCycle).value;
      var sessionKey := SessionKey(activeCycle, activeSessionIdx);
      var checks := ChecksOf(completedExos, sessionKey);
      var displayed := DisplayedExercises(isExpressMode, expressSession, session);
      assert sessionKey == Key() && checks == Checks() && displayed == Displayed();
      var savedWeights := weights;
      var durationMinutes := RoundMinutes(clock.elapsed);
      var nextIdx := activeSessionIdx + 1;
      if nextIdx >= |program.sessions| {
        nextIdx := 0;
      }
      assert nextIdx == NextSessionIndex(activeSessionIdx, |program.sessions|);
      ClearAndAdvance(sessionKey, nextIdx, now);
      log := None;
      if signedIn {
        log := Some(WorkoutLog(session.name, Some(OrDefault(durationMinutes, 1)), now, None));
        var suggested := CalculateWeightSuggestions(displayed, checks, savedWeights, sessionKey);
        if suggested != map[] {
          weightSuggestions := suggested;
        }
      }
    }
  }

  // ----------------------------------------------------------------- lemmas

  /** Filtering commutes with concatenation: the surviving exercises keep their relative order. */
  lemma {:induction false} NonBonusOfConcat(a: seq<Exercise>, b: seq<Exercise>)
    ensures NonBonus(a + b) == NonBonus(a) + NonBonus(b)
    decreases |b|
  {
    if b == [] {
      assert a + b == a;
    } else {
      var b' := b[..|b| - 1];
      assert (a + b)[..|a + b| - 1] == a + b';
      assert (a + b)[|a + b| - 1] == b[|b| - 1];
      NonBonusOfConcat(a, b');
    }
  }

  /** A list without bonus work passes the filter whole. */
  lemma {:induction false} NonBonusKeepsRegular(exs: seq<Exercise>)
    requires forall i | 0 <= i < |exs| :: !exs[i].isBonus
    ensures NonBonus(exs) == exs
  {
    if exs != [] {
      NonBonusKeepsRegular(exs[..|exs| - 1]);
      assert exs == exs[..|exs| - 1] + [exs[|exs| - 1]];
    }
  }

  /** "Squat" is one of the compound lifts. */
  lemma SquatIsCompound(name: string)
    requires name == "Squat"
    ensures IsCompoundLift(name)
  {
    assert name[0..] == name;
    assert Find(name, "Squat") == Some(0);
  }

  /** In express mode a single regular exercise becomes its trimmed form. */
  lemma AdjustSingle(e: Exercise)
    requires !e.isBonus
    ensures AdjustedExercises([e], true) == [Trimmed(e)]
  {
    assert [e][..0] == [];
    assert NonBonus([e]) == [e];
  }

  /** Five sets of squats become four, and trimming the trimmed list again gives three: the rule is not idempotent. */
  lemma ExpressNotIdempotent(e: Exercise)
    requires e.name == "Squat" && e.sets == 5 && !e.isBonus
    ensures AdjustedExercises([e], true) == [Trimmed(e)] && Trimmed(e).sets == 4
    ensures AdjustedExercises(AdjustedExercises([e], true), true) == [Trimmed(Trimmed(e))]
    ensures Trimmed(Trimmed(e)).sets == 3
  {
    SquatIsCompound(e.name);
    var once := Trimmed(e);
    assert once.sets == 4 && once.name == e.name && !once.isBonus;
    AdjustSingle(e);
    AdjustSingle(once);
  }

  /** A completion key splits at 's' into "c" + cycle and the index. */
  lemma SessionKeyFields(c: nat, i: nat)
    ensures Split(SessionKey(c, i), 's') == ["c" + NatToString(c), NatToString(i)]
  {
    var a, b := NatToString(c), NatToString(i);
    assert !IsDigitIn('s', Decimal);
    NotInDigits(a, 's', Decimal);
    NotInDigits(b, 's', Decimal);
    assert 's' !in "c" + a;
    assert SessionKey(c, i) == Join(["c" + a, b], 's');
    SplitJoin(["c" + a, b], 's');
  }

  /** Different cycles or session indices never share a completion key. */
  lemma SessionKeyInjective(c1: nat, i1: nat, c2: nat, i2: nat)
    requires SessionKey(c1, i1) == SessionKey(c2, i2)
    ensures c1 == c2 && i1 == i2
  {
    SessionKeyFields(c1, i1);
    SessionKeyFields(c2, i2);
    var a1, a2 := NatToString(c1), NatToString(c2);
    assert "c" + a1 == "c" + a2;
    assert ("c" + a1)[1..] == a1 && ("c" + a2)[1..] == a2;
  }

  /** A name is in the toggled list exactly when it was not in the list; every other name keeps its membership. */
  lemma ToggleFlips(list: seq<string>, name: string)
    ensures name in Toggled(list, name) <==> name !in list
    ensures forall y | y != name :: y in Toggled(list, name) <==> y in list
  {
  }

  lemma {:induction false} WithoutAbsent(list: seq<string>, name: string)
    requires name !in list
    ensures Without(list, name) == list
  {
    if list != [] {
      WithoutAbsent(list[..|list| - 1], name);
      assert list == list[..|list| - 1] + [list[|list| - 1]];
    }
  }

  /** Checking and unchecking a name that was not checked restores the list exactly. */
  lemma ToggleTwiceRestores(list: seq<string>, name: string)
    requires name !in list
    ensures Toggled(Toggled(list, name), name) == list
  {
    var l := list + [name];
    assert l[..|l| - 1] == list;
    WithoutAbsent(list, name);
  }

  /** Unchecking then checking a checked name restores the set of checked names. */
  lemma ToggleTwiceSameMembers(list: seq<string>, name: string)
    ensures forall y :: y in Toggled(Toggled(list, name), name) <==> y in list
  {
    if name !in list {
      ToggleTwiceRestores(list, name);
    }
  }

  lemma {:induction false} WithoutKeepsDistinct(list: seq<string>, name: string)
    requires NoDuplicates(list)
    ensures NoDuplicates(Without(list, name))
  {
    if list != [] {
      var init := list[..|list| - 1];
      assert NoDuplicates(init);
      WithoutKeepsDistinct(init, name);
      var last := list[|list| - 1];
      assert last !in init;
    }
  }

  /** Toggling keeps a list of distinct names distinct. */
  lemma ToggleKeepsDistinct(list: seq<string>, name: string)
    requires NoDuplicates(list)
    ensures NoDuplicates(Toggled(list, name))
  {
    if name in list {
      WithoutKeepsDistinct(list, name);
    }
  }

  /** Progress is 100 * checked / shown rounded half up: within half a point of it. */
  lemma ProgressRounds(checked: nat, shown: nat)
    requires shown > 0
    ensures ProgressOf(checked, shown).Percent?
    ensures var p := ProgressOf(checked, shown).value;
      (2 * shown) * p - shown <= 200 * checked < (2 * shown) * p + shown
  {
    var n := 200 * checked + shown;
    var q := n / (2 * shown);
    assert n == (2 * shown) * q + n % (2 * shown);
  }

  lemma MulMonotone(a: nat, x: int, y: int)
    requires x <= y
    ensures a * x <= a * y
  {
  }

  /** The finish button is enabled exactly when 200 * checked >= 39 * shown, or when checks exist over an empty list. */
  lemma FinishGate(checked: nat, shown: nat)
    ensures CanFinish(ProgressOf(checked, shown)) <==>
      if shown == 0 then checked > 0 else 200 * checked >= 39 * shown
  {
    if shown > 0 {
      ProgressRounds(checked, shown);
      var p := ProgressOf(checked, shown).value;
      if p >= 20 {
        MulMonotone(2 * shown, 20, p);
      } else {
        MulMonotone(2 * shown, p, 19);
      }
    }
  }

  /** With no more checks than exercises shown, progress stays within 100. */
  lemma ProgressAtMostHundred(checked: nat, shown: nat)
    requires checked <= shown
    ensures ProgressOf(checked, shown).Percent? && ProgressOf(checked, shown).value <= 100
  {
    if shown > 0 {
      ProgressRounds(checked, shown);
      var p := ProgressOf(checked, shown).value;
      if p > 100 {
        MulMonotone(2 * shown, 101, p);
      }
    }
  }

  /** Distinct checks that all name an exercise on the list are no more than the list. */
  lemma {:induction false} DistinctChecksFit(checks: seq<string>, names: seq<string>)
    requires NoDuplicates(checks)
    requires forall k | 0 <= k < |checks| :: checks[k] in names
    ensures |checks| <= |names|
  {
    if checks != [] {
      var init := checks[..|checks| - 1];
      var last := checks[|checks| - 1];
      assert NoDuplicates(init);
      assert last !in init;
      var others := Without(names, last);
      assert forall k | 0 <= k < |init| :: init[k] in others by {
        forall k | 0 <= k < |init|
          ensures init[k] in others
        {
          assert init[k] == checks[k] && checks[k] in names;
        }
      }
      DistinctChecksFit(init, others);
    }
  }

  /** The names of a list of exercises. */
  function Names(exs: seq<Exercise>): (r: seq<string>)
    ensures |r| == |exs| && forall i | 0 <= i < |exs| :: r[i] == exs[i].name
  {
    seq(|exs|, i requires 0 <= i < |exs| => exs[i].name)
  }

  /** Distinct checks of displayed exercises keep progress within 100. */
  lemma ProgressOfDisplayedChecks(checks: seq<string>, shown: seq<Exercise>)
    requires NoDuplicates(checks)
    requires forall k | 0 <= k < |checks| :: checks[k] in Names(shown)
    ensures ProgressOf(|checks|, |shown|).Percent? && ProgressOf(|checks|, |shown|).value <= 100
  {
    DistinctChecksFit(checks, Names(shown));
    ProgressAtMostHundred(|checks|, |shown|);
  }

  /**
   * Progress is not clamped: two checks made before express mode dropped a
   * bonus exercise stay in the list and count against the one exercise left.
   */
  lemma StaleChecksExceedHundred(a: Exercise, b: Exercise)
    requires !a.isBonus && b.isBonus && a.name != b.name
    ensures NoDuplicates([a.name, b.name])
    ensures |AdjustedExercises([a, b], true)| == 1
    ensures ProgressOf(|[a.name, b.name]|, |AdjustedExercises([a, b], true)|) == Percent(200)
  {
    NonBonusOfConcat([a], [b]);
    NonBonusKeepsRegular([a]);
    assert [a] + [b] == [a, b];
  }

  /** A zero-padded rendering still reads as the number. */
  lemma PaddedNumeral(n: nat)
    ensures AllDigitsIn(PadStart2(NatToString(n)), Decimal)
    ensures ValueIn(PadStart2(NatToString(n)), Decimal) == n
  {
    var s := NatToString(n);
    if |s| == 1 {
      LeadingZero(s, Decimal);
      assert PadStart2(s) == "0" + s;
    }
  }

  /** Two numerals joined by a colon split back into the two. */
  lemma SplitClockText(mins: string, secs: string)
    requires AllDigitsIn(mins, Decimal) && AllDigitsIn(secs, Decimal)
    ensures Split(mins + ":" + secs, ':') == [mins, secs]
  {
    assert !IsDigitIn(':', Decimal);
    NotInDigits(mins, ':', Decimal);
    NotInDigits(secs, ':', Decimal);
    assert mins + ":" + secs == Join([mins, secs], ':');
    SplitJoin([mins, secs], ':');
  }

  /** A text that splits into two numerals reads as minutes and seconds. */
  lemma ReadClockOfFields(text: string, mins: string, secs: string)
    requires AllDigitsIn(mins, Decimal) && AllDigitsIn(secs, Decimal)
    requires Split(text, ':') == [mins, secs]
    ensures ReadClock(text) == Some(ValueIn(mins, Decimal) * 60 + ValueIn(secs, Decimal))
  {
  }

  /** Reading the clock display back gives the elapsed seconds. */
  lemma ClockRoundTrip(seconds: nat)
    ensures ReadClock(FormatSessionTime(seconds)) == Some(seconds)
  {
    var m, s := seconds / 60, seconds % 60;
    PaddedNumeral(m);
    PaddedNumeral(s);
    var mins, secs := PadStart2(NatToString(m)), PadStart2(NatToString(s));
    SplitClockText(mins, secs);
    ReadClockOfFields(FormatSessionTime(seconds), mins, secs);
  }

  /** The logged duration is at least one minute; under a minute and a half it is exactly one. */
  lemma LoggedDuration(elapsed: int)
    requires elapsed >= 0
    ensures OrDefault(RoundMinutes(elapsed), 1) >= 1
    ensures elapsed < 90 ==> OrDefault(RoundMinutes(elapsed), 1) == 1
    ensures elapsed >= 30 ==> OrDefault(RoundMinutes(elapsed), 1) == RoundMinutes(elapsed)
  {
  }

  /** After finishing on day `today` the status reads "Dans 2j", then "Repos", then "Go Matt !". */
  lemma StatusAfterFinish(today: int, k: int)
    ensures StatusText(None, today) == "Au travail !"
    ensures StatusText(Some(today + 2), today) == "Dans 2j"
    ensures StatusText(Some(today + 2), today + 1) == "Repos"
    ensures k >= 2 ==> StatusText(Some(today + 2), today + k) == "Go Matt !"
  {
    assert NatToString(2) == "2";
  }

  /** Whether some exercise of the list has this name. */
  predicate Named(exs: seq<Exercise>, name: string)
  {
    exists i | 0 <= i < |exs| :: exs[i].name == name
  }

  /** A name is suggested exactly when it is displayed, checked and has a positive weight under its session key; the suggestion is that weight plus 2.5. */
  lemma {:induction false} SuggestionsCharacterized(exs: seq<Exercise>, checks: seq<string>, weights: map<string, Option<real>>, key: string, name: string)
    ensures name in Suggestions(exs, checks, weights, key) <==>
      Named(exs, name) && name in checks && WeightAt(weights, key + "_" + name) > 0.0
    ensures name in Suggestions(exs, checks, weights, key) ==>
      Suggestions(exs, checks, weights, key)[name] == WeightAt(weights, key + "_" + name) + 2.5
  {
    if exs != [] {
      var init := exs[..|exs| - 1];
      SuggestionsCharacterized(init, checks, weights, key, name);
      if Named(init, name) {
        var i :| 0 <= i < |init| && init[i].name == name;
        assert exs[i].name == name;
      }
      if Named(exs, name) && exs[|exs| - 1].name != name {
        var i :| 0 <= i < |exs| && exs[i].name == name;
        assert init[i].name == name;
      }
    }
  }

  /**
   * Weights are saved under the bare exercise name but looked up under
   * `<sessionKey>_<name>`: when no saved key carries that prefix, finishing a
   * session suggests nothing.
   */
  lemma {:induction false} BareNamesAreNeverFound(exs: seq<Exercise>, checks: seq<string>, weights: map<string, Option<real>>, key: string)
    requires forall k | k in weights :: !(key + "_" <= k)
    ensures Suggestions(exs, checks, weights, key) == map[]
  {
    if exs != [] {
      BareNamesAreNeverFound(exs[..|exs| - 1], checks, weights, key);
      var name := exs[|exs| - 1].name;
      assert key + "_" <= key + "_" + name;
    }
  }

  /** A squat saved at 100 kg and checked in the first session is not suggested a heavier weight. */
  lemma SavedSquatIsNotSuggested(e: Exercise)
    requires e.name == "Squat"
    ensures Suggestions([e], ["Squat"], map["Squat" := Some(100.0)], SessionKey(1, 0)) == map[]
  {
    var prefix := SessionKey(1, 0) + "_";
    assert prefix[0] == 'c' && "Squat"[0] == 'S';
    assert !(prefix <= "Squat");
    BareNamesAreNeverFound([e], ["Squat"], map["Squat" := Some(100.0)], SessionKey(1, 0));
  }

  /** Every rest-timer transition keeps 0 <= seconds <= initial (starts and additions with non-negative amounts). */
  lemma TimerTransitionsKeepValid(t: RestTimer, s: int, d: int)
    ensures s >= 0 ==> TimerValid(TimerStart(s))
    ensures TimerValid(t) ==> TimerValid(TimerTick(t)) && TimerValid(TimerStop(t))
    ensures TimerValid(t) && d >= 0 ==> TimerValid(TimerAddTime(t, d))
  {
  }

  /** A timer started at `s` seconds counts down one per tick and stops at 0 on the `s`-th tick. */
  lemma {:induction false} Countdown(s: int, k: nat)
    requires 1 <= s && k <= s
    ensures TimerTicks(TimerStart(s), k) ==
      if k < s then RestTimer(s - k, s, true, true) else RestTimer(0, s, false, true)
  {
    if k > 0 {
      Countdown(s, k - 1);
    }
  }

  /** Once finished the timer stays at 0, stopped but still shown. */
  lemma {:induction false} FinishedTimerStays(s: int, k: nat)
    requires 1 <= s <= k
    ensures TimerTicks(TimerStart(s), k) == RestTimer(0, s, false, true)
  {
    if k == s {
      Countdown(s, k);
    } else {
      FinishedTimerStays(s, k - 1);
    }
  }

  lemma {:induction false} IdleClockIgnoresTicks(c: Stopwatch, n: nat)
    requires !c.ticking
    ensures ClockTicks(c, n) == c
  {
    if n > 0 {
      IdleClockIgnoresTicks(c, n - 1);
    }
  }

  /**
   * Starting is ignored while a start time is set, and stopping keeps it set,
   * so once stopped the clock button only stops again and the count is frozen
   * until a reset.
   */
  lemma StoppedClockCannotRestart(c: Stopwatch, now: int, n: nat)
    requires c.startTime.Some?
    ensures ClockStart(c, now) == c
    ensures ClockClick(ClockStop(c), now) == ClockStop(c)
    ensures ClockTicks(ClockStop(c), n) == ClockStop(c)
  {
    IdleClockIgnoresTicks(ClockStop(c), n);
  }

  /** A clock started from reset counts one second per tick. */
  lemma {:induction false} StartedClockCounts(now: int, n: nat)
    ensures ClockTicks(ClockStart(ResetClock, now), n) == Stopwatch(Some(now), n, true)
  {
    if n > 0 {
      StartedClockCounts(now, n - 1);
    }
  }
}
