# FitMatt core, modelled in Dafny

This project models the logic behind the FitMatt training app:

- **Session duration** (`Duration`): the estimator that turns a session's exercises into minutes. It covers the reps parser (`"12-15"`, `"MAX"`, `"20/15/12"`), the tempo parser (`"30X1"`) and the defaults for missing sets, rest and tempo.
- **Live workout** (`WorkoutPlayer`):
  - express-mode trimming and the choice of the displayed list;
  - the per-session completion lists and the progress percentage with its finish gate;
  - the rest timer and the session stopwatch;
  - the `mm:ss` clock text and the "next workout" status line;
  - the weight suggestions;
  - the finish transition.

  The screen is the class `Player`. Its fields are the component's state and its methods are the event handlers.
- **Statistics** (`StatsPanel`): the current and longest streak over de-duplicated, descending training days; the totals shown by the panel; the seven badges.
- **Analytics** (`AnalyticsPanel`):
  - the Epley one-rep max;
  - tonnage;
  - plateau/progress detection over the last three sessions of each exercise, capped at four insights;
  - the four weekly volume buckets;
  - the 12×7 heatmap and its colour tiers;
  - the this-week filter.
- **Weekly challenges** (`WeeklyChallenges`): the Monday of the current week, the days left, challenge generation from the five templates, and the progress update with its clamp.
- **Program reorder** (`ProgramPanel`): replacing the active cycle's session list.

Shared datatypes (exercises, sessions, programs, workout logs) are in `Types`. JavaScript string and number conversions are in `Text`:

- `Number`, `parseInt`, `toString`, `padStart`;
- `split`/`join`, `includes`, `replace`.

Modelling conventions:

- Time is an integer count of seconds in local time. A calendar day is `DayOf(t) = t / 86400`, and day 0 is a Thursday.
- JavaScript's `NaN` is `None` wherever it can arise. `x || d` is `OrDefault`.
- Timers are explicit tick calls. `window.confirm`, the signed-in user, the current time, fetched rows, the shuffle and the random draws are all parameters.

Where JavaScript arithmetic would wrap or round, the model says so explicitly:

- `Math.round` of `x / 60` is `(x + 30) / 60`;
- `Math.ceil(x / 60)` is `CeilMinutes`;
- progress over an empty list is `Unbounded`, which is JavaScript's `Infinity`.

## Model

| member | source | states |
|---|---|---|
| Text.NatToString | components/WorkoutPlayer.tsx:566 | the decimal rendering of `n` is non-empty, all digits, has no leading zero, and reads back as `n` |
| Text.PadStart2 | components/WorkoutPlayer.tsx:566 | `padStart(2, '0')`: the result has length max(2, \|s\|), ends with `s`, and is `'0'` before it |
| Text.LeadingDigits | utils/duration.ts:40 | the digit prefix `parseInt` reads is a prefix of the input, made of digits, and followed by a non-digit or the end |
| Text.TrimStart | utils/duration.ts:36 | `Number`'s leading-whitespace trim never lengthens the text, and never leaves whitespace in front |
| Text.TrimEnd | utils/duration.ts:36 | `Number`'s trailing-whitespace trim never lengthens the text, and never leaves whitespace at the end |
| Text.TrimStartKeeps | utils/duration.ts:36 | trimming only removes characters: every character of the result was in the input |
| Text.ParseIntPrefix | utils/duration.ts:40 | `parseInt` of text without a minus sign is never negative |
| Text.JsNumber | utils/duration.ts:36 | `Number` of text without a minus sign is never negative |
| Text.NumberOfRendering | utils/duration.ts:36 | `Number(String(n)) == n` for every natural number |
| Text.ParseIntOfRendering | utils/duration.ts:40 | `parseInt(String(n)) == n` for every natural number |
| Text.ParseIntOfRenderingThen | utils/duration.ts:40 | `parseInt` reads `n` back from its rendering followed by any text that starts with a non-digit other than `x` |
| Text.LeadingZero | utils/duration.ts:40 | a leading `0` does not change a numeral's value |
| Text.IndexOf | components/WorkoutPlayer.tsx:507 | the index found holds the character, and no earlier position does |
| Text.Split | utils/duration.ts:36 | `split` gives at least one part; more than one exactly when the separator occurs; no part holds the separator; joining the parts restores the text |
| Text.SplitJoin | utils/duration.ts:36 | splitting joined separator-free parts gives the parts back |
| Text.Find | components/WeeklyChallenges.tsx:83 | the position found is the first occurrence of the pattern; none means it occurs nowhere |
| Text.ReplaceFirstAt | components/WeeklyChallenges.tsx:83 | `replace` with a string pattern rewrites its first occurrence only, keeping the text before and after |
| Duration.CeilHalf | utils/duration.ts:37 | `Math.ceil(x / 2)`: the least `r` with `x <= 2r` |
| Duration.ParseReps | utils/duration.ts:30-41 | a number is returned unchanged, empty text gives 10, text without `-` gives at least 1, and a text result is never negative |
| Duration.ParseRepsOfFields | utils/duration.ts:35-38 | text with a `-` gives the ceiling of the mean of `Number` of the first two `-`-separated parts |
| Duration.ParseRepsRange | utils/duration.ts:35-38 | any `lo-hi[-…]` range of numerals gives `ceil((lo + hi) / 2)`, whatever follows the second part |
| Duration.RangeExample | utils/duration.ts:34-38 | `"12-15"` gives 14 |
| Duration.DropSetExample | utils/duration.ts:35-38 | `"15-12-10-8"` gives 14 |
| Duration.ParseRepsOfLeadingNumber | utils/duration.ts:40 | text starting with a positive numeral and no `-` gives that numeral |
| Duration.MaxRepsExample | utils/duration.ts:40 | `"MAX"` gives 10 |
| Duration.DropSetPrefixExample | utils/duration.ts:40 | `"20/15/12"` gives 20 |
| Duration.ZeroRepsExample | utils/duration.ts:40 | `"0"` falls back to 10 |
| Duration.TempoSeconds | utils/duration.ts:43-56 | a tempo is between 1 and 36 seconds, and any code that is not 4 characters long gives 4 |
| Duration.ParseTempo | utils/duration.ts:43-56 | the character loop computes `TempoSeconds` |
| Duration.TempoExamples | utils/duration.ts:44-55 | `"2010"` gives 3, `"30X1"` gives 5, and `""`, `"Rapide"`, `"Max"`, `"Explosif"` give 4 |
| Duration.SetSeconds | utils/duration.ts:21-24 | with non-negative fields an exercise costs at least the 60-second setup |
| Duration.CeilMinutes | utils/duration.ts:27 | `Math.ceil(s / 60)`: the least `m` with `s <= 60m` |
| Duration.ExerciseNaNIffRepsNaN | utils/duration.ts:11-24 | an exercise's seconds are `NaN` exactly when its reps parse to `NaN` |
| Duration.MoreSetsOrRestCostMore | utils/duration.ts:10-24 | with sets and rest at least 1, more sets or a longer rest never lower an exercise's seconds |
| Duration.ExerciseDuration | utils/duration.ts:9-24 | the per-exercise body of the loop computes `ExerciseSeconds` |
| Duration.CalculateSessionDuration | utils/duration.ts:4-28 | the accumulating loop computes `EstimatedMinutes` of the session |
| Duration.DefaultsAreSubstitutions | utils/duration.ts:10-13 | sets 0 counts as 3, rest 0 as 60, and a missing or empty tempo as `"2010"` |
| Duration.ExerciseAtLeastSetup | utils/duration.ts:14-24 | a well-formed exercise costs a number of seconds, at least 60 |
| Duration.TotalAtLeastSetups | utils/duration.ts:9-25 | well-formed exercises total at least 60 seconds each |
| Duration.EstimateAtLeastOneMinutePerExercise | utils/duration.ts:24-27 | the estimate is at least one minute per exercise, and 0 only for an empty session |
| Duration.EmptySessionIsZero | utils/duration.ts:5 | a missing or empty session is 0 minutes |
| Duration.TotalOfConcat | utils/duration.ts:9-25 | the total of two lists is the sum of their totals (`NaN` absorbing) |
| Duration.TotalIgnoresOrder | utils/duration.ts:9-25 | the total seconds do not depend on the order of the exercises |
| Duration.EstimateIgnoresOrder | utils/duration.ts:24-27 | the estimated minutes do not depend on the order of the exercises |
| WorkoutPlayer.ExpressSets | components/WorkoutPlayer.tsx:251-256 | express sets never grow and never exceed 4; 3 or fewer are kept; 4 exactly for a compound lift with 5 or more sets |
| WorkoutPlayer.NonBonus | components/WorkoutPlayer.tsx:249 | the kept exercises are non-bonus members of the list |
| WorkoutPlayer.NonBonusOfConcat | components/WorkoutPlayer.tsx:249 | the bonus filter distributes over concatenation, so survivors keep their order |
| WorkoutPlayer.NonBonusKeepsRegular | components/WorkoutPlayer.tsx:249 | a list without bonus work passes the filter unchanged |
| WorkoutPlayer.AdjustedExercises | components/WorkoutPlayer.tsx:246-259 | express off returns the list; express on returns one entry per non-bonus exercise whose sets are the express rule's value (kept at 3 or fewer; 4 for a compound lift with 5 or more; otherwise 3), so at most 4 and not more than before, `originalSets` set to the old count, and every other field copied |
| WorkoutPlayer.AdjustSingle | components/WorkoutPlayer.tsx:250-257 | a single regular exercise becomes its trimmed copy |
| WorkoutPlayer.SquatIsCompound | components/WorkoutPlayer.tsx:252 | a squat is one of the lifts that keep four sets |
| WorkoutPlayer.ExpressNotIdempotent | components/WorkoutPlayer.tsx:251-257 | a 5-set squat becomes 4 sets and, trimmed again, 3: the rule is not idempotent |
| WorkoutPlayer.DisplayedExercises | components/WorkoutPlayer.tsx:495-500 | outside express the session's list is shown; in express the fetched plan's list if it has one, else the express-adjusted session list (no bonus work, at most 4 sets) |
| WorkoutPlayer.SessionAt | components/WorkoutPlayer.tsx:491-492 | the current session exists exactly when the cycle (or cycle 1 as fallback) has sessions, and it is one of them |
| WorkoutPlayer.NextSessionIndex | components/WorkoutPlayer.tsx:590-595 | the next index is `idx + 1` wrapping to 0, always a valid index |
| WorkoutPlayer.SessionKeyFields | components/WorkoutPlayer.tsx:502 | splitting a key `c<cycle>s<idx>` at `s` gives back its two numerals |
| WorkoutPlayer.SessionKeyInjective | components/WorkoutPlayer.tsx:502 | distinct (cycle, session) pairs have distinct keys, so clearing one key leaves other sessions' checks alone |
| WorkoutPlayer.Without | components/WorkoutPlayer.tsx:508 | the filter removes every occurrence of the name and keeps every other member |
| WorkoutPlayer.ToggleFlips | components/WorkoutPlayer.tsx:504-513 | toggling flips the name's membership and leaves every other name's membership alone |
| WorkoutPlayer.WithoutAbsent | components/WorkoutPlayer.tsx:508 | filtering out an absent name changes nothing |
| WorkoutPlayer.ToggleTwiceRestores | components/WorkoutPlayer.tsx:504-513 | checking then unchecking an unchecked exercise restores the exact list |
| WorkoutPlayer.ToggleTwiceSameMembers | components/WorkoutPlayer.tsx:504-513 | toggling twice restores the same set of names |
| WorkoutPlayer.ToggleKeepsDistinct | components/WorkoutPlayer.tsx:504-513 | a completion list without duplicates stays without duplicates |
| WorkoutPlayer.ProgressOf | components/WorkoutPlayer.tsx:678 | with nothing displayed the progress is 0 with no checks, and `Infinity` otherwise |
| WorkoutPlayer.ProgressRounds | components/WorkoutPlayer.tsx:678 | progress is `100 * checked / shown` rounded half up |
| WorkoutPlayer.FinishGate | components/WorkoutPlayer.tsx:1015 | finishing is allowed exactly when `checked / shown >= 0.195`, or with checks over an empty list |
| WorkoutPlayer.ProgressAtMostHundred | components/WorkoutPlayer.tsx:678 | progress is at most 100 when no more names are checked than shown |
| WorkoutPlayer.ProgressOfDisplayedChecks | components/WorkoutPlayer.tsx:677-678 | distinct checks that all name displayed exercises give progress at most 100 |
| WorkoutPlayer.StaleChecksExceedHundred | components/WorkoutPlayer.tsx:677-678 | progress is not clamped: a check left on a bonus exercise after switching to express gives 200 |
| WorkoutPlayer.RoundMinutes | components/WorkoutPlayer.tsx:573 | `Math.round(elapsed / 60)`: the nearest whole minute, halves rounded up |
| WorkoutPlayer.LoggedDuration | components/WorkoutPlayer.tsx:573-611 | the logged duration is at least 1 minute, 1 below 90 seconds, and the rounded minutes from 30 seconds on |
| WorkoutPlayer.PaddedNumeral | components/WorkoutPlayer.tsx:566 | a padded field is all digits and reads back as its number |
| WorkoutPlayer.ClockRoundTrip | components/WorkoutPlayer.tsx:563-567 | the `mm:ss` text reads back as the elapsed seconds |
| WorkoutPlayer.StatusAfterFinish | components/WorkoutPlayer.tsx:682-697 | no date: "Au travail !"; two days ahead: "Dans 2j"; the next day: "Repos"; on or after the day: "Go Matt !" |
| WorkoutPlayer.CalculateWeightSuggestions | components/WorkoutPlayer.tsx:657-669 | the loop over the displayed exercises computes `Suggestions` |
| WorkoutPlayer.SuggestionsCharacterized | components/WorkoutPlayer.tsx:660-668 | a name gets a suggestion exactly when it is displayed, checked and has a positive weight under `<key>_<name>`; the suggestion is that weight plus 2.5 |
| WorkoutPlayer.BareNamesAreNeverFound | components/WorkoutPlayer.tsx:471-474 | with weights saved under bare names only, no suggestion is ever made |
| WorkoutPlayer.SavedSquatIsNotSuggested | components/WorkoutPlayer.tsx:473 | a squat saved at 100 kg and checked gets no suggestion |
| WorkoutPlayer.TimerTick | components/WorkoutPlayer.tsx:521-527 | a tick never changes the initial value or the visibility |
| WorkoutPlayer.TimerTransitionsKeepValid | components/WorkoutPlayer.tsx:516-539 | start, tick, stop and adding time keep `0 <= seconds <= initial` |
| WorkoutPlayer.Countdown | components/WorkoutPlayer.tsx:516-529 | `k` ticks after starting at `s` show `s - k`, and at `k = s` the count is 0 and stopped |
| WorkoutPlayer.FinishedTimerStays | components/WorkoutPlayer.tsx:522-525 | once the count reaches 0, further ticks change nothing |
| WorkoutPlayer.IdleClockIgnoresTicks | components/WorkoutPlayer.tsx:545-553 | a stopwatch without its interval does not count |
| WorkoutPlayer.StoppedClockCannotRestart | components/WorkoutPlayer.tsx:542-555 | once started, start is a no-op; after a stop, clicks and ticks change nothing until a reset |
| WorkoutPlayer.StartedClockCounts | components/WorkoutPlayer.tsx:542-548 | a started stopwatch counts one second per tick |
| WorkoutPlayer.Player.constructor | components/WorkoutPlayer.tsx:294-319 | the initial state: cycle 1, session 0, express off, empty maps, hidden timer, reset clock |
| WorkoutPlayer.Player.SelectCycle | components/WorkoutPlayer.tsx:821 | selecting a cycle also selects its first session; nothing else changes |
| WorkoutPlayer.Player.SelectSession | components/WorkoutPlayer.tsx:836 | selecting a session changes only the session index |
| WorkoutPlayer.Player.ToggleExpress | components/WorkoutPlayer.tsx:326-390 | switching off clears the plan; switching on or regenerating keeps the fetched plan or, on failure, the previous one |
| WorkoutPlayer.Player.SaveWeight | components/WorkoutPlayer.tsx:471-474 | the parsed weight is stored under the bare exercise name |
| WorkoutPlayer.Player.ToggleExercise | components/WorkoutPlayer.tsx:504-514 | only the current key's list changes, to its toggled value; the haptic fires exactly when the name was unchecked |
| WorkoutPlayer.Player.StartTimer | components/WorkoutPlayer.tsx:516-518 | the timer restarts at `seconds` shown and running |
| WorkoutPlayer.Player.RestTick | components/WorkoutPlayer.tsx:520-528 | one interval callback of the rest timer, keeping it valid |
| WorkoutPlayer.Player.StopTimer | components/WorkoutPlayer.tsx:532-535 | the timer stops and hides, keeping its count |
| WorkoutPlayer.Player.AddTime | components/WorkoutPlayer.tsx:537-539 | both the count and the initial value grow by `secs` |
| WorkoutPlayer.Player.ClickSessionClock | components/WorkoutPlayer.tsx:722 | a click stops a started stopwatch, else starts it |
| WorkoutPlayer.Player.SessionTick | components/WorkoutPlayer.tsx:545-547 | one interval callback of the stopwatch |
| WorkoutPlayer.Player.CommitNextSession | components/WorkoutPlayer.tsx:597-604 | the delayed commit: the next session index, the rest timer stopped, the stopwatch reset |
| WorkoutPlayer.Player.ClearAndAdvance | components/WorkoutPlayer.tsx:582-604 | the finished session's checks cleared, the next day two days ahead, then the commit |
| WorkoutPlayer.Player.FinishSession | components/WorkoutPlayer.tsx:569-621 | with progress below 20 or no confirmation nothing changes; otherwise the state becomes `Finished` |
| WorkoutPlayer.Player.CompleteSession | components/WorkoutPlayer.tsx:573-620 | the whole new state of a finish: only the current key's checks cleared, next day today + 2, next session index, timer stopped, clock reset, suggestions replaced only when signed in and non-empty, and the log `(session name, round(elapsed/60) or 1, now)` when signed in |
| StatsPanel.LogDays | components/StatsPanel.tsx:91-96 | every log becomes the day it was completed on |
| StatsPanel.InsertDescending | components/StatsPanel.tsx:97-98 | inserting a day into a strictly descending list keeps it strictly descending and adds exactly that day |
| StatsPanel.DistinctDays | components/StatsPanel.tsx:91-98 | the de-duplicated, sorted days are strictly descending and hold exactly the days of the logs |
| StatsPanel.DescendingUnique | components/StatsPanel.tsx:97-98 | two strictly descending lists with the same members are equal |
| StatsPanel.StreaksIgnoreLogOrder | components/StatsPanel.tsx:91-98 | the day list, and so both streaks, do not depend on the order of the logs |
| StatsPanel.LeadingRunFrom | components/StatsPanel.tsx:110-117 | the scan stops at the first gap of more than 2 days |
| StatsPanel.CurrentStreak | components/StatsPanel.tsx:105-118 | 0 when the last day is more than a day before today; otherwise the length of the leading run with gaps of at most 2 days |
| StatsPanel.RunEndingAt | components/StatsPanel.tsx:121-129 | the length of the run of gaps of at most 2 days ending at a position |
| StatsPanel.MaxRun | components/StatsPanel.tsx:121-130 | the longest of the runs ending at the first `n` positions |
| StatsPanel.ScanCurrent | components/StatsPanel.tsx:100-118 | the current-streak loop computes `CurrentStreak` |
| StatsPanel.ScanLongest | components/StatsPanel.tsx:102-129 | the longest-streak loop leaves `longest` and `temp` whose maximum is the longest run |
| StatsPanel.CalculateStreak | components/StatsPanel.tsx:85-133 | `calculateStreak` returns the current streak and the longest run of the distinct days |
| StatsPanel.LeadingRunIsRun | components/StatsPanel.tsx:110-117 | a leading run of `k` linked days is a run of length `k` |
| StatsPanel.CurrentWithinLongest | components/StatsPanel.tsx:130 | the current streak never exceeds the longest |
| StatsPanel.StreakBounds | components/StatsPanel.tsx:86-130 | current ≤ longest, current ≤ distinct days ≤ logs, and the longest is at least 1 for any logs |
| StatsPanel.StreakExample | components/StatsPanel.tsx:105-130 | days 10, 9, 7, 3 seen on day 10 give current 3 and longest 3; seen on day 12 the current is 0 |
| StatsPanel.FetchStats | components/StatsPanel.tsx:68-82 | no logs keep the previous stats; otherwise the counts, the minute total, both streaks and the ten most recent logs |
| StatsPanel.TotalMinutesOfConcat | components/StatsPanel.tsx:70 | the minute total is additive over concatenation |
| Types.TotalMinutesNonNegative | components/StatsPanel.tsx:70 | non-negative durations give a non-negative total |
| StatsPanel.Badges | components/StatsPanel.tsx:135-146 | there are seven badges |
| StatsPanel.BadgesMonotone | components/StatsPanel.tsx:137-143 | better stats never lock a badge that was unlocked, and the badge order is fixed |
| StatsPanel.StreakBadgesFollowLongest | components/StatsPanel.tsx:138-140 | for computed stats the 3-, 7- and 30-day badges unlock exactly at a longest streak of 3, 7 and 30 |
| AnalyticsPanel.RoundTenth | components/AnalyticsPanel.tsx:51 | the value rounded to one decimal lies within 0.05 and is a whole number of tenths |
| AnalyticsPanel.Calculate1RM | components/AnalyticsPanel.tsx:45-53 | the one-rep max is set only when weight > 0 and 0 < reps ≤ 12, to a whole number of tenths within 0.05 of Epley's estimate; otherwise the previous value stays |
| AnalyticsPanel.EpleyBounds | components/AnalyticsPanel.tsx:50 | within the guard, Epley's estimate is above the weight and at most 1.4 times it |
| AnalyticsPanel.OneRepMaxAtLeastWeight | components/AnalyticsPanel.tsx:45-53 | the displayed one-rep max is within rounding of at least the weight and at most 1.4 times it |
| AnalyticsPanel.TonnageReps | components/AnalyticsPanel.tsx:58-60 | text reps count at least 1 |
| AnalyticsPanel.Tonnage | components/AnalyticsPanel.tsx:55-63 | a log without exercises has zero tonnage |
| AnalyticsPanel.TonnageRepsWithoutDash | components/AnalyticsPanel.tsx:58-60 | without a `-`, tonnage reps agree with the duration estimator's reps |
| AnalyticsPanel.TonnageRepsOfFields | components/AnalyticsPanel.tsx:58-60 | a range `lo-hi` counts `lo` reps (10 when `lo` is 0) |
| AnalyticsPanel.TonnageRepsOfRange | components/AnalyticsPanel.tsx:58-60 | `"12-15"` is 12 reps for tonnage but 14 for the duration estimate |
| AnalyticsPanel.SumTonnageOfConcat | components/AnalyticsPanel.tsx:57-62 | tonnage is additive over the exercise list |
| AnalyticsPanel.SumTonnageNonNegative | components/AnalyticsPanel.tsx:57-62 | non-negative sets, reps and weights give non-negative tonnage |
| AnalyticsPanel.LogsTonnageOfConcat | components/AnalyticsPanel.tsx:135 | tonnage summed over logs is additive |
| AnalyticsPanel.KeyOrder | components/AnalyticsPanel.tsx:73 | the exercise names in first-seen order, each once, exactly those logged |
| AnalyticsPanel.HistoryOf | components/AnalyticsPanel.tsx:75-78 | an exercise's entries are exactly those logged under its name |
| AnalyticsPanel.InsertByDate | components/AnalyticsPanel.tsx:87 | inserting an entry keeps the history sorted by date and adds exactly that entry |
| AnalyticsPanel.SortByDate | components/AnalyticsPanel.tsx:87 | the sort returns a date-ordered permutation of the history |
| AnalyticsPanel.Analyze | components/AnalyticsPanel.tsx:89-111 | under 3 entries no insight; otherwise, comparing the first and the last of the last three weights: "stagnant" exactly when the end is not above a positive start, "progress" exactly when the end is above the start, with percentage (end − start) / start · 100 for a positive start and 0 otherwise, and nothing otherwise |
| AnalyticsPanel.TakeFour | components/AnalyticsPanel.tsx:114 | `slice(0, 4)`: a prefix of the insights holding all of them when there are at most four, and exactly four otherwise |
| AnalyticsPanel.GroupByExercise | components/AnalyticsPanel.tsx:67-80 | the grouping loop yields the names in first-seen order and, for each, exactly its entries in log order |
| AnalyticsPanel.AddLogEntries | components/AnalyticsPanel.tsx:71-79 | adding one log's exercises keeps the grouping exact |
| AnalyticsPanel.DetectPlateaus | components/AnalyticsPanel.tsx:66-115 | the loop computes `Plateaus` of the logs: at most four insights |
| AnalyticsPanel.InsightsAreJustified | components/AnalyticsPanel.tsx:85-111 | every insight is about an analysed name with at least three entries, and is that name's verdict |
| AnalyticsPanel.InsightNamesDistinct | components/AnalyticsPanel.tsx:85-111 | no exercise gets two insights |
| AnalyticsPanel.PlateausAreJustified | components/AnalyticsPanel.tsx:66-115 | at most four insights, each the verdict on an exercise's sorted history of at least three entries, all about different exercises |
| AnalyticsPanel.InsightsComplete | components/AnalyticsPanel.tsx:85-111 | every analysed exercise whose verdict exists has that verdict among the insights |
| AnalyticsPanel.PlateausAreComplete | components/AnalyticsPanel.tsx:85-114 | with at most four verdicts every exercise with a verdict is reported, and with more exactly four are |
| AnalyticsPanel.Between | components/AnalyticsPanel.tsx:134 | a week's logs are exactly those completed in `[start, end)` |
| AnalyticsPanel.BetweenCounts | components/AnalyticsPanel.tsx:134-135 | a week keeps each log completed in it as many times as it was fetched, and drops every other log |
| AnalyticsPanel.Since | components/AnalyticsPanel.tsx:167-172 | this week's logs are exactly those completed at or after a week ago |
| AnalyticsPanel.SinceCounts | components/AnalyticsPanel.tsx:167-175 | this week's list keeps each recent log as many times as it was fetched and drops every older one |
| AnalyticsPanel.OldLogsAddNoWeeklyTonnage | components/AnalyticsPanel.tsx:167-175 | logs older than a week add nothing to the weekly tonnage |
| AnalyticsPanel.VolumeChart | components/AnalyticsPanel.tsx:118-139 | four buckets, oldest first, bucket `k` summing tonnage of the week `S-(3-k)` |
| AnalyticsPanel.MaxVolume | components/AnalyticsPanel.tsx:164 | the scale is at least 1, bounds every volume, and is 1 or one of them |
| AnalyticsPanel.BucketsAreAdjacent | components/AnalyticsPanel.tsx:123-129 | each bucket is one week long and ends where the next newer one starts |
| AnalyticsPanel.BucketsAreDisjoint | components/AnalyticsPanel.tsx:122-136 | no log is counted in two buckets |
| AnalyticsPanel.TodayIsInNoBucket | components/AnalyticsPanel.tsx:127-134 | a log from today is in no bucket, since the newest bucket ends at today's midnight |
| AnalyticsPanel.CountOn | components/AnalyticsPanel.tsx:152-154 | a day's count is positive exactly when some log was completed that day |
| AnalyticsPanel.Heatmap | components/AnalyticsPanel.tsx:142-160 | a 12×7 grid whose cell holds its day and that day's log count |
| AnalyticsPanel.HeatmapDays | components/AnalyticsPanel.tsx:146-150 | the cells run day by day from 83 days ago to today |
| AnalyticsPanel.LogIsInItsCell | components/AnalyticsPanel.tsx:146-158 | every log of the last 84 days shows in its cell |
| AnalyticsPanel.TierOf | components/AnalyticsPanel.tsx:226-233 | counts 0, 1, 2 and 3 or more map to the four tiers in order |
| AnalyticsPanel.TierMonotone | components/AnalyticsPanel.tsx:226-233 | more sessions never give a lighter tier |
| WeeklyChallenges.DayOfWeek | components/WeeklyChallenges.tsx:66 | `getDay` is in 0..6 |
| WeeklyChallenges.WeekStartIsMonday | components/WeeklyChallenges.tsx:64-71 | the week start is a Monday, at most six days back |
| WeeklyChallenges.SameWeek | components/WeeklyChallenges.tsx:64-71 | every day of a week has the same week start |
| WeeklyChallenges.DaysRemaining | components/WeeklyChallenges.tsx:137-141 | the days left are between 0 and 6 |
| WeeklyChallenges.DaysRemainingReachSunday | components/WeeklyChallenges.tsx:137-141 | the days left reach exactly the Sunday that closes the week |
| WeeklyChallenges.DrawTarget | components/WeeklyChallenges.tsx:79 | a draw in `[0, 1)` gives a target in the template's `[min, max]` |
| WeeklyChallenges.GenerateChallenges | components/WeeklyChallenges.tsx:73-92 | three challenges from the first three shuffled templates, fields copied, target in range, no progress, not completed, `{target}` replaced by the target |
| WeeklyChallenges.DescriptionShowsTarget | components/WeeklyChallenges.tsx:83 | the description is the template's with its placeholder replaced by the target's numeral |
| WeeklyChallenges.FirstPlaceholder | components/WeeklyChallenges.tsx:26-32 | every template holds `{target}`, first at a known position |
| WeeklyChallenges.TemplateIdsDistinct | components/WeeklyChallenges.tsx:26-32 | the five templates have distinct ids |
| WeeklyChallenges.GeneratedIdsDistinct | components/WeeklyChallenges.tsx:75-81 | the three generated challenges have distinct ids |
| WeeklyChallenges.Updated | components/WeeklyChallenges.tsx:107-130 | only `current` and `completed` change; `current = min(raw, target)`; completed exactly when raw ≥ target |
| WeeklyChallenges.UpdateProgress | components/WeeklyChallenges.tsx:94-135 | no user or a null query result give no update; otherwise (an empty log list included) every challenge is updated, in order |
| WeeklyChallenges.UpdateIdempotent | components/WeeklyChallenges.tsx:107-131 | updating twice from the same logs is the same as once |
| WeeklyChallenges.RawProgressOfSameKind | components/WeeklyChallenges.tsx:110-124 | raw progress depends only on the challenge kind and target |
| WeeklyChallenges.ProgressWithinTarget | components/WeeklyChallenges.tsx:126-130 | the stored progress lies between 0 and the target |
| WeeklyChallenges.TotalMinutesGrows | components/WeeklyChallenges.tsx:115 | more logs never lower the minute total |
| WeeklyChallenges.DistinctDaysGrow | components/WeeklyChallenges.tsx:119-120 | more logs never lower the distinct-day count |
| WeeklyChallenges.CompletionIsStable | components/WeeklyChallenges.tsx:107-130 | a completed challenge stays completed as logs are added |
| ProgramPanel.HandleReorder | components/ProgramPanel.tsx:30-39 | no update without data or active cycle; otherwise the same cycles, the active one with the new sessions and its other fields kept, every other cycle unchanged |
| ProgramPanel.ReorderUndone | components/ProgramPanel.tsx:33-37 | reordering back to the old list restores the program |
| ProgramPanel.ReorderIdempotent | components/ProgramPanel.tsx:33-37 | applying the same reorder twice is the same as once |
| ProgramPanel.PlayerSeesNewOrder | components/ProgramPanel.tsx:34-37 | after a reorder the player shows the new session at each index of the active cycle |
| ProgramPanel.OtherCyclesUnchanged | components/ProgramPanel.tsx:33 | other cycles' sessions are what the player saw before |

## Left out

- Network, database and LLM calls are not modelled. Their results are parameters. This covers:
  - the express-plan fetch and cache;
  - `persistWeight`;
  - the AI feedback;
  - the log insert (the finish returns the log instead);
  - the `limit(20)`/`limit(30)`/`limit(90)` queries;
  - `loadOrGenerateChallenges` and its `localStorage` cache.
- `localStorage` reads and writes are left out.
- Confetti, haptics and the beep are left out. The haptic signal is the `haptic` result of `ToggleExercise`.
- `setInterval`/`setTimeout` are explicit tick methods. The 1-second delayed commit of the finish is applied at once, inside `FinishSession`.
- Dates are seconds in one fixed local time zone, with a day being 86400 seconds. Left out:
  - time zones and daylight saving;
  - `toISOString`'s UTC conversion;
  - string comparison of ISO timestamps in the volume and heatmap filters, which are compared as instants and calendar days instead.
- `WorkoutPlayer.Player.ToggleExpress`: the fetch outcome is a parameter, so the `isOptimizing` flag and the error paths are not modelled separately.
- Floating point is exact `real` arithmetic. This affects the Epley formula, `Math.round(x*10)/10`, tonnage and the `+2.5` kg step.
- `parseFloat` of the weight input is a parameter of `SaveWeight`.
- Plateau trend strings (`toFixed(1)`) are the numeric percentage and end weight.
- `Text.JsNumber` covers only part of `Number`: whitespace, sign, decimal, `0x`/`0o`/`0b` and empty text. Fractions, exponents and `Infinity` read as `NaN` (`None`). Integer-valued numbers are unbounded integers, and UTF-16 code units are characters.
- `Duration.ParseReps` therefore gives `NaN` for a range with a fractional end such as `"8.5-10"`, where the source computes `Math.ceil((8.5 + 10) / 2) = 10`. Because `NaN` absorbs every addition, `TotalSeconds` and `EstimatedMinutes` of a session holding such an exercise are `NaN` in the model, where the source estimates a number of minutes.
- `parseInt` of a single tempo character uses digit values only.
- AnalyticsPanel.GroupByExercise: exercise names are assumed to be neither integer-like nor names of `Object.prototype` members (`constructor`, `toString`, `valueOf`, `__proto__`). `Object.entries` visits integer-like keys first, so under this assumption plateau insights follow first-seen order; for a prototype member name the source's grouping finds an inherited value, `.push` is not a function and the panel throws, while the model groups that name like any other.
- Icons, titles and colours of badges, tiers and challenges are left out, except for the badge ids and the template texts.
- A session whose `exercises` field is missing, and a `Reps` value of any type other than number or text, are left out. A `null` session is `None`.
- The shuffle comparator `Math.random() - 0.5` is replaced by an arbitrary permutation given as input. The target draws are inputs in `[0, 1)`.
- UI-only state (`showSettings`, the modals, the theme) and the static program data are left out.
