/**
 * The statistics panel of components/StatsPanel.tsx: totals over the fetched
 * workout logs, the current and longest training streaks, and the badges they
 * unlock. Log instants become day numbers (local midnight), so the day gap of
 * two distinct training days is a positive integer.
 */
module StatsPanel {
  import opened Types

  function Max(a: int, b: int): int
  {
    if a >= b then a else b
  }

  // ------------------------------------------------------------ the day list

  /** The training day of each log, in log order. */
  function LogDays(logs: seq<WorkoutLog>): (r: seq<int>)
    ensures |r| == |logs| && forall i | 0 <= i < |logs| :: r[i] == DayOf(logs[i].completedAt)
  {
    seq(|logs|, i requires 0 <= i < |logs| => DayOf(logs[i].completedAt))
  }

  predicate StrictlyDescending(s: seq<int>)
  {
    forall i, j | 0 <= i < j < |s| :: s[i] > s[j]
  }

  /** Places `d` in a strictly descending list, unless it is already there. */
  function InsertDescending(d: int, s: seq<int>): (r: seq<int>)
    requires StrictlyDescending(s)
    ensures StrictlyDescending(r)
    ensures forall x :: x in r <==> x == d || x in s
    ensures |r| <= |s| + 1
  {
    if s == [] then [d]
    else if d > s[0] then [d] + s
    else if d == s[0] then s
    else
      var rest := InsertDescending(d, s[1..]);
      HeadAboveRest(s, d, rest);
      [s[0]] + rest
  }

  /** Putting back the head of a descending list in front of the insertion into its tail. */
  lemma HeadAboveRest(s: seq<int>, d: int, rest: seq<int>)
    requires s != [] && StrictlyDescending(s) && d < s[0]
    requires StrictlyDescending(rest) && forall x :: x in rest <==> x == d || x in s[1..]
    ensures StrictlyDescending([s[0]] + rest)
    ensures forall x :: x in [s[0]] + rest <==> x == d || x in s
  {
    assert s == [s[0]] + s[1..];
    forall y | y in rest
      ensures y < s[0]
    {
      if y != d {
        var k :| 0 <= k < |s[1..]| && s[1..][k] == y;
        assert s[k + 1] == y;
      }
    }
    var r := [s[0]] + rest;
    forall i, j | 0 <= i < j < |r|
      ensures r[i] > r[j]
    {
      assert r[j] == rest[j - 1] && rest[j - 1] in rest;
      if i > 0 {
        assert r[i] == rest[i - 1];
      }
    }
  }

  /**
   * The day list `calculateStreak` scans: the distinct days of the logs, latest
   * first (`map`, then `filter` on the first occurrence, then a descending `sort`).
   */
  function DistinctDays(days: seq<int>): (r: seq<int>)
    ensures StrictlyDescending(r)
    ensures forall x :: x in r <==> x in days
    ensures |r| <= |days|
  {
    if days == [] then []
    else InsertDescending(days[|days| - 1], DistinctDays(days[..|days| - 1]))
  }

  // ------------------------------------------------------------------ runs

  /** Two neighbouring days of the list belong to one streak when they are at most two days apart. */
  predicate Linked(s: seq<int>, i: int)
    requires 1 <= i < |s|
  {
    s[i - 1] - s[i] <= 2
  }

  /** The end of the run of linked days that starts at position `i - 1`. */
  function LeadingRunFrom(s: seq<int>, i: nat): (r: nat)
    requires 1 <= i <= |s|
    ensures i <= r <= |s|
    ensures forall j | i <= j < r :: Linked(s, j)
    ensures r < |s| ==> !Linked(s, r)
    decreases |s| - i
  {
    if i < |s| && Linked(s, i) then LeadingRunFrom(s, i + 1) else i
  }

  /**
   * The current streak: 0 unless the latest training day is today or yesterday
   * (or later); otherwise the number of days in the leading run of linked days.
   */
  function CurrentStreak(s: seq<int>, today: int): (r: nat)
    ensures s == [] || today - s[0] > 1 ==> r == 0
    ensures s != [] && today - s[0] <= 1 ==>
      && 1 <= r <= |s|
      && (forall j | 1 <= j < r :: Linked(s, j))
      && (r < |s| ==> !Linked(s, r))
  {
    if s == [] || today - s[0] > 1 then 0 else LeadingRunFrom(s, 1)
  }

  /** The length of the run of linked days that ends at position `i`. */
  function RunEndingAt(s: seq<int>, i: nat): (r: nat)
    requires i < |s|
    ensures 1 <= r <= i + 1
    ensures forall j | i - r + 2 <= j <= i :: Linked(s, j)
    ensures i - r + 1 > 0 ==> !Linked(s, i - r + 1)
  {
    if i == 0 then 1 else if Linked(s, i) then RunEndingAt(s, i - 1) + 1 else 1
  }

  /** The longest run ending before position `n`. */
  function MaxRun(s: seq<int>, n: nat): (r: nat)
    requires n <= |s|
    ensures forall j | 0 <= j < n :: RunEndingAt(s, j) <= r
    ensures n > 0 ==> exists j | 0 <= j < n :: RunEndingAt(s, j) == r
    ensures n == 0 ==> r == 0
  {
    if n == 0 then 0 else Max(MaxRun(s, n - 1), RunEndingAt(s, n - 1))
  }

  /** The longest streak: the longest run of linked days anywhere in the list. */
  function LongestStreak(s: seq<int>): nat
  {
    MaxRun(s, |s|)
  }

  // ---------------------------------------------------------- the computation

  /** `calculateStreak`: the current streak and the longest one, by two scans of the distinct days. */
  method CalculateStreak(logs: seq<WorkoutLog>, today: int) returns (current: nat, longest: nat)
    ensures current == CurrentStreak(DistinctDays(LogDays(logs)), today)
    ensures longest == LongestStreak(DistinctDays(LogDays(logs)))
  {
    if |logs| == 0 {
      return 0, 0;
    }
    var sortedDates := DistinctDays(LogDays(logs));
    assert LogDays(logs)[0] in sortedDates;
    current := ScanCurrent(sortedDates, today);
    var best, temp := ScanLongest(sortedDates);
    CurrentWithinLongest(sortedDates, today);
    longest := Max(Max(best, current), temp);
  }

  /**
   * The first scan: when the latest day is at most one day back, count the
   * leading days whose gaps are at most two days, stopping at the first wider gap.
   */
  method ScanCurrent(s: seq<int>, today: int) returns (current: nat)
    requires s != []
    ensures current == CurrentStreak(s, today)
  {
    current := 0;
    var lastWorkout := s[0];
    var daysSinceLastWorkout := today - lastWorkout;
    if daysSinceLastWorkout <= 1 {
      current := 1;
      var i := 1;
      while i < |s|
        invariant 1 <= i <= |s|
        invariant current == i
        invariant LeadingRunFrom(s, 1) == LeadingRunFrom(s, i)
      {
        var diff := s[i - 1] - s[i];
        if diff <= 2 {
          current := current + 1;
        } else {
          break;
        }
        i := i + 1;
      }
    }
  }

  /**
   * The second scan: `temp` is the run ending at the day in hand and `longest`
   * the best run closed by a linked step; between them they hold the longest run.
   */
  method ScanLongest(s: seq<int>) returns (longest: nat, temp: nat)
    requires s != []
    ensures Max(longest, temp) == LongestStreak(s)
  {
    longest := 0;
    temp := 1;
    var i := 1;
    assert MaxRun(s, 1) == 1 by {
      assert MaxRun(s, 1) == Max(MaxRun(s, 0), RunEndingAt(s, 0));
    }
    while i < |s|
      invariant 1 <= i <= |s|
      invariant temp == RunEndingAt(s, i - 1)
      invariant Max(longest, temp) == MaxRun(s, i)
      invariant temp == 1 || longest >= temp
    {
      var diff := s[i - 1] - s[i];
      RunStep(s, i);
      if diff <= 2 {
        temp := temp + 1;
        longest := Max(longest, temp);
      } else {
        temp := 1;
      }
      i := i + 1;
    }
  }

  // ----------------------------------------------------------------- lemmas

  /** One step of the longest-streak scan: the run ending at `i` and the best run so far. */
  lemma RunStep(s: seq<int>, i: nat)
    requires 1 <= i < |s|
    ensures RunEndingAt(s, i) == if s[i - 1] - s[i] <= 2 then RunEndingAt(s, i - 1) + 1 else 1
    ensures MaxRun(s, i + 1) == Max(MaxRun(s, i), RunEndingAt(s, i))
  {
  }

  /** Every day of a leading run of linked days ends a run that long. */
  lemma {:induction false} LeadingRunIsRun(s: seq<int>, k: nat)
    requires 1 <= k <= |s|
    requires forall j | 1 <= j < k :: Linked(s, j)
    ensures RunEndingAt(s, k - 1) == k
  {
    if k > 1 {
      LeadingRunIsRun(s, k - 1);
    }
  }

  lemma CurrentWithinLongest(s: seq<int>, today: int)
    ensures CurrentStreak(s, today) <= LongestStreak(s)
  {
    var k := CurrentStreak(s, today);
    if k > 0 {
      LeadingRunIsRun(s, k);
    }
  }

  /**
   * The streaks of a list of logs: the current one never exceeds the longest,
   * nor the number of distinct training days, and any log makes the longest at
   * least 1.
   */
  lemma StreakBounds(logs: seq<WorkoutLog>, today: int)
    ensures var s := DistinctDays(LogDays(logs));
      && CurrentStreak(s, today) <= LongestStreak(s)
      && CurrentStreak(s, today) <= |s| <= |logs|
      && (logs != [] ==> LongestStreak(s) >= 1)
  {
    var s := DistinctDays(LogDays(logs));
    CurrentWithinLongest(s, today);
    if logs != [] {
      assert LogDays(logs)[0] in s;
      assert RunEndingAt(s, 0) == 1;
    }
  }

  /** The head of a strictly descending list is its largest member. */
  lemma HeadIsLargest(s: seq<int>, i: nat)
    requires StrictlyDescending(s) && i < |s|
    ensures s[0] >= s[i]
  {
  }

  /** Two strictly descending lists with the same members are the same list. */
  lemma {:induction false} DescendingUnique(a: seq<int>, b: seq<int>)
    requires StrictlyDescending(a) && StrictlyDescending(b)
    requires forall x :: x in a <==> x in b
    ensures a == b
  {
    if a != [] {
      assert a[0] in a;
    }
    if b != [] {
      assert b[0] in b;
    }
    if a != [] && b != [] {
      var i :| 0 <= i < |b| && b[i] == a[0];
      var j :| 0 <= j < |a| && a[j] == b[0];
      HeadIsLargest(b, i);
      HeadIsLargest(a, j);
      forall x
        ensures x in a[1..] <==> x in b[1..]
      {
        if x in a[1..] {
          var k :| 0 <= k < |a[1..]| && a[1..][k] == x;
          assert a[k + 1] == x && x < a[0];
          assert x in b;
          var m :| 0 <= m < |b| && b[m] == x;
          assert m != 0;
          assert b[1..][m - 1] == x;
        }
        if x in b[1..] {
          var k :| 0 <= k < |b[1..]| && b[1..][k] == x;
          assert b[k + 1] == x && x < b[0];
          assert x in a;
          var m :| 0 <= m < |a| && a[m] == x;
          assert m != 0;
          assert a[1..][m - 1] == x;
        }
      }
      DescendingUnique(a[1..], b[1..]);
      assert a == [a[0]] + a[1..] && b == [b[0]] + b[1..];
    }
  }

  /**
   * The distinct-day list depends only on which days occur, so the streaks do
   * not depend on the order in which the store returns the logs.
   */
  lemma StreaksIgnoreLogOrder(logs1: seq<WorkoutLog>, logs2: seq<WorkoutLog>, today: int)
    requires multiset(logs1) == multiset(logs2)
    ensures DistinctDays(LogDays(logs1)) == DistinctDays(LogDays(logs2))
  {
    var d1, d2 := LogDays(logs1), LogDays(logs2);
    forall x
      ensures x in d1 <==> x in d2
    {
      if x in d1 {
        var i :| 0 <= i < |d1| && d1[i] == x;
        assert logs1[i] in multiset(logs2);
        var j :| 0 <= j < |logs2| && logs2[j] == logs1[i];
        assert d2[j] == x;
      }
      if x in d2 {
        var i :| 0 <= i < |d2| && d2[i] == x;
        assert logs2[i] in multiset(logs1);
        var j :| 0 <= j < |logs1| && logs1[j] == logs2[i];
        assert d1[j] == x;
      }
    }
    DescendingUnique(DistinctDays(d1), DistinctDays(d2));
  }

  /** Training on days 10, 9, 7 and 3, seen on day 10: the current streak is 3 and so is the longest. */
  lemma StreakExample(s: seq<int>)
    requires s == [10, 9, 7, 3]
    ensures CurrentStreak(s, 10) == 3 && LongestStreak(s) == 3
    ensures CurrentStreak(s, 12) == 0
  {
    assert Linked(s, 1) && Linked(s, 2) && !Linked(s, 3);
    assert LeadingRunFrom(s, 3) == 3;
    assert RunEndingAt(s, 2) == 3 && RunEndingAt(s, 3) == 1;
  }

  // ----------------------------------------------------------- totals and badges

  /** The panel's statistics. */
  datatype Stats = Stats(
    totalWorkouts: int,
    totalMinutes: int,
    currentStreak: int,
    longestStreak: int,
    recentWorkouts: seq<WorkoutLog>)

  const InitialStats: Stats := Stats(0, 0, 0, 0, [])

  /**
   * The part of `fetchStats` after the query: with at least one log the totals,
   * the streaks and the ten most recent logs replace the statistics; with none
   * they stay as they were.
   */
  method FetchStats(logs: seq<WorkoutLog>, today: int, previous: Stats) returns (stats: Stats)
    ensures logs == [] ==> stats == previous
    ensures logs != [] ==>
      && stats.totalWorkouts == |logs|
      && stats.totalMinutes == TotalMinutes(logs)
      && stats.currentStreak == CurrentStreak(DistinctDays(LogDays(logs)), today)
      && stats.longestStreak == LongestStreak(DistinctDays(LogDays(logs)))
      && stats.recentWorkouts == logs[..if |logs| < 10 then |logs| else 10]
  {
    if |logs| > 0 {
      var totalWorkouts := |logs|;
      var totalMinutes := TotalMinutes(logs);
      var current, longest := CalculateStreak(logs, today);
      stats := Stats(totalWorkouts, totalMinutes, current, longest, logs[..if |logs| < 10 then |logs| else 10]);
    } else {
      stats := previous;
    }
  }

  /** The sum of minutes over two lists is the sum of their sums. */
  lemma {:induction false} TotalMinutesOfConcat(a: seq<WorkoutLog>, b: seq<WorkoutLog>)
    ensures TotalMinutes(a + b) == TotalMinutes(a) + TotalMinutes(b)
    decreases |b|
  {
    if b == [] {
      assert a + b == a;
    } else {
      assert (a + b)[..|a + b| - 1] == a + b[..|b| - 1];
      assert (a + b)[|a + b| - 1] == b[|b| - 1];
      TotalMinutesOfConcat(a, b[..|b| - 1]);
    }
  }

  datatype Badge = Badge(id: string, unlocked: bool)

  /** `calculateBadges`: the seven badges and their unlock thresholds. */
  function Badges(stats: Stats): (r: seq<Badge>)
    ensures |r| == 7
  {
    [ Badge("first_workout", stats.totalWorkouts >= 1),
      Badge("streak_3", stats.currentStreak >= 3 || stats.longestStreak >= 3),
      Badge("streak_7", stats.currentStreak >= 7 || stats.longestStreak >= 7),
      Badge("streak_30", stats.longestStreak >= 30),
      Badge("workouts_10", stats.totalWorkouts >= 10),
      Badge("workouts_50", stats.totalWorkouts >= 50),
      Badge("hours_10", stats.totalMinutes >= 600) ]
  }

  /** `b` has at least the workouts, minutes and streaks of `a`. */
  predicate Dominates(b: Stats, a: Stats)
  {
    && b.totalWorkouts >= a.totalWorkouts && b.totalMinutes >= a.totalMinutes
    && b.currentStreak >= a.currentStreak && b.longestStreak >= a.longestStreak
  }

  /** Better statistics never lock a badge that worse ones unlock. */
  lemma BadgesMonotone(a: Stats, b: Stats)
    requires Dominates(b, a)
    ensures forall i | 0 <= i < 7 :: Badges(a)[i].unlocked ==> Badges(b)[i].unlocked
    ensures forall i | 0 <= i < 7 :: Badges(a)[i].id == Badges(b)[i].id
  {
  }

  /**
   * For statistics computed from logs the current streak never exceeds the
   * longest, so the streak badges depend on the longest streak alone.
   */
  lemma StreakBadgesFollowLongest(logs: seq<WorkoutLog>, today: int, previous: Stats, stats: Stats)
    requires logs != []
    requires stats.currentStreak == CurrentStreak(DistinctDays(LogDays(logs)), today)
    requires stats.longestStreak == LongestStreak(DistinctDays(LogDays(logs)))
    ensures Badges(stats)[1].unlocked <==> stats.longestStreak >= 3
    ensures Badges(stats)[2].unlocked <==> stats.longestStreak >= 7
    ensures Badges(stats)[3].unlocked <==> stats.longestStreak >= 30
  {
    StreakBounds(logs, today);
  }
}
