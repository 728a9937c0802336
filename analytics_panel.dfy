/**
 * The analytics panel of components/AnalyticsPanel.tsx: the Epley one-rep-max
 * calculator, the tonnage of a workout, the plateau / progress insights, the
 * four-week volume chart, the twelve-week activity heatmap and its colour
 * tiers, and the this-week summary. Weights are exact reals; instants are
 * seconds of local time and calendar days are day numbers.
 */
module AnalyticsPanel {
  import opened Types
  import opened Text
  import Duration

  // --------------------------------------------------------------- one-rep max

  /** `Math.round(x * 10) / 10`: the nearest tenth, halves rounded up. */
  function RoundTenth(x: real): (r: real)
    ensures x - 0.05 < r <= x + 0.05
    ensures (r * 10.0).Floor as real == r * 10.0
  {
    (x * 10.0 + 0.5).Floor as real / 10.0
  }

  /** The Epley estimate of the one-rep max. */
  function Epley(weight: real, reps: real): real
  {
    weight * (1.0 + reps / 30.0)
  }

  /**
   * `calculate1RM`: the parsed weight and reps (None for NaN) replace the shown
   * one-rep max only when the weight is positive and the reps are in (0, 12];
   * otherwise the previous value stays.
   */
  function Calculate1RM(weight: Option<real>, reps: Option<real>, previous: Option<real>): (r: Option<real>)
    ensures r != previous ==> weight.Some? && reps.Some?
    ensures weight.Some? && reps.Some? && weight.value > 0.0 && 0.0 < reps.value <= 12.0 ==>
      && r.Some? && Epley(weight.value, reps.value) - 0.05 < r.value <= Epley(weight.value, reps.value) + 0.05
      && (r.value * 10.0).Floor as real == r.value * 10.0
    ensures !(weight.Some? && reps.Some? && weight.value > 0.0 && 0.0 < reps.value <= 12.0) ==> r == previous
  {
    if weight.Some? && reps.Some? && weight.value > 0.0 && reps.value > 0.0 && reps.value <= 12.0 then
      Some(RoundTenth(Epley(weight.value, reps.value)))
    else
      previous
  }

  /** The estimate exceeds the lifted weight, by at most 40 % within the accepted rep range. */
  lemma EpleyBounds(weight: real, reps: real)
    requires weight > 0.0 && 0.0 < reps <= 12.0
    ensures weight < Epley(weight, reps) <= 1.4 * weight
  {
    assert weight * (reps / 30.0) > 0.0;
    assert weight * (reps / 30.0) <= weight * 0.4;
  }

  /** A shown one-rep max is never below the lifted weight less the rounding. */
  lemma OneRepMaxAtLeastWeight(weight: real, reps: real, previous: Option<real>)
    requires weight > 0.0 && 0.0 < reps <= 12.0
    ensures var r := Calculate1RM(Some(weight), Some(reps), previous);
      r.Some? && r.value > weight - 0.05 && r.value <= 1.4 * weight + 0.05
  {
    EpleyBounds(weight, reps);
  }

  // ------------------------------------------------------------------ tonnage

  /**
   * The reps `calculateTonnage` multiplies by: a number as it is; text is the
   * `parseInt` of the part before the first '-', 10 when that is 0 or NaN.
   */
  function TonnageReps(reps: Reps): (r: int)
    ensures reps.RepsText? ==> r >= 1
  {
    match reps
    case RepsCount(n) => n
    case RepsText(t) =>
      var head := Split(t, '-')[0];
      match ParseIntPrefix(head)
      case None => 10
      case Some(v) => OrDefault(v, 10)
  }

  /** The tonnage of one logged exercise: sets times reps times weight. */
  function ExerciseTonnage(e: LoggedExercise): real
  {
    (e.sets * TonnageReps(e.reps)) as real * e.weight
  }

  /** The sum of the exercise tonnages (a `reduce` in the source). */
  function SumTonnage(exs: seq<LoggedExercise>): real
  {
    if exs == [] then 0.0 else SumTonnage(exs[..|exs| - 1]) + ExerciseTonnage(exs[|exs| - 1])
  }

  /** `calculateTonnage`: 0 for a log without exercise detail. */
  function Tonnage(log: WorkoutLog): (r: real)
    ensures log.exercises.None? ==> r == 0.0
  {
    match log.exercises
    case None => 0.0
    case Some(exs) => SumTonnage(exs)
  }

  /** Text reps without a dash are read exactly as the duration estimator reads them. */
  lemma TonnageRepsWithoutDash(t: string)
    requires '-' !in t
    ensures TonnageReps(RepsText(t)) == Duration.ParseReps(RepsText(t)).value
  {
    var parts := Split(t, '-');
    assert |parts| == 1;
    assert Join(parts, '-') == parts[0];
  }

  /** A range "lo-hi" is read by its first number. */
  lemma TonnageRepsOfFields(lo: nat, hi: nat)
    ensures TonnageReps(RepsText(Join([NatToString(lo), NatToString(hi)], '-'))) == OrDefault(lo, 10)
  {
    SplitJoin([NatToString(lo), NatToString(hi)], '-');
    ParseIntOfRendering(lo);
  }

  /** A range is read by its first number here, where the duration estimator takes the rounded mean. */
  lemma TonnageRepsOfRange(s: string)
    requires s == "12-15"
    ensures TonnageReps(RepsText(s)) == 12
    ensures Duration.ParseReps(RepsText(s)) == Some(14)
  {
    Duration.RangeExample(s);
    Duration.RangeFields(s);
    TonnageRepsOfFields(12, 15);
  }

  lemma {:induction false} SumTonnageOfConcat(a: seq<LoggedExercise>, b: seq<LoggedExercise>)
    ensures SumTonnage(a + b) == SumTonnage(a) + SumTonnage(b)
    decreases |b|
  {
    if b == [] {
      assert a + b == a;
    } else {
      assert (a + b)[..|a + b| - 1] == a + b[..|b| - 1];
      SumTonnageOfConcat(a, b[..|b| - 1]);
    }
  }

  lemma ProductNonNegative(sets: int, reps: int, weight: real)
    requires sets >= 0 && reps >= 0 && weight >= 0.0
    ensures (sets * reps) as real * weight >= 0.0
  {
    assert sets * reps >= 0;
  }

  /** With non-negative sets, rep counts and weights, tonnage is never negative. */
  lemma {:induction false} SumTonnageNonNegative(exs: seq<LoggedExercise>)
    requires forall k | 0 <= k < |exs| :: exs[k].sets >= 0 && exs[k].weight >= 0.0
    requires forall k | 0 <= k < |exs| :: TonnageReps(exs[k].reps) >= 0
    ensures SumTonnage(exs) >= 0.0
  {
    if exs != [] {
      var e := exs[|exs| - 1];
      ProductNonNegative(e.sets, TonnageReps(e.reps), e.weight);
      SumTonnageNonNegative(exs[..|exs| - 1]);
    }
  }

  /** The tonnage of a list of logs. */
  function LogsTonnage(logs: seq<WorkoutLog>): real
  {
    if logs == [] then 0.0 else LogsTonnage(logs[..|logs| - 1]) + Tonnage(logs[|logs| - 1])
  }

  lemma {:induction false} LogsTonnageOfConcat(a: seq<WorkoutLog>, b: seq<WorkoutLog>)
    ensures LogsTonnage(a + b) == LogsTonnage(a) + LogsTonnage(b)
    decreases |b|
  {
    if b == [] {
      assert a + b == a;
    } else {
      assert (a + b)[..|a + b| - 1] == a + b[..|b| - 1];
      LogsTonnageOfConcat(a, b[..|b| - 1]);
    }
  }

  // ------------------------------------------------------------------ plateaus

  /** One point of an exercise's history: the completion instant and the weight lifted. */
  datatype Entry = Entry(date: int, maxWeight: real)

  /** A performance insight; the trend text is reduced to the number it shows. */
  datatype Insight = Stagnant(name: string, endWeight: real) | Progressing(name: string, percent: real)

  /** The (exercise name, entry) pairs of exercises logged at instant `t`, in order. */
  function ExercisePairs(t: int, exs: seq<LoggedExercise>): (r: seq<(string, Entry)>)
    ensures |r| == |exs|
  {
    if exs == [] then []
    else ExercisePairs(t, exs[..|exs| - 1]) + [(exs[|exs| - 1].name, Entry(t, exs[|exs| - 1].weight))]
  }

  /** The pairs one log contributes: none without exercise detail. */
  function Pairs(log: WorkoutLog): (r: seq<(string, Entry)>)
    ensures log.exercises.None? ==> r == []
  {
    match log.exercises
    case None => []
    case Some(exs) => ExercisePairs(log.completedAt, exs)
  }

  /** All pairs of the logs, in log order. */
  function Flatten(logs: seq<WorkoutLog>): seq<(string, Entry)>
  {
    if logs == [] then [] else Flatten(logs[..|logs| - 1]) + Pairs(logs[|logs| - 1])
  }

  predicate Distinct(names: seq<string>)
  {
    forall i, j | 0 <= i < j < |names| :: names[i] != names[j]
  }

  /** The exercise names in order of first appearance (the key order of the grouping record). */
  function KeyOrder(ps: seq<(string, Entry)>): (r: seq<string>)
    ensures Distinct(r)
    ensures forall n :: n in r <==> exists k | 0 <= k < |ps| :: ps[k].0 == n
  {
    if ps == [] then []
    else
      var prefix := KeyOrder(ps[..|ps| - 1]);
      var n := ps[|ps| - 1].0;
      if n in prefix then prefix else prefix + [n]
  }

  /** The entries recorded for one exercise name, in order of appearance. */
  function HistoryOf(ps: seq<(string, Entry)>, name: string): (r: seq<Entry>)
    ensures |r| <= |ps|
    ensures forall e :: e in r <==> (name, e) in ps
  {
    if ps == [] then []
    else
      var last := ps[|ps| - 1];
      HistoryOf(ps[..|ps| - 1], name) + if last.0 == name then [last.1] else []
  }

  predicate SortedByDate(h: seq<Entry>)
  {
    forall i, j | 0 <= i < j < |h| :: h[i].date <= h[j].date
  }

  /** Places `e` after every entry not later than it: the insertion step of a stable sort. */
  function InsertByDate(h: seq<Entry>, e: Entry): (r: seq<Entry>)
    requires SortedByDate(h)
    ensures SortedByDate(r)
    ensures multiset(r) == multiset(h) + multiset{e}
    ensures |r| == |h| + 1
  {
    if h == [] || h[|h| - 1].date <= e.date then
      AppendLatest(h, e);
      h + [e]
    else
      var rest := InsertByDate(h[..|h| - 1], e);
      assert h == h[..|h| - 1] + [h[|h| - 1]];
      LastIsLatest(h, e, rest);
      AppendLatest(rest, h[|h| - 1]);
      rest + [h[|h| - 1]]
  }

  /** An entry no earlier than every entry of a sorted history can go at its end. */
  lemma AppendLatest(h: seq<Entry>, e: Entry)
    requires SortedByDate(h) && forall x | x in h :: x.date <= e.date
    ensures SortedByDate(h + [e])
  {
    var r := h + [e];
    forall i, j | 0 <= i < j < |r|
      ensures r[i].date <= r[j].date
    {
      assert r[i] == h[i] && h[i] in h;
    }
  }

  /** Inserting an earlier entry into all but the last of a sorted history leaves the last entry the latest. */
  lemma LastIsLatest(h: seq<Entry>, e: Entry, rest: seq<Entry>)
    requires h != [] && SortedByDate(h) && e.date < h[|h| - 1].date
    requires multiset(rest) == multiset(h[..|h| - 1]) + multiset{e}
    ensures forall x | x in rest :: x.date <= h[|h| - 1].date
  {
    forall x | x in rest
      ensures x.date <= h[|h| - 1].date
    {
      assert x in multiset(rest);
      if x != e {
        assert x in multiset(h[..|h| - 1]);
        var k :| 0 <= k < |h| - 1 && h[k] == x;
      }
    }
  }

  /** `history.sort(by date ascending)`: a stable sort, as the engine's sort is. */
  function SortByDate(h: seq<Entry>): (r: seq<Entry>)
    ensures SortedByDate(r)
    ensures multiset(r) == multiset(h)
    ensures |r| == |h|
  {
    if h == [] then []
    else
      assert h == h[..|h| - 1] + [h[|h| - 1]];
      InsertByDate(SortByDate(h[..|h| - 1]), h[|h| - 1])
  }

  /**
   * The verdict on one exercise's date-sorted history: nothing under three
   * entries; otherwise the first and last of the latest three weights decide.
   * No gain from a positive start is a plateau reporting the latest weight, a
   * gain is progress in percent of the start (0 when the start is not positive),
   * and no gain from a start of zero or below is nothing.
   */
  function Analyze(name: string, h: seq<Entry>): (r: Option<Insight>)
    ensures |h| < 3 ==> r == None
    ensures r.Some? ==> r.value.name == name && |h| >= 3
    ensures |h| >= 3 ==>
      var start := h[|h| - 3].maxWeight;
      var end := h[|h| - 1].maxWeight;
      && (r.Some? && r.value.Stagnant? <==> end <= start && start > 0.0)
      && (r.Some? && r.value.Progressing? <==> end > start)
      && (r.Some? && r.value.Stagnant? ==> r.value.endWeight == end)
      && (r.Some? && r.value.Progressing? ==> r.value.percent >= 0.0 && (start > 0.0 ==> r.value.percent > 0.0))
      && (r.Some? && r.value.Progressing? ==>
            (start > 0.0 ==> start + start * r.value.percent / 100.0 == end) && (start <= 0.0 ==> r.value.percent == 0.0))
  {
    if |h| < 3 then None
    else
      var recent := h[|h| - 3..];
      var startWeight := recent[0].maxWeight;
      var endWeight := recent[2].maxWeight;
      var progressDiff := endWeight - startWeight;
      var progressPct := if startWeight > 0.0 then progressDiff / startWeight * 100.0 else 0.0;
      if progressDiff <= 0.0 && startWeight > 0.0 then Some(Stagnant(name, endWeight))
      else if progressDiff > 0.0 then Some(Progressing(name, progressPct))
      else None
  }

  function AsSeq(o: Option<Insight>): seq<Insight>
  {
    match o
    case None => []
    case Some(x) => [x]
  }

  /** The insights for the given names, in their order. */
  function InsightsFor(names: seq<string>, ps: seq<(string, Entry)>): seq<Insight>
  {
    if names == [] then []
    else
      var n := names[|names| - 1];
      InsightsFor(names[..|names| - 1], ps) + AsSeq(Analyze(n, SortByDate(HistoryOf(ps, n))))
  }

  /** The first four items. */
  function TakeFour(xs: seq<Insight>): (r: seq<Insight>)
    ensures r <= xs
    ensures |r| == if |xs| <= 4 then |xs| else 4
  {
    if |xs| <= 4 then xs else xs[..4]
  }

  /** The insights `detectPlateaus` returns for a list of logs. */
  function Plateaus(logs: seq<WorkoutLog>): seq<Insight>
  {
    TakeFour(InsightsFor(KeyOrder(Flatten(logs)), Flatten(logs)))
  }

  lemma PairStep(ps: seq<(string, Entry)>, p: (string, Entry), n: string)
    ensures HistoryOf(ps + [p], n) == HistoryOf(ps, n) + if p.0 == n then [p.1] else []
    ensures KeyOrder(ps + [p]) == if p.0 in KeyOrder(ps) then KeyOrder(ps) else KeyOrder(ps) + [p.0]
  {
    assert (ps + [p])[..|ps|] == ps;
  }

  lemma FlattenStep(logs: seq<WorkoutLog>, i: nat)
    requires i < |logs|
    ensures Flatten(logs[..i + 1]) == Flatten(logs[..i]) + Pairs(logs[i])
  {
    assert logs[..i + 1][..i] == logs[..i];
  }

  /**
   * The grouping phase of `detectPlateaus`: the entries of the logs by exercise
   * name, the names in order of first appearance.
   */
  method GroupByExercise(logs: seq<WorkoutLog>) returns (names: seq<string>, history: map<string, seq<Entry>>)
    ensures names == KeyOrder(Flatten(logs))
    ensures history.Keys == set k | 0 <= k < |names| :: names[k]
    ensures forall k | 0 <= k < |names| :: names[k] in history && history[names[k]] == HistoryOf(Flatten(logs), names[k])
  {
    names := [];
    history := map[];
    var i := 0;
    while i < |logs|
      invariant 0 <= i <= |logs|
      invariant Grouped(names, history, Flatten(logs[..i]))
    {
      FlattenStep(logs, i);
      names, history := AddLogEntries(names, history, logs[i], Flatten(logs[..i]));
      i := i + 1;
    }
    assert logs[..|logs|] == logs;
    GroupedByName(names, history, Flatten(logs));
  }

  /** The inner `forEach` of the grouping: records the exercises of one log, if it has any. */
  method AddLogEntries(names0: seq<string>, history0: map<string, seq<Entry>>, log: WorkoutLog, ghost ps: seq<(string, Entry)>)
    returns (names: seq<string>, history: map<string, seq<Entry>>)
    requires Grouped(names0, history0, ps)
    ensures Grouped(names, history, ps + Pairs(log))
  {
    names, history := names0, history0;
    if log.exercises.None? {
      assert ps + Pairs(log) == ps;
      return;
    }
    var exs := log.exercises.value;
    ghost var seen := ps;
    var j := 0;
    assert exs[..0] == [] && ps + [] == ps;
    while j < |exs|
      invariant 0 <= j <= |exs|
      invariant seen == ps + ExercisePairs(log.completedAt, exs[..j])
      invariant Grouped(names, history, seen)
    {
      var exo := exs[j];
      var entry := Entry(log.completedAt, exo.weight);
      GroupedStep(names, history, seen, (exo.name, entry));
      ExercisePairsStep(log.completedAt, exs, j);
      var entries := if exo.name in history then history[exo.name] else [];
      if exo.name !in history {
        names := names + [exo.name];
      }
      history := history[exo.name := entries + [entry]];
      AppendPair(ps, ExercisePairs(log.completedAt, exs[..j]), (exo.name, entry));
      seen := seen + [(exo.name, entry)];
      j := j + 1;
    }
    assert exs[..|exs|] == exs;
  }

  /** The grouping record holds, for each name seen so far in `ps`, its entries; names in order of first appearance. */
  ghost predicate Grouped(names: seq<string>, history: map<string, seq<Entry>>, ps: seq<(string, Entry)>)
  {
    && names == KeyOrder(ps)
    && (forall n :: n in history <==> n in names)
    && (forall n | n in history :: history[n] == HistoryOf(ps, n))
  }

  /** Recording one more pair: a new name is added with an empty list, then the entry is appended to its list. */
  lemma GroupedStep(names: seq<string>, history: map<string, seq<Entry>>, ps: seq<(string, Entry)>, p: (string, Entry))
    requires Grouped(names, history, ps)
    ensures Grouped(
      if p.0 in history then names else names + [p.0],
      history[p.0 := (if p.0 in history then history[p.0] else []) + [p.1]],
      ps + [p])
  {
    GroupedNamesStep(names, history, ps, p);
    GroupedHistoryStep(names, history, ps, p);
  }

  lemma GroupedNamesStep(names: seq<string>, history: map<string, seq<Entry>>, ps: seq<(string, Entry)>, p: (string, Entry))
    requires Grouped(names, history, ps)
    ensures (if p.0 in history then names else names + [p.0]) == KeyOrder(ps + [p])
  {
    assert p.0 in history <==> p.0 in KeyOrder(ps);
    PairStep(ps, p, p.0);
  }

  lemma GroupedHistoryStep(names: seq<string>, history: map<string, seq<Entry>>, ps: seq<(string, Entry)>, p: (string, Entry))
    requires Grouped(names, history, ps)
    ensures var history' := history[p.0 := (if p.0 in history then history[p.0] else []) + [p.1]];
      forall n | n in history' :: history'[n] == HistoryOf(ps + [p], n)
  {
    var history' := history[p.0 := (if p.0 in history then history[p.0] else []) + [p.1]];
    UnseenHasNoHistory(ps, p.0);
    forall n | n in history'
      ensures history'[n] == HistoryOf(ps + [p], n)
    {
      PairStep(ps, p, n);
    }
  }

  lemma AppendPair(a: seq<(string, Entry)>, b: seq<(string, Entry)>, p: (string, Entry))
    ensures (a + b) + [p] == a + (b + [p])
  {
  }

  lemma ExercisePairsStep(t: int, exs: seq<LoggedExercise>, j: nat)
    requires j < |exs|
    ensures ExercisePairs(t, exs[..j + 1]) == ExercisePairs(t, exs[..j]) + [(exs[j].name, Entry(t, exs[j].weight))]
  {
    assert exs[..j + 1][..j] == exs[..j];
  }

  lemma UnseenHasNoHistory(ps: seq<(string, Entry)>, n: string)
    ensures n !in KeyOrder(ps) ==> HistoryOf(ps, n) == []
  {
    var h := HistoryOf(ps, n);
    if h != [] {
      assert h[0] in h;
      var k :| 0 <= k < |ps| && ps[k] == (n, h[0]);
      assert ps[k].0 == n;
    }
  }

  /**
   * `detectPlateaus`: group the exercise entries of the logs by name, in order
   * of first appearance; sort each group by date; analyse the latest three
   * entries of every group; keep the first four insights.
   */
  method DetectPlateaus(logs: seq<WorkoutLog>) returns (insights: seq<Insight>)
    ensures insights == Plateaus(logs)
    ensures |insights| <= 4
  {
    var names, history := GroupByExercise(logs);
    ghost var ps := Flatten(logs);
    var found: seq<Insight> := [];
    var k := 0;
    while k < |names|
      invariant 0 <= k <= |names|
      invariant found == InsightsFor(names[..k], ps)
    {
      var name := names[k];
      FoundStep(names, history, ps, k, found);
      var verdict := Analyze(name, SortByDate(history[name]));
      if verdict.Some? {
        found := found + [verdict.value];
      }
      k := k + 1;
    }
    assert names[..|names|] == names;
    insights := if |found| <= 4 then found else found[..4];
  }

  /** What the grouping gives the analysis: each name's entries, by position in the name list. */
  lemma GroupedByName(names: seq<string>, history: map<string, seq<Entry>>, ps: seq<(string, Entry)>)
    requires Grouped(names, history, ps)
    ensures names == KeyOrder(ps)
    ensures history.Keys == set k | 0 <= k < |names| :: names[k]
    ensures forall k | 0 <= k < |names| :: names[k] in history && history[names[k]] == HistoryOf(ps, names[k])
  {
    forall k | 0 <= k < |names|
      ensures names[k] in history && history[names[k]] == HistoryOf(ps, names[k])
    {
      GroupedLookup(names, history, ps, names[k]);
    }
  }

  /** The entries recorded under a name the grouping has seen. */
  lemma GroupedLookup(names: seq<string>, history: map<string, seq<Entry>>, ps: seq<(string, Entry)>, n: string)
    requires Grouped(names, history, ps) && n in names
    ensures n in history && history[n] == HistoryOf(ps, n)
  {
  }

  /** One pass of the analysis loop extends the insights found so far by the verdict on the next name. */
  lemma FoundStep(names: seq<string>, history: map<string, seq<Entry>>, ps: seq<(string, Entry)>, k: nat, found: seq<Insight>)
    requires k < |names| && found == InsightsFor(names[..k], ps)
    requires names[k] in history && history[names[k]] == HistoryOf(ps, names[k])
    ensures var v := Analyze(names[k], SortByDate(history[names[k]]));
      (if v.Some? then found + [v.value] else found) == InsightsFor(names[..k + 1], ps)
  {
    InsightsStep(names, ps, k);
  }

  lemma InsightsStep(names: seq<string>, ps: seq<(string, Entry)>, k: nat)
    requires k < |names|
    ensures InsightsFor(names[..k + 1], ps) ==
      InsightsFor(names[..k], ps) + AsSeq(Analyze(names[k], SortByDate(HistoryOf(ps, names[k]))))
  {
    assert names[..k + 1][..k] == names[..k];
  }

  /**
   * Every insight is about a distinct exercise with at least three entries,
   * and its verdict is the analysis of that exercise's sorted history.
   */
  lemma {:induction false} InsightsAreJustified(names: seq<string>, ps: seq<(string, Entry)>)
    ensures forall x | x in InsightsFor(names, ps) ::
      x.name in names && |HistoryOf(ps, x.name)| >= 3 && Analyze(x.name, SortByDate(HistoryOf(ps, x.name))) == Some(x)
  {
    if names != [] {
      var prefix := names[..|names| - 1];
      var n := names[|names| - 1];
      assert names == prefix + [n];
      InsightsAreJustified(prefix, ps);
      var xs := InsightsFor(prefix, ps);
      var ys := AsSeq(Analyze(n, SortByDate(HistoryOf(ps, n))));
      assert InsightsFor(names, ps) == xs + ys;
      forall x: Insight | x in xs + ys
        ensures x.name in names && |HistoryOf(ps, x.name)| >= 3 && Analyze(x.name, SortByDate(HistoryOf(ps, x.name))) == Some(x)
      {
        if x in xs {
          assert x.name in prefix;
        } else {
          assert x in ys;
        }
      }
    }
  }

  predicate NamesDistinct(xs: seq<Insight>)
  {
    forall i, j | 0 <= i < j < |xs| :: xs[i].name != xs[j].name
  }

  /** Appending at most one insight about a name not yet reported keeps the names distinct. */
  lemma AppendNewName(xs: seq<Insight>, ys: seq<Insight>, n: string)
    requires NamesDistinct(xs) && |ys| <= 1
    requires forall x | x in xs :: x.name != n
    requires forall y | y in ys :: y.name == n
    ensures NamesDistinct(xs + ys)
  {
    var zs := xs + ys;
    forall i, j | 0 <= i < j < |zs|
      ensures zs[i].name != zs[j].name
    {
      if j >= |xs| {
        assert zs[j] == ys[j - |xs|] && zs[j] in ys;
        assert zs[i] == xs[i] && zs[i] in xs;
      } else {
        assert zs[j] == xs[j] && zs[i] == xs[i];
      }
    }
  }

  /** The insights for all but the last of distinct names are not about the last name. */
  lemma EarlierInsightsNotAboutLast(names: seq<string>, ps: seq<(string, Entry)>)
    requires Distinct(names) && names != []
    ensures forall x | x in InsightsFor(names[..|names| - 1], ps) :: x.name != names[|names| - 1]
  {
    var prefix := names[..|names| - 1];
    var xs := InsightsFor(prefix, ps);
    InsightsAreJustified(prefix, ps);
    forall x | x in xs
      ensures x.name != names[|names| - 1]
    {
      var k :| 0 <= k < |prefix| && prefix[k] == x.name;
      assert names[k] == prefix[k];
    }
  }

  /** Insights name distinct exercises, one insight at most per exercise. */
  lemma {:induction false} InsightNamesDistinct(names: seq<string>, ps: seq<(string, Entry)>)
    requires Distinct(names)
    ensures NamesDistinct(InsightsFor(names, ps))
  {
    if names != [] {
      var prefix := names[..|names| - 1];
      var n := names[|names| - 1];
      InsightNamesDistinct(prefix, ps);
      EarlierInsightsNotAboutLast(names, ps);
      AppendNewName(InsightsFor(prefix, ps), AsSeq(Analyze(n, SortByDate(HistoryOf(ps, n)))), n);
    }
  }

  /** The insights of a list of logs: at most four, one per exercise, each with three entries or more. */
  lemma PlateausAreJustified(logs: seq<WorkoutLog>)
    ensures |Plateaus(logs)| <= 4
    ensures forall x | x in Plateaus(logs) ::
      |HistoryOf(Flatten(logs), x.name)| >= 3 &&
      Analyze(x.name, SortByDate(HistoryOf(Flatten(logs), x.name))) == Some(x)
    ensures forall i, j | 0 <= i < j < |Plateaus(logs)| :: Plateaus(logs)[i].name != Plateaus(logs)[j].name
  {
    var ps := Flatten(logs);
    var all := InsightsFor(KeyOrder(ps), ps);
    InsightsAreJustified(KeyOrder(ps), ps);
    InsightNamesDistinct(KeyOrder(ps), ps);
    forall x | x in Plateaus(logs)
      ensures x in all
    {
      var k :| 0 <= k < |Plateaus(logs)| && Plateaus(logs)[k] == x;
      assert all[k] == x;
    }
  }

  /** An exercise whose verdict exists is among the insights for any name list holding it. */
  lemma {:induction false} InsightsComplete(names: seq<string>, ps: seq<(string, Entry)>, n: string)
    requires n in names
    ensures var v := Analyze(n, SortByDate(HistoryOf(ps, n)));
      v.Some? ==> v.value in InsightsFor(names, ps)
  {
    var prefix := names[..|names| - 1];
    var last := names[|names| - 1];
    assert names == prefix + [last];
    var ys := AsSeq(Analyze(last, SortByDate(HistoryOf(ps, last))));
    assert InsightsFor(names, ps) == InsightsFor(prefix, ps) + ys;
    if n != last {
      InsightsComplete(prefix, ps, n);
    }
  }

  /**
   * Nothing is dropped below the cap: with four insights or fewer every
   * exercise that has a verdict is reported, and with more exactly four are.
   */
  lemma PlateausAreComplete(logs: seq<WorkoutLog>, n: string)
    ensures var ps := Flatten(logs);
      var all := InsightsFor(KeyOrder(ps), ps);
      var v := Analyze(n, SortByDate(HistoryOf(ps, n)));
      && (|all| <= 4 && v.Some? ==> v.value in Plateaus(logs))
      && (|all| > 4 ==> |Plateaus(logs)| == 4)
  {
    var ps := Flatten(logs);
    var v := Analyze(n, SortByDate(HistoryOf(ps, n)));
    if v.Some? {
      UnseenHasNoHistory(ps, n);
      InsightsComplete(KeyOrder(ps), ps, n);
    }
  }

  // ------------------------------------------------------------ time windows

  /** The logs completed in the half-open window [lo, hi), in their order. */
  function Between(logs: seq<WorkoutLog>, lo: int, hi: int): (r: seq<WorkoutLog>)
    ensures |r| <= |logs|
    ensures forall x :: x in r <==> x in logs && lo <= x.completedAt < hi
  {
    if logs == [] then []
    else
      var last := logs[|logs| - 1];
      Between(logs[..|logs| - 1], lo, hi) + if lo <= last.completedAt < hi then [last] else []
  }

  /** The logs completed at or after `lo`, in their order. */
  function Since(logs: seq<WorkoutLog>, lo: int): (r: seq<WorkoutLog>)
    ensures |r| <= |logs|
    ensures forall x :: x in r <==> x in logs && lo <= x.completedAt
  {
    if logs == [] then []
    else
      var last := logs[|logs| - 1];
      Since(logs[..|logs| - 1], lo) + if lo <= last.completedAt then [last] else []
  }

  /** A window keeps each log in it as often as it was fetched, and drops every other log. */
  lemma {:induction false} BetweenCounts(logs: seq<WorkoutLog>, lo: int, hi: int)
    ensures forall x :: multiset(Between(logs, lo, hi))[x] == if lo <= x.completedAt < hi then multiset(logs)[x] else 0
  {
    if logs != [] {
      var last := logs[|logs| - 1];
      assert logs == logs[..|logs| - 1] + [last];
      BetweenCounts(logs[..|logs| - 1], lo, hi);
    }
  }

  /** This week's logs keep each recent log as often as it was fetched, and drop every older log. */
  lemma {:induction false} SinceCounts(logs: seq<WorkoutLog>, lo: int)
    ensures forall x :: multiset(Since(logs, lo))[x] == if lo <= x.completedAt then multiset(logs)[x] else 0
  {
    if logs != [] {
      var last := logs[|logs| - 1];
      assert logs == logs[..|logs| - 1] + [last];
      SinceCounts(logs[..|logs| - 1], lo);
    }
  }

  const SecondsPerWeek: int := 7 * SecondsPerDay

  /** The logs of the last seven days: completed no earlier than the same time of day a week ago. */
  function ThisWeekLogs(logs: seq<WorkoutLog>, now: int): seq<WorkoutLog>
  {
    Since(logs, now - SecondsPerWeek)
  }

  /** The tonnage of this week's logs. */
  function WeeklyTonnage(logs: seq<WorkoutLog>, now: int): real
  {
    LogsTonnage(ThisWeekLogs(logs, now))
  }

  /** `totalVolume`: the minutes of all fetched logs, a missing duration counting 0. */
  function TotalVolume(logs: seq<WorkoutLog>): int
  {
    TotalMinutes(logs)
  }

  /** Logs older than a week add no tonnage to the weekly figure. */
  lemma {:induction false} OldLogsAddNoWeeklyTonnage(logs: seq<WorkoutLog>, older: seq<WorkoutLog>, now: int)
    requires forall k | 0 <= k < |older| :: older[k].completedAt < now - SecondsPerWeek
    ensures WeeklyTonnage(logs + older, now) == WeeklyTonnage(logs, now)
    decreases |older|
  {
    if older != [] {
      var rest := older[..|older| - 1];
      assert (logs + older)[..|logs + older| - 1] == logs + rest;
      assert (logs + older)[|logs + older| - 1] == older[|older| - 1];
      assert ThisWeekLogs(logs + older, now) == ThisWeekLogs(logs + rest, now);
      OldLogsAddNoWeeklyTonnage(logs, rest, now);
    } else {
      assert logs + older == logs;
    }
  }

  // ------------------------------------------------------------ volume chart

  /** The first instant of week bucket `i` (i = 0 is the latest): midnight (i + 1) weeks before today. */
  function BucketStart(today: int, i: int): int
  {
    (today - (i + 1) * 7) * SecondsPerDay
  }

  /** The end (excluded) of week bucket `i`: midnight i weeks before today. */
  function BucketEnd(today: int, i: int): int
  {
    (today - i * 7) * SecondsPerDay
  }

  datatype WeekVolume = WeekVolume(caption: string, volume: real)

  function BucketLabel(i: nat): string
  {
    "S-" + NatToString(i)
  }

  /**
   * `generateVolumeChart`: four week buckets, oldest first, labelled "S-3" to
   * "S-0", each summing the tonnage of the logs completed in it. `today` is
   * the day number of the current date.
   */
  method VolumeChart(logs: seq<WorkoutLog>, today: int) returns (weeks: seq<WeekVolume>)
    ensures |weeks| == 4
    ensures forall k | 0 <= k < 4 :: weeks[k] == Bucket(logs, today, 3 - k)
  {
    weeks := [];
    var i := 3;
    while i >= 0
      invariant -1 <= i <= 3
      invariant |weeks| == 3 - i
      invariant forall k | 0 <= k < |weeks| :: weeks[k] == Bucket(logs, today, 3 - k)
    {
      var start := BucketStart(today, i);
      var end := BucketEnd(today, i);
      var weekLogs := Between(logs, start, end);
      var volume := LogsTonnage(weekLogs);
      assert WeekVolume(BucketLabel(i), volume) == Bucket(logs, today, i);
      weeks := weeks + [WeekVolume(BucketLabel(i), volume)];
      i := i - 1;
    }
  }

  /** The bar of the week `i` weeks before the current one: its label and the tonnage logged in it. */
  function Bucket(logs: seq<WorkoutLog>, today: int, i: nat): WeekVolume
  {
    WeekVolume(BucketLabel(i), LogsTonnage(Between(logs, BucketStart(today, i), BucketEnd(today, i))))
  }

  /** `Math.max(...volumes, 1)`. */
  function MaxVolume(weeks: seq<WeekVolume>): (m: real)
    ensures m >= 1.0
    ensures forall k | 0 <= k < |weeks| :: weeks[k].volume <= m
    ensures m == 1.0 || exists k | 0 <= k < |weeks| :: weeks[k].volume == m
  {
    if weeks == [] then 1.0
    else
      var rest := MaxVolume(weeks[..|weeks| - 1]);
      var v := weeks[|weeks| - 1].volume;
      if v > rest then v else rest
  }

  /** The buckets tile the four weeks before today: each ends where the next newer one starts. */
  lemma BucketsAreAdjacent(today: int, i: int)
    ensures BucketEnd(today, i + 1) == BucketStart(today, i)
    ensures BucketStart(today, i) + SecondsPerWeek == BucketEnd(today, i)
  {
  }

  /** An instant lies in at most one bucket. */
  lemma BucketsAreDisjoint(today: int, i: int, j: int, t: int)
    requires 0 <= i < j
    requires BucketStart(today, i) <= t < BucketEnd(today, i)
    ensures !(BucketStart(today, j) <= t < BucketEnd(today, j))
  {
  }

  /** A workout of the current day lies in no bucket: the newest bucket ends at today's midnight. */
  lemma TodayIsInNoBucket(today: int, t: int, i: nat)
    requires DayOf(t) == today
    ensures !(BucketStart(today, i) <= t < BucketEnd(today, i))
  {
  }

  // ------------------------------------------------------------------ heatmap

  datatype DayCell = DayCell(date: int, count: nat)

  /** The number of logs completed on calendar day `day`. */
  function CountOn(logs: seq<WorkoutLog>, day: int): (n: nat)
    ensures n <= |logs|
    ensures n > 0 <==> exists k | 0 <= k < |logs| :: DayOf(logs[k].completedAt) == day
  {
    if logs == [] then 0
    else CountOn(logs[..|logs| - 1], day) + if DayOf(logs[|logs| - 1].completedAt) == day then 1 else 0
  }

  /** The day shown in row `a` (oldest week first) and column `d` of the heatmap. */
  function CellDay(today: int, a: int, d: int): int
  {
    today - ((11 - a) * 7 + (6 - d))
  }

  /**
   * `generateHeatmap`: twelve weeks of seven days, oldest first; each cell
   * holds its day and the number of logs completed on it.
   */
  method Heatmap(logs: seq<WorkoutLog>, today: int) returns (weeks: seq<seq<DayCell>>)
    ensures |weeks| == 12
    ensures forall a | 0 <= a < 12 :: |weeks[a]| == 7
    ensures forall a, d | 0 <= a < 12 && 0 <= d < 7 ::
      weeks[a][d] == DayCell(CellDay(today, a, d), CountOn(logs, CellDay(today, a, d)))
  {
    weeks := [];
    var w := 11;
    while w >= 0
      invariant -1 <= w <= 11
      invariant |weeks| == 11 - w
      invariant forall a | 0 <= a < |weeks| :: |weeks[a]| == 7
      invariant forall a, d | 0 <= a < |weeks| && 0 <= d < 7 ::
        weeks[a][d] == DayCell(CellDay(today, a, d), CountOn(logs, CellDay(today, a, d)))
    {
      var week: seq<DayCell> := [];
      var d := 0;
      while d < 7
        invariant 0 <= d <= 7
        invariant |week| == d
        invariant forall e | 0 <= e < d ::
          week[e] == DayCell(CellDay(today, 11 - w, e), CountOn(logs, CellDay(today, 11 - w, e)))
      {
        var date := today - (w * 7 + (6 - d));
        var count := CountOn(logs, date);
        week := week + [DayCell(date, count)];
        d := d + 1;
      }
      weeks := weeks + [week];
      w := w - 1;
    }
  }

  /** The grid runs through the 84 days ending today, day by day, row after row. */
  lemma HeatmapDays(today: int, a: int, d: int)
    requires 0 <= a < 12 && 0 <= d < 7
    ensures CellDay(today, a, d) == today - 83 + 7 * a + d
    ensures today - 83 <= CellDay(today, a, d) <= today
    ensures CellDay(today, 11, 6) == today
  {
  }

  /** A log of the last 84 days is counted in the cell of its day. */
  lemma LogIsInItsCell(logs: seq<WorkoutLog>, today: int, k: nat)
    requires k < |logs|
    requires today - 83 <= DayOf(logs[k].completedAt) <= today
    ensures var offset := DayOf(logs[k].completedAt) - (today - 83);
      CountOn(logs, CellDay(today, offset / 7, offset % 7)) >= 1
  {
    var offset := DayOf(logs[k].completedAt) - (today - 83);
    assert CellDay(today, offset / 7, offset % 7) == DayOf(logs[k].completedAt);
  }

  /** The four colour classes of a heatmap cell. */
  datatype Tier = Empty | Light | Medium | Dark

  function Rank(t: Tier): nat
  {
    match t
    case Empty => 0
    case Light => 1
    case Medium => 2
    case Dark => 3
  }

  /** The cell colour: none, one, two, or three and more sessions. */
  function TierOf(count: nat): (t: Tier)
    ensures Rank(t) == if count < 3 then count else 3
  {
    if count == 0 then Empty
    else if count == 1 then Light
    else if count == 2 then Medium
    else Dark
  }

  /** More sessions never give a lighter cell. */
  lemma TierMonotone(a: nat, b: nat)
    requires a <= b
    ensures Rank(TierOf(a)) <= Rank(TierOf(b))
  {
  }
}
