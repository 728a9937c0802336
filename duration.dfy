/**
 * The session-duration estimator of utils/duration.ts: every exercise costs
 * `sets * (reps * tempo + rest) + 60` seconds, with defaults for missing or zero
 * fields, and the session total is rounded up to whole minutes.
 *
 * A JavaScript NaN can arise when a rep range has an end that is not a number
 * ("MAX-1"); it is `None` here and, as in the source, it makes the whole
 * estimate NaN.
 */
module Duration {
  import opened Types
  import opened Text

  /** `Math.ceil(x / 2)` on an integer. */
  function CeilHalf(x: int): (r: int)
    ensures 2 * r - 1 <= x <= 2 * r
  {
    (x + 1) / 2
  }

  /** The rounded-up mean of the first two `Number`-parsed '-' fields of `s` ("12-15" is 14). */
  function RangeReps(s: string): (r: Option<int>)
    requires '-' in s
    ensures r.Some? ==> r.value >= 0
  {
    var parts := Split(s, '-');
    assert '-' !in parts[0] && '-' !in parts[1];
    var lo := JsNumber(parts[0]);
    var hi := JsNumber(parts[1]);
    if lo.Some? && hi.Some? then Some(CeilHalf(lo.value + hi.value)) else None
  }

  /** `parseInt(s) || 10`. */
  function PrefixReps(s: string): (r: int)
    requires '-' !in s
    ensures r >= 1
  {
    match ParseIntPrefix(s)
    case None => 10
    case Some(n) => if n == 0 then 10 else n
  }

  /**
   * `parseReps`: a number is kept as it is, the empty string is 10, a text with a
   * '-' is the rounded-up mean of the first two `Number`-parsed fields, and any
   * other text is its `parseInt` prefix, 10 when that is 0 or NaN.
   */
  function ParseReps(reps: Reps): (r: Option<int>)
    ensures reps.RepsCount? ==> r == Some(reps.n)
    ensures reps == RepsText("") ==> r == Some(10)
    ensures reps.RepsText? && '-' !in reps.text ==> r.Some? && r.value >= 1
    ensures reps.RepsText? && r.Some? ==> r.value >= 0
  {
    match reps
    case RepsCount(n) => Some(n)
    case RepsText(s) =>
      if s == "" then Some(10)
      else if '-' in s then RangeReps(s)
      else Some(PrefixReps(s))
  }

  /** Each character of a tempo code: 'X' or 'x' is one second, a digit its value, anything else nothing. */
  function CharSeconds(c: char): nat
  {
    if c == 'X' || c == 'x' then 1
    else if IsDigitIn(c, Decimal) then RadixDigit(c)
    else 0
  }

  /** The sum of the character values of a code, added left to right. */
  function TempoSum(code: string): (r: nat)
    ensures r <= 9 * |code|
  {
    if code == [] then 0 else TempoSum(code[..|code| - 1]) + CharSeconds(code[|code| - 1])
  }

  /** The value `parseTempo` computes: 4 unless the code has exactly four characters with a positive sum. */
  function TempoSeconds(code: string): (r: nat)
    ensures 1 <= r <= 36
    ensures |code| != 4 ==> r == 4
  {
    if |code| != 4 then 4
    else
      var total := TempoSum(code);
      if total > 0 then total else 4
  }

  /** `parseTempo`, the loop over the characters of the code. */
  method ParseTempo(code: string) returns (seconds: nat)
    ensures seconds == TempoSeconds(code)
  {
    if |code| != 4 {
      return 4;
    }
    var total := 0;
    var i := 0;
    while i < |code|
      invariant 0 <= i <= |code|
      invariant total == TempoSum(code[..i])
    {
      assert code[..i + 1][..i] == code[..i];
      total := total + CharSeconds(code[i]);
      i := i + 1;
    }
    assert code[..i] == code;
    seconds := if total > 0 then total else 4;
  }

  /** `exo.tempo || "2010"`. */
  function TempoCode(tempo: Option<string>): string
  {
    match tempo
    case None => "2010"
    case Some(code) => if code == "" then "2010" else code
  }

  const SetupSeconds: int := 60

  /** The seconds of `sets` sets of `reps` repetitions at `tempo` seconds each, with `rest` seconds after each set, plus the setup minute. */
  function SetSeconds(sets: int, reps: int, tempo: int, rest: int): (r: int)
    ensures sets >= 0 && reps >= 0 && tempo >= 0 && rest >= 0 ==> r >= SetupSeconds
  {
    SetsCostNonNegative(sets, reps, tempo, rest);
    sets * (reps * tempo + rest) + SetupSeconds
  }

  /** The seconds one exercise adds to the estimate; None when its reps are NaN. */
  function ExerciseSeconds(e: Exercise): Option<int>
  {
    match ParseReps(e.reps)
    case None => None
    case Some(reps) =>
      var sets := OrDefault(e.sets, 3);
      var rest := OrDefault(e.rest, 60);
      Some(SetSeconds(sets, reps, TempoSeconds(TempoCode(e.tempo)), rest))
  }

  /** The seconds of one exercise in terms of its parsed reps and tempo. */
  lemma ExerciseSecondsOf(e: Exercise, reps: Option<int>, tempo: int)
    requires reps == ParseReps(e.reps) && tempo == TempoSeconds(TempoCode(e.tempo))
    ensures ExerciseSeconds(e) ==
      if reps.None? then None else Some(SetSeconds(OrDefault(e.sets, 3), reps.value, tempo, OrDefault(e.rest, 60)))
  {
  }

  /** An exercise's seconds are NaN exactly when its reps are. */
  lemma ExerciseNaNIffRepsNaN(e: Exercise)
    ensures ExerciseSeconds(e).None? <==> ParseReps(e.reps).None?
  {
  }

  /** Products of non-negative factors grow with each factor. */
  lemma ScaleMonotone(a: int, b: int, c: int, d: int)
    requires 0 <= a <= b && 0 <= c <= d
    ensures a * c <= b * d
  {
    assert a * c <= b * c;
    assert b * c <= b * d;
  }

  /** More sets, or a longer rest, never make a well-formed exercise cheaper (above the defaults). */
  lemma MoreSetsOrRestCostMore(e: Exercise, sets: int, rest: int)
    requires WellFormed(e) && 1 <= e.sets <= sets && 1 <= e.rest <= rest
    ensures ExerciseSeconds(e.(sets := sets, rest := rest)).Some?
    ensures ExerciseSeconds(e).value <= ExerciseSeconds(e.(sets := sets, rest := rest)).value
  {
    var f := e.(sets := sets, rest := rest);
    var reps := ParseReps(e.reps);
    assert reps.value >= 0;
    var tempo := TempoSeconds(TempoCode(e.tempo));
    ExerciseSecondsOf(e, reps, tempo);
    ExerciseSecondsOf(f, reps, tempo);
    SetsCostNonNegative(1, reps.value, tempo, 0);
    var work := reps.value * tempo;
    ScaleMonotone(e.sets, sets, work + e.rest, work + rest);
  }

  /** JavaScript addition where NaN absorbs everything. */
  function AddSeconds(a: Option<int>, b: Option<int>): Option<int>
  {
    if a.Some? && b.Some? then Some(a.value + b.value) else None
  }

  /** The running `totalSeconds` after the exercises `exs`, in list order. */
  function TotalSeconds(exs: seq<Exercise>): Option<int>
  {
    if exs == [] then Some(0)
    else AddSeconds(TotalSeconds(exs[..|exs| - 1]), ExerciseSeconds(exs[|exs| - 1]))
  }

  /** `Math.ceil(seconds / 60)`. */
  function CeilMinutes(seconds: int): (m: int)
    ensures 60 * (m - 1) < seconds <= 60 * m
  {
    (seconds + 59) / 60
  }

  /** The estimate `calculateSessionDuration` returns: 0 for no session, NaN (None) when a rep count is NaN. */
  function EstimatedMinutes(session: Option<Session>): Option<int>
  {
    match session
    case None => Some(0)
    case Some(s) =>
      match TotalSeconds(s.exercises)
      case None => None
      case Some(total) => Some(CeilMinutes(total))
  }

  /** One pass of the `calculateSessionDuration` loop: the seconds `exo` adds, NaN (None) when its reps are NaN. */
  method ExerciseDuration(exo: Exercise) returns (exoSeconds: Option<int>)
    ensures exoSeconds == ExerciseSeconds(exo)
  {
    var sets := OrDefault(exo.sets, 3);
    var reps := ParseReps(exo.reps);
    var tempo := ParseTempo(TempoCode(exo.tempo));
    var rest := OrDefault(exo.rest, 60);
    exoSeconds := if reps.None? then None else Some(SetSeconds(sets, reps.value, tempo, rest));
    ExerciseSecondsOf(exo, reps, tempo);
  }

  /** `calculateSessionDuration`: accumulate the seconds of each exercise, then round up to minutes. */
  method CalculateSessionDuration(session: Option<Session>) returns (minutes: Option<int>)
    ensures minutes == EstimatedMinutes(session)
  {
    if session.None? {
      return Some(0);
    }
    var exercises := session.value.exercises;
    var totalSeconds: Option<int> := Some(0);
    var i := 0;
    while i < |exercises|
      invariant 0 <= i <= |exercises|
      invariant totalSeconds == TotalSeconds(exercises[..i])
    {
      var exoSeconds := ExerciseDuration(exercises[i]);
      assert exercises[..i + 1][..i] == exercises[..i];
      totalSeconds := AddSeconds(totalSeconds, exoSeconds);
      i := i + 1;
    }
    assert exercises[..i] == exercises;
    minutes := if totalSeconds.None? then None else Some(CeilMinutes(totalSeconds.value));
  }

  // ------------------------------------------------------------------ lemmas

  /** Exercises whose fields are not negative and whose reps parse to a number. */
  predicate WellFormed(e: Exercise)
  {
    && e.sets >= 0
    && e.rest >= 0
    && ParseReps(e.reps).Some?
    && (e.reps.RepsCount? ==> e.reps.n >= 0)
  }

  /** A zero set count counts as 3, a zero rest as 60 (so a superset's `rest: 0` still costs a minute), a missing tempo as "2010". */
  lemma DefaultsAreSubstitutions(e: Exercise)
    ensures ExerciseSeconds(e.(sets := 0)) == ExerciseSeconds(e.(sets := 3))
    ensures ExerciseSeconds(e.(rest := 0)) == ExerciseSeconds(e.(rest := 60))
    ensures ExerciseSeconds(e.(tempo := None)) == ExerciseSeconds(e.(tempo := Some("2010")))
    ensures ExerciseSeconds(e.(tempo := Some(""))) == ExerciseSeconds(e.(tempo := Some("2010")))
  {
  }

  /** A well-formed exercise costs at least its one-minute setup. */
  lemma ExerciseAtLeastSetup(e: Exercise)
    requires WellFormed(e)
    ensures ExerciseSeconds(e).Some? && ExerciseSeconds(e).value >= SetupSeconds
  {
    var reps := ParseReps(e.reps);
    assert reps.value >= 0;
    ExerciseSecondsOf(e, reps, TempoSeconds(TempoCode(e.tempo)));
  }

  lemma SetsCostNonNegative(sets: int, reps: int, tempo: int, rest: int)
    ensures sets >= 0 && reps >= 0 && tempo >= 0 && rest >= 0 ==> sets * (reps * tempo + rest) >= 0
  {
    if sets >= 0 && reps >= 0 && tempo >= 0 && rest >= 0 {
      assert reps * tempo >= 0;
    }
  }

  lemma {:induction false} TotalAtLeastSetups(exs: seq<Exercise>)
    requires forall k | 0 <= k < |exs| :: WellFormed(exs[k])
    ensures TotalSeconds(exs).Some? && TotalSeconds(exs).value >= SetupSeconds * |exs|
  {
    if exs != [] {
      TotalAtLeastSetups(exs[..|exs| - 1]);
      ExerciseAtLeastSetup(exs[|exs| - 1]);
    }
  }

  /**
   * With well-formed exercises the estimate is a number of at least one minute
   * per exercise, and it is 0 exactly when the session has no exercise.
   */
  lemma EstimateAtLeastOneMinutePerExercise(s: Session)
    requires forall k | 0 <= k < |s.exercises| :: WellFormed(s.exercises[k])
    ensures EstimatedMinutes(Some(s)).Some?
    ensures EstimatedMinutes(Some(s)).value >= |s.exercises|
    ensures EstimatedMinutes(Some(s)).value == 0 <==> s.exercises == []
  {
    TotalAtLeastSetups(s.exercises);
  }

  /** A missing session, or one with no exercise, is estimated at 0 minutes. */
  lemma EmptySessionIsZero(s: Session)
    requires s.exercises == []
    ensures EstimatedMinutes(None) == Some(0)
    ensures EstimatedMinutes(Some(s)) == Some(0)
  {
  }

  lemma {:induction false} TotalOfConcat(a: seq<Exercise>, b: seq<Exercise>)
    ensures TotalSeconds(a + b) == AddSeconds(TotalSeconds(a), TotalSeconds(b))
    decreases |b|
  {
    if b == [] {
      assert a + b == a;
    } else {
      var b' := b[..|b| - 1];
      assert (a + b)[..|a + b| - 1] == a + b';
      assert (a + b)[|a + b| - 1] == b[|b| - 1];
      TotalOfConcat(a, b');
    }
  }

  /** The estimate does not depend on the order of the exercises. */
  lemma {:induction false} TotalIgnoresOrder(a: seq<Exercise>, b: seq<Exercise>)
    requires multiset(a) == multiset(b)
    ensures TotalSeconds(a) == TotalSeconds(b)
    decreases |a|
  {
    if a == [] {
      assert |b| == |multiset(b)| == 0;
    } else {
      var x := a[|a| - 1];
      var a' := a[..|a| - 1];
      assert a == a' + [x];
      assert x in multiset(b);
      var i :| 0 <= i < |b| && b[i] == x;
      var b' := b[..i] + b[i + 1..];
      assert b == b[..i] + [x] + b[i + 1..];
      assert multiset(b') == multiset(b) - multiset{x};
      assert multiset(a') == multiset(a) - multiset{x};
      TotalIgnoresOrder(a', b');
      TotalOfConcat(b[..i], b[i + 1..]);
      TotalOfConcat(b[..i] + [x], b[i + 1..]);
      TotalOfConcat(b[..i], [x]);
      TotalOfConcat(a', [x]);
      AddSecondsSwap(TotalSeconds(b[..i]), TotalSeconds([x]), TotalSeconds(b[i + 1..]));
    }
  }

  lemma AddSecondsSwap(p: Option<int>, q: Option<int>, r: Option<int>)
    ensures AddSeconds(AddSeconds(p, q), r) == AddSeconds(AddSeconds(p, r), q)
  {
  }

  lemma EstimateIgnoresOrder(s: Session, t: Session)
    requires multiset(s.exercises) == multiset(t.exercises)
    ensures EstimatedMinutes(Some(s)) == EstimatedMinutes(Some(t))
  {
    TotalIgnoresOrder(s.exercises, t.exercises);
  }

  /** A text whose first two '-' fields are numerals counts as their rounded-up mean. */
  lemma ParseRepsOfFields(s: string, lo: int, hi: int)
    requires |Split(s, '-')| >= 2
    requires JsNumber(Split(s, '-')[0]) == Some(lo) && JsNumber(Split(s, '-')[1]) == Some(hi)
    ensures ParseReps(RepsText(s)) == Some(CeilHalf(lo + hi))
  {
    var parts := Split(s, '-');
    assert '-' in s;
    assert s != "";
    assert RangeReps(s) == Some(CeilHalf(lo + hi));
  }

  lemma FieldsHaveNoDash(lo: nat, hi: nat, more: seq<string>)
    requires forall k | 0 <= k < |more| :: '-' !in more[k]
    ensures forall k | 0 <= k < |[NatToString(lo), NatToString(hi)] + more| ::
      '-' !in ([NatToString(lo), NatToString(hi)] + more)[k]
  {
  }

  /** A rep range "lo-hi", possibly followed by more '-' fields, counts as the rounded-up mean of lo and hi. */
  lemma ParseRepsRange(lo: nat, hi: nat, more: seq<string>)
    requires forall k | 0 <= k < |more| :: '-' !in more[k]
    ensures ParseReps(RepsText(Join([NatToString(lo), NatToString(hi)] + more, '-'))) == Some(CeilHalf(lo + hi))
  {
    var parts := [NatToString(lo), NatToString(hi)] + more;
    FieldsHaveNoDash(lo, hi, more);
    SplitJoin(parts, '-');
    NumberOfRendering(lo);
    NumberOfRendering(hi);
    ParseRepsOfFields(Join(parts, '-'), lo, hi);
  }

  /** "12-15" is the fields 12 and 15 joined by '-'. */
  lemma RangeFields(s: string)
    requires s == "12-15"
    ensures s == Join([NatToString(12), NatToString(15)], '-')
  {
    assert NatToString(12) == "12" && NatToString(15) == "15";
    assert [NatToString(12), NatToString(15)][1..] == [NatToString(15)];
  }

  /** "12-15" counts as 14 repetitions. */
  lemma RangeExample(s: string)
    requires s == "12-15"
    ensures ParseReps(RepsText(s)) == Some(14)
  {
    RangeFields(s);
    assert [NatToString(12), NatToString(15)] + [] == [NatToString(12), NatToString(15)];
    ParseRepsRange(12, 15, []);
    assert CeilHalf(12 + 15) == 14;
  }

  /** "15-12-10-8" is the four fields 15, 12, 10 and 8 joined by '-'. */
  lemma DropSetFields(s: string)
    requires s == "15-12-10-8"
    ensures s == Join([NatToString(15), NatToString(12)] + ["10", "8"], '-')
  {
    var parts := [NatToString(15), NatToString(12)] + ["10", "8"];
    assert NatToString(15) == "15" && NatToString(12) == "12";
    assert parts[1..] == ["12", "10", "8"] && parts[1..][1..] == ["10", "8"] && parts[1..][1..][1..] == ["8"];
    assert Join(["10", "8"], '-') == "10-8";
    assert Join(["12", "10", "8"], '-') == "12-10-8";
  }

  /** A drop set "15-12-10-8" counts only its first two fields: 14 repetitions. */
  lemma DropSetExample(s: string)
    requires s == "15-12-10-8"
    ensures ParseReps(RepsText(s)) == Some(14)
  {
    DropSetFields(s);
    assert '-' !in "10" && '-' !in "8";
    ParseRepsRange(15, 12, ["10", "8"]);
    assert CeilHalf(15 + 12) == 14;
  }

  /** Text with no leading digits, such as "MAX", falls back to 10. */
  lemma MaxRepsExample(s: string)
    requires s == "MAX"
    ensures ParseReps(RepsText(s)) == Some(10)
  {
    assert TrimStart(s) == s;
    assert LeadingDigits(s, Decimal) == [];
  }

  /** A text that starts with a positive number followed by a non-digit and holds no '-' counts as that number. */
  lemma ParseRepsOfLeadingNumber(n: nat, rest: string)
    requires n > 0 && '-' !in rest
    requires rest == [] || (!IsDigitIn(rest[0], Decimal) && rest[0] != 'x' && rest[0] != 'X')
    ensures ParseReps(RepsText(NatToString(n) + rest)) == Some(n)
  {
    var s := NatToString(n) + rest;
    assert s != "" && '-' !in s;
    ParseIntOfRenderingThen(n, rest);
  }

  /** A drop set "20/15/12" reads its first number. */
  lemma DropSetPrefixExample(s: string)
    requires s == "20/15/12"
    ensures ParseReps(RepsText(s)) == Some(20)
  {
    assert NatToString(20) == "20";
    assert s == NatToString(20) + "/15/12";
    ParseRepsOfLeadingNumber(20, "/15/12");
  }

  /** A zero count reads as 0 and then falls back to 10. */
  lemma ZeroRepsExample(s: string)
    requires s == "0"
    ensures ParseReps(RepsText(s)) == Some(10)
  {
    assert TrimStart(s) == s;
    assert LeadingDigits(s, Decimal) == "0";
    assert ValueIn("0", Decimal) == 0 by {
      assert "0"[..0] == [];
    }
    assert ParseIntPrefix(s) == Some(0);
  }

  lemma TempoExamples()
    ensures TempoSeconds("2010") == 3
    ensures TempoSeconds("30X1") == 5
    ensures TempoSeconds("") == 4
    ensures TempoSeconds("Rapide") == 4 && TempoSeconds("Max") == 4 && TempoSeconds("Explosif") == 4
  {
    assert "2010"[..3] == "201" && "201"[..2] == "20" && "20"[..1] == "2";
    assert "30X1"[..3] == "30X" && "30X"[..2] == "30" && "30"[..1] == "3";
  }
}
