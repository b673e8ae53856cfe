/**
  Streaks of consecutive days (scripts/backfill/user-streak.algorithm.ts) and the backfill that stores
  them (scripts/backfill/user-streak.ts).
*/
module Streaks {
  import opened Prelude
  import opened Calendar

  // ---------------------------------------------------------------------------------------------
  // Runs in a set of day numbers
  // ---------------------------------------------------------------------------------------------

  ghost predicate Run(s: set<int>, first: int, n: nat) {
    forall x | first <= x < first + n :: x in s
  }

  ghost predicate HasRun(s: set<int>, n: nat) {
    exists first :: Run(s, first, n)
  }

  lemma {:induction false} RunFits(s: set<int>, first: int, n: nat)
    requires Run(s, first, n)
    ensures n <= |s|
  {
    if n > 0 {
      RunFits(s - {first + n - 1}, first, n - 1);
    }
  }

  ghost function GreatestRunUpTo(s: set<int>, n: nat): nat {
    if n == 0 || HasRun(s, n) then n else GreatestRunUpTo(s, n - 1)
  }

  /** The greatest n such that n consecutive days are all present. */
  ghost function LongestRun(s: set<int>): nat {
    GreatestRunUpTo(s, |s|)
  }

  lemma {:induction false} GreatestIsGreatest(s: set<int>, n: nat, k: nat)
    requires k <= n && HasRun(s, k)
    ensures k <= GreatestRunUpTo(s, n) <= n && HasRun(s, GreatestRunUpTo(s, n))
  {
    if n == 0 || HasRun(s, n) {
      assert n == 0 ==> Run(s, 0, 0);
    } else {
      GreatestIsGreatest(s, n - 1, k);
    }
  }

  lemma LongestIsARun(s: set<int>)
    ensures HasRun(s, LongestRun(s))
  {
    assert Run(s, 0, 0);
    GreatestIsGreatest(s, |s|, 0);
  }

  lemma RunIsAtMostLongest(s: set<int>, first: int, n: nat)
    requires Run(s, first, n)
    ensures n <= LongestRun(s)
  {
    RunFits(s, first, n);
    GreatestIsGreatest(s, |s|, n);
  }

  /** The length of the run that ends on day t. */
  ghost function RunEnding(s: set<int>, t: int): nat
    decreases |s|
  {
    if t in s then 1 + RunEnding(s - {t}, t - 1) else 0
  }

  lemma {:induction false} RunEndingIs(s: set<int>, t: int, n: nat)
    requires Run(s, t - n + 1, n) && t - n !in s
    ensures RunEnding(s, t) == n
    decreases n
  {
    if n > 0 {
      RunEndingIs(s - {t}, t - 1, n - 1);
    }
  }

  lemma {:induction false} RunEndingHolds(s: set<int>, t: int)
    ensures var n := RunEnding(s, t); Run(s, t - n + 1, n) && t - n !in s
    decreases |s|
  {
    if t in s {
      RunEndingHolds(s - {t}, t - 1);
      var m := RunEnding(s - {t}, t - 1);
      assert RunEnding(s, t) == m + 1;
      forall x | t - m <= x < t + 1 ensures x in s {
        if x < t {
          assert x in s - {t};
        }
      }
    } else {
      assert RunEnding(s, t) == 0;
    }
  }

  lemma RunInLarger(a: set<int>, b: set<int>, first: int, n: nat)
    requires a <= b && Run(a, first, n)
    ensures Run(b, first, n)
  {
    forall x | first <= x < first + n ensures x in b {
      assert x in a;
    }
  }

  /** A present day next to today makes the run one longer. */
  lemma TomorrowExtends(s: set<int>, t: int)
    ensures RunEnding(s + {t + 1}, t + 1) == RunEnding(s, t) + 1
  {
    RunEndingHolds(s, t);
    RunEndingIs(s + {t + 1}, t + 1, RunEnding(s, t) + 1);
  }

  function Max(a: nat, b: nat): nat {
    if a > b then a else b
  }

  /** A new earliest day starts one new run; the longest is that one or the old one. */
  lemma NewEarliestDay(s: set<int>, d: int, n: nat)
    requires forall x | x in s :: d < x
    requires n >= 1 && Run(s, d + 1, n - 1) && d + n !in s
    ensures LongestRun(s + {d}) == Max(LongestRun(s), n)
  {
    var s' := s + {d};
    LongestIsARun(s);
    var first :| Run(s, first, LongestRun(s));
    RunIsAtMostLongest(s', first, LongestRun(s));
    RunIsAtMostLongest(s', d, n);
    LongestIsARun(s');
    var m := LongestRun(s');
    var first' :| Run(s', first', m);
    if first' == d {
      assert n < m ==> d <= d + n < d + m && d + n in s';
    } else if m > 0 {
      assert first' in s';
      RunIsAtMostLongest(s, first', m);
    }
  }

  // ---------------------------------------------------------------------------------------------
  // The scan over descending day numbers; only days from `lo` on have a predecessor that can be written
  // ---------------------------------------------------------------------------------------------

  ghost predicate Falling(nums: seq<int>) {
    forall i, j | 0 <= i < j < |nums| :: nums[j] < nums[i]
  }

  ghost function Values(nums: seq<int>): set<int> {
    set i | 0 <= i < |nums| :: nums[i]
  }

  ghost function From(s: set<int>, lo: int): set<int> {
    set x | x in s && x >= lo
  }

  ghost function Walkable(s: set<int>, lo: int, today: int): set<int> {
    set x | x in s && (x >= lo || x == today)
  }

  ghost function LongestFrom(nums: seq<int>, lo: int): nat {
    Max(LongestRun(From(Values(nums), lo)), if nums == [] then 0 else 1)
  }

  ghost predicate Linked(nums: seq<int>, i: nat, lo: int)
    requires 0 < i < |nums|
  {
    nums[i] == nums[i - 1] - 1 && nums[i] >= lo
  }

  /** `run` is how many days in a row end the first i ones. */
  ghost predicate RunSoFar(nums: seq<int>, i: nat, lo: int, run: nat)
    requires i <= |nums|
  {
    if i == 0 then run == 0
    else if nums[i - 1] < lo then run == 1
    else run >= 1 && Run(From(Values(nums[..i]), lo), nums[i - 1], run)
                  && nums[i - 1] + run !in From(Values(nums[..i]), lo)
  }

  lemma ValuesStep(nums: seq<int>, i: nat, lo: int)
    requires Falling(nums) && i < |nums|
    ensures From(Values(nums[..i + 1]), lo) ==
            if nums[i] >= lo then From(Values(nums[..i]), lo) + {nums[i]} else From(Values(nums[..i]), lo)
    ensures forall x | x in Values(nums[..i]) :: nums[i] < x
    ensures i > 0 ==> nums[i - 1] in Values(nums[..i])
    ensures i > 0 ==> forall x | x in Values(nums[..i]) :: nums[i - 1] <= x
  {
    var now, next := nums[..i], nums[..i + 1];
    assert next == now + [nums[i]];
    assert next[i] == nums[i];
    assert i > 0 ==> now[i - 1] == nums[i - 1];
    forall x | x in Values(now) ensures x in Values(next) {
      var j :| 0 <= j < i && now[j] == x;
      assert next[j] == x;
    }
    assert Values(next) == Values(now) + {nums[i]};
  }

  lemma ScanStep(nums: seq<int>, i: nat, lo: int, run: nat, run': nat)
    requires Falling(nums) && i < |nums| && RunSoFar(nums, i, lo, run)
    requires run' == if i == 0 || Linked(nums, i, lo) then run + 1 else 1
    ensures RunSoFar(nums, i + 1, lo, run')
    ensures LongestFrom(nums[..i + 1], lo) == Max(LongestFrom(nums[..i], lo), run')
  {
    var d, s := nums[i], From(Values(nums[..i]), lo);
    ValuesStep(nums, i, lo);
    assert nums[..i + 1] != [];
    LongestOfNone(lo);
    if d >= lo {
      RunGoesOn(nums, i, lo, run, run');
      NewEarliestDay(s, d, run');
    }
  }

  lemma LongestOfNone(lo: int)
    ensures LongestFrom([], lo) == 0
  {
    assert Values([]) == {} && From({}, lo) == {};
  }

  lemma RunGoesOn(nums: seq<int>, i: nat, lo: int, run: nat, run': nat)
    requires Falling(nums) && i < |nums| && RunSoFar(nums, i, lo, run) && nums[i] >= lo
    requires run' == if i == 0 || Linked(nums, i, lo) then run + 1 else 1
    ensures var s := From(Values(nums[..i]), lo);
            && run' >= 1 && Run(s, nums[i] + 1, run' - 1) && nums[i] + run' !in s
            && Run(s + {nums[i]}, nums[i], run') && nums[i] + run' !in s + {nums[i]}
  {
    ValuesStep(nums, i, lo);
    var s := From(Values(nums[..i]), lo);
    assert i > 0 ==> nums[i - 1] in s;
    assert Run(s, nums[i] + 1, run' - 1);
    RunInLarger(s, s + {nums[i]}, nums[i] + 1, run' - 1);
  }

  // ---------------------------------------------------------------------------------------------
  // Days as text
  // ---------------------------------------------------------------------------------------------

  ghost predicate AllDays(days: seq<string>) {
    forall i | 0 <= i < |days| :: IsDay(days[i])
  }

  ghost predicate Descending(days: seq<string>) {
    forall i, j | 0 <= i < j < |days| :: TextBefore(days[j], days[i])
  }

  ghost function Nums(days: seq<string>): (nums: seq<int>)
    requires AllDays(days)
    ensures |nums| == |days|
  {
    seq(|days|, i requires 0 <= i < |days| => DayOf(days[i]))
  }

  ghost function DaysOf(days: seq<string>): set<int>
    requires AllDays(days)
  {
    Values(Nums(days))
  }

  /** What computeLongestStreak computes; LongestIsExactIff says when this is the longest run. */
  ghost function LongestStreak(days: seq<string>): nat
    requires AllDays(days)
  {
    LongestFrom(Nums(days), FIRST)
  }

  /** What computeCurrentStreak computes; CurrentIsExactIff says when this is the run ending today. */
  ghost function CurrentStreak(days: seq<string>, today: string): nat
    requires AllDays(days) && IsDay(today)
  {
    RunEnding(Walkable(DaysOf(days), FIRST, DayOf(today)), DayOf(today))
  }

  lemma NumsFall(days: seq<string>)
    requires AllDays(days) && Descending(days)
    ensures Falling(Nums(days))
  {
    forall i, j | 0 <= i < j < |days| ensures Nums(days)[j] < Nums(days)[i] {
      TextOrderIsDayOrder(days[j], days[i]);
    }
  }

  lemma AtMostLast(s: string)
    requires IsDay(s)
    ensures DayOf(s) <= LAST
  {
    NumBelow(s[..4]);
    RangeOfDays(Parse(s).value);
  }

  /** The comparison both loops make: the text of the day before, in a year of four digits. */
  lemma IsDayBefore(d: string, prev: string)
    requires IsDay(d) && IsDay(prev)
    ensures d == UtcDaySubtract(prev, 1) <==> DayOf(d) == DayOf(prev) - 1 && DayOf(d) >= FIRST
  {
    var r := UtcDaySubtract(prev, 1);
    SubtractLowersByN(prev, 1);
    AtMostLast(prev);
    if IsDay(r) {
      TextOrderIsDayOrder(d, r);
    }
  }

  lemma LinkedIff(days: seq<string>, i: nat)
    requires AllDays(days) && 0 < i < |days|
    ensures days[i] == UtcDaySubtract(days[i - 1], 1) <==> Linked(Nums(days), i, FIRST)
  {
    var nums := Nums(days);
    assert nums[i] == DayOf(days[i]) && nums[i - 1] == DayOf(days[i - 1]);
    IsDayBefore(days[i], days[i - 1]);
  }

  lemma PresentIff(days: seq<string>, d: string)
    requires AllDays(days) && IsDay(d)
    ensures d in days <==> DayOf(d) in DaysOf(days)
  {
    var nums := Nums(days);
    if d in days {
      var i :| 0 <= i < |days| && days[i] == d;
      assert nums[i] == DayOf(d);
    }
    if DayOf(d) in DaysOf(days) {
      var i :| 0 <= i < |nums| && nums[i] == DayOf(d);
      TextOrderIsDayOrder(days[i], d);
    }
  }

  // ---------------------------------------------------------------------------------------------
  // The two loops
  // ---------------------------------------------------------------------------------------------

  /** The loop's variables after the first i days. */
  ghost predicate Scanned(days: seq<string>, i: nat, prev: Option<string>, run: nat, longest: nat)
    requires AllDays(days) && i <= |days|
  {
    && prev == (if i == 0 then None else Some(days[i - 1]))
    && RunSoFar(Nums(days), i, FIRST, run) && longest == LongestFrom(Nums(days)[..i], FIRST)
  }

  lemma ScanStarts(days: seq<string>)
    requires AllDays(days)
    ensures Scanned(days, 0, None, 0, 0)
  {
    LongestOfNone(FIRST);
    assert Nums(days)[..0] == [];
  }

  lemma ScanDays(days: seq<string>, i: nat, prev: Option<string>, run: nat, run': nat, longest: nat)
    requires AllDays(days) && Descending(days) && i < |days| && Scanned(days, i, prev, run, longest)
    requires run' == if prev == None || days[i] == UtcDaySubtract(prev.value, 1) then run + 1 else 1
    ensures Scanned(days, i + 1, Some(days[i]), run', Max(longest, run'))
  {
    NumsFall(days);
    if i > 0 {
      LinkedIff(days, i);
    }
    ScanStep(Nums(days), i, FIRST, run, run');
  }

  lemma ScanEnds(days: seq<string>, prev: Option<string>, run: nat, longest: nat)
    requires AllDays(days) && Scanned(days, |days|, prev, run, longest)
    ensures longest == LongestStreak(days)
  {
    assert Nums(days)[..|days|] == Nums(days);
  }

  /** The first half of the loop body: the run goes on, or a new one starts. */
  method NextRun(days: seq<string>, i: nat, prev: Option<string>, run: nat, ghost longest: nat) returns (run': nat)
    requires AllDays(days) && Descending(days) && i < |days| && Scanned(days, i, prev, run, longest)
    ensures Scanned(days, i + 1, Some(days[i]), run', Max(longest, run'))
  {
    if prev == None || days[i] == UtcDaySubtract(prev.value, 1) {
      run' := run + 1;
    } else {
      run' := 1;
    }
    ScanDays(days, i, prev, run, run', longest);
  }

  method ComputeLongestStreak(days: seq<string>) returns (longest: nat)
    requires AllDays(days) && Descending(days)
    ensures longest == LongestStreak(days)
  {
    longest := 0;
    var prev: Option<string> := None;
    var run: nat := 0;
    ScanStarts(days);
    for i := 0 to |days|
      invariant Scanned(days, i, prev, run, longest)
    {
      run := NextRun(days, i, prev, run, longest);
      if run > longest {
        longest := run;
      }
      prev := Some(days[i]);
    }
    ScanEnds(days, prev, run, longest);
  }

  /** Where the cursor is after n steps back: on that day, or past the years it can write. */
  ghost predicate At(cursor: string, today: int, n: nat) {
    if IsDay(cursor) then DayOf(cursor) == today - n && (n > 0 ==> today - n >= FIRST)
    else n > 0 && today - n < FIRST
  }

  lemma StepBack(cursor: string, t: int, n: nat)
    requires IsDay(cursor) && At(cursor, t, n) && t <= LAST
    ensures At(UtcDaySubtract(cursor, 1), t, n + 1)
  {
    SubtractLowersByN(cursor, 1);
  }

  lemma CanStep(days: seq<string>, cursor: string, t: int, n: nat)
    requires AllDays(days) && cursor in days && At(cursor, t, n)
    ensures IsDay(cursor) && t - n in Walkable(DaysOf(days), FIRST, t)
  {
    var i :| 0 <= i < |days| && days[i] == cursor;
    PresentIff(days, cursor);
  }

  lemma CannotStep(days: seq<string>, cursor: string, t: int, n: nat)
    requires AllDays(days) && cursor !in days && At(cursor, t, n)
    ensures t - n !in Walkable(DaysOf(days), FIRST, t)
  {
    if IsDay(cursor) {
      PresentIff(days, cursor);
    }
  }

  lemma RunReachesBack(s: set<int>, t: int, n: nat)
    requires Run(s, t - n + 1, n) && t - n in s
    ensures Run(s, t - n, n + 1) && n < |s|
  {
    RunFits(s, t - n, n + 1);
  }

  lemma WalkStep(days: seq<string>, cursor: string, t: int, n: nat)
    requires AllDays(days) && cursor in days && At(cursor, t, n) && t <= LAST
    requires Run(Walkable(DaysOf(days), FIRST, t), t - n + 1, n)
    ensures At(UtcDaySubtract(cursor, 1), t, n + 1)
    ensures Run(Walkable(DaysOf(days), FIRST, t), t - n, n + 1) && n < |Walkable(DaysOf(days), FIRST, t)|
  {
    CanStep(days, cursor, t, n);
    StepBack(cursor, t, n);
    RunReachesBack(Walkable(DaysOf(days), FIRST, t), t, n);
  }

  /** Walks back from today; it ends because each day it accepts is one it has not accepted before. */
  method ComputeCurrentStreak(days: seq<string>, today: string) returns (current: nat)
    requires AllDays(days) && IsDay(today)
    ensures current == CurrentStreak(days, today)
  {
    var present := set d | d in days;
    current := 0;
    var cursor := today;
    ghost var t := DayOf(today);
    ghost var s := Walkable(DaysOf(days), FIRST, t);
    AtMostLast(today);
    while cursor in present
      invariant Run(s, t - current + 1, current) && At(cursor, t, current)
      decreases |s| - current
    {
      WalkStep(days, cursor, t, current);
      current := current + 1;
      cursor := UtcDaySubtract(cursor, 1);
    }
    CannotStep(days, cursor, t, current);
    RunEndingIs(s, t, current);
  }

  // What the results mean -------------------------------------------------------------------------

  /** The longest streak is the longest run of days, unless every longest run reaches before 1000-01-01. */
  lemma LongestIsExactIff(days: seq<string>)
    requires AllDays(days)
    ensures var s := DaysOf(days);
            LongestStreak(days) == LongestRun(s) <==> LongestRun(s) <= 1 || HasRun(From(s, FIRST), LongestRun(s))
  {
    ScanIsExactIff(Nums(days), FIRST);
  }

  lemma ScanIsExactIff(nums: seq<int>, lo: int)
    ensures var s := Values(nums);
            LongestFrom(nums, lo) == LongestRun(s) <==> LongestRun(s) <= 1 || HasRun(From(s, lo), LongestRun(s))
  {
    var s, m := Values(nums), From(Values(nums), lo);
    LongestIsARun(m);
    var first :| Run(m, first, LongestRun(m));
    RunInLarger(m, s, first, LongestRun(m));
    RunIsAtMostLongest(s, first, LongestRun(m));
    if nums != [] {
      assert nums[0] in s;
      RunIsAtMostLongest(s, nums[0], 1);
    } else {
      assert s == {} && m == {};
    }
    if HasRun(m, LongestRun(s)) {
      var a :| Run(m, a, LongestRun(s));
      RunIsAtMostLongest(m, a, LongestRun(s));
    }
  }

  /** The current streak is the run ending today, unless that run reaches before 1000-01-01. */
  lemma CurrentIsExactIff(days: seq<string>, today: string)
    requires AllDays(days) && IsDay(today)
    ensures var n := RunEnding(DaysOf(days), DayOf(today));
            CurrentStreak(days, today) == n <==> n <= 1 || DayOf(today) - n + 1 >= FIRST
  {
    WalkIsExactIff(DaysOf(days), FIRST, DayOf(today));
  }

  lemma WalkIsExactIff(s: set<int>, lo: int, t: int)
    ensures var n := RunEnding(s, t);
            RunEnding(Walkable(s, lo, t), t) == n <==> n <= 1 || t - n + 1 >= lo
  {
    var w, n := Walkable(s, lo, t), RunEnding(s, t);
    RunEndingHolds(s, t);
    if n <= 1 || t - n + 1 >= lo {
      forall x | t - n + 1 <= x < t + 1 ensures x in w {
        assert x in s;
      }
      RunEndingIs(w, t, n);
    } else {
      RunEndingHolds(w, t);
      assert t - n + 1 !in w;
    }
  }

  lemma CurrentAtMostLongest(days: seq<string>, today: string)
    requires AllDays(days) && IsDay(today)
    ensures CurrentStreak(days, today) <= LongestStreak(days)
  {
    WalkAtMostScan(Nums(days), FIRST, DayOf(today));
  }

  lemma WalkAtMostScan(nums: seq<int>, lo: int, t: int)
    ensures RunEnding(Walkable(Values(nums), lo, t), t) <= LongestFrom(nums, lo)
  {
    var s := Values(nums);
    var w, m := Walkable(s, lo, t), From(s, lo);
    var n := RunEnding(w, t);
    RunEndingHolds(w, t);
    if n > 1 {
      assert t - n + 1 in w;
      forall x | t - n + 1 <= x < t + 1 ensures x in m {
        assert x in w;
      }
      RunIsAtMostLongest(m, t - n + 1, n);
    } else if n == 1 {
      assert t in w;
    }
  }

  /** Answering tomorrow as well makes the current streak one longer. */
  lemma TomorrowAddsOne(days: seq<string>, today: string, tomorrow: string)
    requires AllDays(days) && IsDay(today) && IsDay(tomorrow) && DayOf(tomorrow) == DayOf(today) + 1
    ensures AllDays([tomorrow] + days)
    ensures CurrentStreak([tomorrow] + days, tomorrow) ==
            if DayOf(today) >= FIRST then CurrentStreak(days, today) + 1 else 1
  {
    assert Nums([tomorrow] + days) == [DayOf(tomorrow)] + Nums(days);
    TomorrowInNumbers(Nums(days), FIRST, DayOf(today));
  }

  lemma TomorrowInNumbers(nums: seq<int>, lo: int, t: int)
    ensures RunEnding(Walkable(Values([t + 1] + nums), lo, t + 1), t + 1) ==
            if t >= lo then RunEnding(Walkable(Values(nums), lo, t), t) + 1 else 1
  {
    var more := [t + 1] + nums;
    forall x ensures x in Values(more) <==> x in Values(nums) || x == t + 1 {
      assert more[0] == t + 1;
      if x in Values(nums) {
        var i :| 0 <= i < |nums| && nums[i] == x;
        assert more[i + 1] == nums[i];
      }
    }
    var w := Walkable(Values(more), lo, t + 1);
    if t >= lo {
      assert w == Walkable(Values(nums), lo, t) + {t + 1};
      TomorrowExtends(Walkable(Values(nums), lo, t), t);
    } else {
      RunEndingIs(w, t + 1, 1);
    }
  }

  /** Two days in a row across the year 1000 are counted as one. */
  lemma StreakAcrossYear1000()
    ensures var days := ["1000-01-01", "0999-12-31"];
            AllDays(days) && Descending(days) && LongestRun(DaysOf(days)) == 2 && LongestStreak(days) == 1
  {
    var days := ["1000-01-01", "0999-12-31"];
    DaysAcross();
    TwoAcross(FIRST);
  }

  lemma DaysAcross()
    ensures var days := ["1000-01-01", "0999-12-31"];
            AllDays(days) && Descending(days) && Nums(days) == [FIRST, FIRST - 1]
  {
    var days := ["1000-01-01", "0999-12-31"];
    FirstOf1000();
    LastOf999();
    TextOrderIsDayOrder(days[1], days[0]);
  }

  lemma TwoAcross(lo: int)
    ensures LongestRun(Values([lo, lo - 1])) == 2 && LongestFrom([lo, lo - 1], lo) == 1
  {
    var nums := [lo, lo - 1];
    var s := Values(nums);
    assert nums[0] == lo && nums[1] == lo - 1;
    assert s == {lo - 1, lo};
    RunIsAtMostLongest(s, lo - 1, 2);
    LongestIsARun(s);
    var a :| Run(s, a, LongestRun(s));
    RunFits(s, a, LongestRun(s));
    var m := From(s, lo);
    assert m == {lo};
    LongestIsARun(m);
    var b :| Run(m, b, LongestRun(m));
    RunFits(m, b, LongestRun(m));
  }

  // ---------------------------------------------------------------------------------------------
  // The backfill
  // ---------------------------------------------------------------------------------------------

  datatype StreakTrio = StreakTrio(currentStreak: nat, longestStreak: nat, lastStreakDay: Option<string>)

  ghost function TrioOf(days: seq<string>, today: string): StreakTrio
    requires AllDays(days) && IsDay(today)
  {
    StreakTrio(CurrentStreak(days, today), LongestStreak(days), if today in days then Some(today) else None)
  }

  /** lastStreakDay is today if today is among the days and null otherwise, whatever other days there are. */
  method ComputeBackfillTrio(days: seq<string>, today: string) returns (trio: StreakTrio)
    requires AllDays(days) && Descending(days) && IsDay(today)
    ensures trio == TrioOf(days, today) && trio.currentStreak <= trio.longestStreak
    ensures trio.currentStreak == CurrentStreak(days, today) && trio.longestStreak == LongestStreak(days)
    ensures trio.lastStreakDay == if today in days then Some(today) else None
  {
    var currentStreak := ComputeCurrentStreak(days, today);
    var longestStreak := ComputeLongestStreak(days);
    var lastStreakDay := if currentStreak > 0 then Some(today) else None;
    PresentIff(days, today);
    CurrentAtMostLongest(days, today);
    trio := StreakTrio(currentStreak, longestStreak, lastStreakDay);
  }

  type UserId = string

  datatype User = User(trio: StreakTrio, deleted: bool)

  datatype Summary = Summary(usersEvaluated: nat, usersUpdated: nat, unchangedUsers: nat, maxStreakSeen: nat,
                             errorCount: nat)

  /** A user's days, or the error of the query for them. */
  type Attempts = UserId -> Result<seq<string>>

  ghost predicate GoodAttempts(attempts: Attempts) {
    forall id :: attempts(id).Ok? ==> AllDays(attempts(id).value) && Descending(attempts(id).value)
  }

  type Users = map<UserId, User>

  /** The users after the rows of `done` have been recomputed. */
  ghost predicate Backfilled(before: Users, after: Users, done: set<UserId>, attempts: Attempts, today: string)
    requires IsDay(today) && GoodAttempts(attempts)
  {
    && after.Keys == before.Keys
    && forall id | id in before ::
         after[id] ==
         if id in done && !before[id].deleted && attempts(id).Ok?
         then before[id].(trio := TrioOf(attempts(id).value, today)) else before[id]
  }

  function Errors(userIds: seq<UserId>, attempts: Attempts): nat {
    if userIds == [] then 0
    else
      Errors(userIds[..|userIds| - 1], attempts) + if attempts(userIds[|userIds| - 1]).Err? then 1 else 0
  }

  /** The greatest longest streak among the users whose query worked. */
  ghost function Best(userIds: seq<UserId>, attempts: Attempts): nat
    requires GoodAttempts(attempts)
  {
    if userIds == [] then 0
    else
      var sooner, last := Best(userIds[..|userIds| - 1], attempts), attempts(userIds[|userIds| - 1]);
      if last.Ok? then Max(LongestStreak(last.value), sooner) else sooner
  }

  function Members(userIds: seq<UserId>): set<UserId> {
    set id | id in userIds
  }

  lemma SummaryStep(userIds: seq<UserId>, i: nat, attempts: Attempts)
    requires GoodAttempts(attempts) && i < |userIds|
    ensures Members(userIds[..i + 1]) == Members(userIds[..i]) + {userIds[i]}
    ensures Errors(userIds[..i + 1], attempts) ==
            Errors(userIds[..i], attempts) + if attempts(userIds[i]).Err? then 1 else 0
    ensures Best(userIds[..i + 1], attempts) ==
            if attempts(userIds[i]).Ok?
            then Max(LongestStreak(attempts(userIds[i]).value), Best(userIds[..i], attempts))
            else Best(userIds[..i], attempts)
  {
    assert userIds[..i + 1] == userIds[..i] + [userIds[i]] && userIds[..i + 1][..i] == userIds[..i];
  }

  lemma {:induction false} ErrorsAreCounted(userIds: seq<UserId>, attempts: Attempts)
    ensures Errors(userIds, attempts) == |set i | 0 <= i < |userIds| && attempts(userIds[i]).Err?|
  {
    if userIds != [] {
      var n := |userIds| - 1;
      var sooner := userIds[..n];
      ErrorsAreCounted(sooner, attempts);
      var before := set i | 0 <= i < |sooner| && attempts(sooner[i]).Err?;
      var after := set i | 0 <= i < |userIds| && attempts(userIds[i]).Err?;
      forall i ensures i in after <==> i in before || (i == n && attempts(userIds[n]).Err?) {
        assert 0 <= i < n ==> userIds[i] == sooner[i];
      }
      if attempts(userIds[n]).Err? {
        assert after == before + {n};
      } else {
        assert after == before;
      }
    }
  }

  lemma {:induction false} BestIsGreatest(userIds: seq<UserId>, attempts: Attempts)
    requires GoodAttempts(attempts)
    ensures forall id | id in userIds && attempts(id).Ok? ::
              LongestStreak(attempts(id).value) <= Best(userIds, attempts)
    ensures Best(userIds, attempts) == 0
            || exists id :: id in userIds && attempts(id).Ok?
                            && LongestStreak(attempts(id).value) == Best(userIds, attempts)
  {
    if userIds != [] {
      var n := |userIds| - 1;
      BestIsGreatest(userIds[..n], attempts);
      assert userIds == userIds[..n] + [userIds[n]];
    }
  }

  /** The users whose row differs. */
  ghost function Changed(before: Users, after: Users): set<UserId> {
    set id | id in before && id in after && after[id] != before[id]
  }

  lemma ChangedOne(a: Users, b: Users, c: Users, done: set<UserId>, id: UserId, attempts: Attempts, today: string)
    requires IsDay(today) && GoodAttempts(attempts) && Backfilled(a, b, done, attempts, today)
    requires Backfilled(b, c, {id}, attempts, today) && c != b
    ensures id !in Changed(a, b) && Changed(a, c) == Changed(a, b) + {id}
  {
    assert id in a && c[id] != b[id] && b[id] == a[id];
  }

  /** Recomputing one more user changes one more row or none. */
  lemma ChangedStep(a: Users, b: Users, c: Users, done: set<UserId>, id: UserId, attempts: Attempts, today: string)
    requires IsDay(today) && GoodAttempts(attempts) && Backfilled(a, b, done, attempts, today)
    requires c == b || Backfilled(b, c, {id}, attempts, today)
    ensures |Changed(a, c)| == |Changed(a, b)| + if c != b then 1 else 0
  {
    if c != b {
      ChangedOne(a, b, c, done, id, attempts, today);
    }
  }

  lemma OneMore(a: Users, b: Users, c: Users, done: set<UserId>, id: UserId, attempts: Attempts, today: string)
    requires IsDay(today) && GoodAttempts(attempts)
    requires Backfilled(a, b, done, attempts, today) && Backfilled(b, c, {id}, attempts, today)
    ensures Backfilled(a, c, done + {id}, attempts, today)
    ensures a != b ==> a != c
  {
    if a != b {
      var x :| x in a && a[x] != b[x];
      assert c[x] == b[x];
    }
  }

  class Backfill {
    var users: Users

    constructor (users: Users)
      ensures this.users == users
    {
      this.users := users;
    }

    /** UPDATE ... WHERE ... IS DISTINCT FROM; returns whether a row came back. */
    method WriteStreakCache(id: UserId, trio: StreakTrio) returns (updated: bool)
      modifies this
      ensures updated <==> id in old(users) && !old(users)[id].deleted && old(users)[id].trio != trio
      ensures users == if id in old(users) && !old(users)[id].deleted
                       then old(users)[id := old(users)[id].(trio := trio)] else old(users)
    {
      updated := false;
      if id in users && !users[id].deleted {
        var row := users[id];
        if row.trio.currentStreak != trio.currentStreak || row.trio.longestStreak != trio.longestStreak
           || row.trio.lastStreakDay != trio.lastStreakDay {
          users := users[id := row.(trio := trio)];
          updated := true;
        }
      }
    }

    /** Returns whether the user's row changed and the longest streak, or the query's error. */
    method BackfillOneUser(id: UserId, today: string, dryRun: bool, attempts: Attempts) returns (r: Result<(bool, nat)>)
      requires IsDay(today) && GoodAttempts(attempts)
      modifies this
      ensures Backfilled(old(users), users, if dryRun then {} else {id}, attempts, today)
      ensures r.Ok? <==> attempts(id).Ok?
      ensures r.Ok? ==> r.value.1 == LongestStreak(attempts(id).value)
      ensures (r.Ok? && r.value.0) <==> users != old(users)
    {
      match attempts(id)
      case Err(error) => return Err(error);
      case Ok(days) =>
        var trio := ComputeBackfillTrio(days, today);
        if dryRun {
          return Ok((false, trio.longestStreak));
        }
        var updated := WriteStreakCache(id, trio);
        assert updated ==> users[id] != old(users)[id];
        return Ok((updated, trio.longestStreak));
    }

    /** The loop over the users; an error in one does not stop the others. */
    method Run(userIds: seq<UserId>, today: string, dryRun: bool, attempts: Attempts) returns (n: Summary)
      requires IsDay(today) && GoodAttempts(attempts)
      modifies this
      ensures Backfilled(old(users), users, if dryRun then {} else Members(userIds), attempts, today)
      ensures n.usersEvaluated == |userIds| == n.usersUpdated + n.unchangedUsers + n.errorCount
      ensures n.errorCount == |set i | 0 <= i < |userIds| && attempts(userIds[i]).Err?|
      ensures n.usersUpdated == |set id | id in old(users) && id in users && users[id] != old(users)[id]|
      ensures forall id | id in userIds && attempts(id).Ok? :: LongestStreak(attempts(id).value) <= n.maxStreakSeen
      ensures n.maxStreakSeen == 0
              || exists id :: id in userIds && attempts(id).Ok? && LongestStreak(attempts(id).value) == n.maxStreakSeen
    {
      n := Summary(0, 0, 0, 0, 0);
      ghost var done: set<UserId> := {};
      for i := 0 to |userIds|
        invariant done == if dryRun then {} else Members(userIds[..i])
        invariant Backfilled(old(users), users, done, attempts, today)
        invariant n.usersEvaluated == i == n.usersUpdated + n.unchangedUsers + n.errorCount
        invariant n.usersUpdated == |Changed(old(users), users)|
        invariant n.errorCount == Errors(userIds[..i], attempts) && n.maxStreakSeen == Best(userIds[..i], attempts)
      {
        var id := userIds[i];
        ghost var before := users;
        SummaryStep(userIds, i, attempts);
        n := n.(usersEvaluated := n.usersEvaluated + 1);
        var r := BackfillOneUser(id, today, dryRun, attempts);
        if r.Err? {
          n := n.(errorCount := n.errorCount + 1);
        } else {
          if r.value.0 {
            n := n.(usersUpdated := n.usersUpdated + 1);
          } else {
            n := n.(unchangedUsers := n.unchangedUsers + 1);
          }
          if r.value.1 > n.maxStreakSeen {
            n := n.(maxStreakSeen := r.value.1);
          }
        }
        ChangedStep(old(users), before, users, done, id, attempts, today);
        if !dryRun {
          OneMore(old(users), before, users, done, id, attempts, today);
          done := done + {id};
        }
      }
      assert userIds[..|userIds|] == userIds;
      ErrorsAreCounted(userIds, attempts);
      BestIsGreatest(userIds, attempts);
    }

    /** Re-running the backfill with nothing new changes no row and reports none as updated. */
    method RunTwice(userIds: seq<UserId>, today: string, attempts: Attempts) returns (first: Summary, second: Summary)
      requires IsDay(today) && GoodAttempts(attempts)
      modifies this
      ensures Backfilled(old(users), users, Members(userIds), attempts, today)
      ensures second.usersUpdated == 0 && second.errorCount + second.unchangedUsers == |userIds|
    {
      ghost var start := users;
      first := Run(userIds, today, false, attempts);
      ghost var once := users;
      second := Run(userIds, today, false, attempts);
      BackfillIsIdempotent(start, once, users, Members(userIds), attempts, today);
    }
  }

  lemma BackfillIsIdempotent(a: Users, b: Users, c: Users, done: set<UserId>, attempts: Attempts, today: string)
    requires IsDay(today) && GoodAttempts(attempts)
    requires Backfilled(a, b, done, attempts, today) && Backfilled(b, c, done, attempts, today)
    ensures c == b
  {
    forall id | id in b ensures c[id] == b[id] {
    }
  }
}
