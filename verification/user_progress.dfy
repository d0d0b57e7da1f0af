/**
 * A learner's progress summary: the counters over their lesson and test
 * results, and the daily streak (the current run of days with a completed
 * lesson, and the longest such run).
 *
 * A moment is a count of seconds in local time; its calendar day is the
 * floor of that count divided by 86400. "Today" is a parameter.
 */
module UserProgress {
  import opened Wrappers
  import opened Entities
  import opened TestService
  import opened Recommendation
  import opened Streams

  const SECONDS_PER_DAY: int := 86400

  /** The calendar day of a moment (`LocalDate.from`). */
  function Day(t: int): (d: int)
    ensures d * SECONDS_PER_DAY <= t < (d + 1) * SECONDS_PER_DAY
  {
    t / SECONDS_PER_DAY
  }

  /** A learner's stored result for one lesson. */
  datatype LessonProgress = LessonProgress(
    accountId: int, lessonId: int, completed: bool, timeSpentSeconds: Option<int>, completedAt: Option<int>)

  // ---------------------------------------------------------------------------
  // Counters of the summary
  // ---------------------------------------------------------------------------

  /** The number of completed lesson rows. */
  function CompletedLessons(ps: seq<LessonProgress>): (n: nat)
    ensures n <= |ps|
    ensures n == 0 <==> forall k :: 0 <= k < |ps| ==> !ps[k].completed
    ensures n == |ps| <==> forall k :: 0 <= k < |ps| ==> ps[k].completed
  {
    if |ps| == 0 then 0
    else
      var rest := CompletedLessons(ps[1..]);
      assert forall k :: 1 <= k < |ps| ==> ps[k] == ps[1..][k - 1];
      (if ps[0].completed then 1 else 0) + rest
  }

  /** The sum of the present durations; absent ones are skipped. */
  function SumPresent(times: seq<Option<int>>): (total: int)
    ensures (forall k :: 0 <= k < |times| ==> times[k].None?) ==> total == 0
    ensures (forall k :: 0 <= k < |times| ==> times[k].None? || times[k].value >= 0) ==> total >= 0
  {
    if |times| == 0 then 0
    else
      assert forall k :: 1 <= k < |times| ==> times[k] == times[1..][k - 1];
      (if times[0].Some? then times[0].value else 0) + SumPresent(times[1..])
  }

  /** Summing two lists of durations one after the other adds their sums. */
  lemma {:induction false} SumPresentAppend(a: seq<Option<int>>, b: seq<Option<int>>)
    ensures SumPresent(a + b) == SumPresent(a) + SumPresent(b)
  {
    if |a| > 0 {
      assert (a + b)[0] == a[0];
      assert (a + b)[1..] == a[1..] + b;
      SumPresentAppend(a[1..], b);
    } else {
      assert a + b == b;
    }
  }

  function LessonTimes(ps: seq<LessonProgress>): (r: seq<Option<int>>)
    ensures |r| == |ps| && forall k :: 0 <= k < |ps| ==> r[k] == ps[k].timeSpentSeconds
  {
    seq(|ps|, k requires 0 <= k < |ps| => ps[k].timeSpentSeconds)
  }

  function TestTimes(ps: seq<TestProgress>): (r: seq<Option<int>>)
    ensures |r| == |ps| && forall k :: 0 <= k < |ps| ==> r[k] == ps[k].timeSpentSeconds
  {
    seq(|ps|, k requires 0 <= k < |ps| => ps[k].timeSpentSeconds)
  }

  function SumScores(ps: seq<TestProgress>): int {
    if |ps| == 0 then 0 else ps[0].score + SumScores(ps[1..])
  }

  /** The mean test score, 0 when there is no test result. */
  function AverageScore(ps: seq<TestProgress>): (avg: real)
    ensures |ps| == 0 ==> avg == 0.0
    ensures (forall k :: 0 <= k < |ps| ==> 0 <= ps[k].score <= 100) ==> 0.0 <= avg <= 100.0
  {
    if |ps| == 0 then 0.0
    else
      SumScoresBounds(ps);
      var n := |ps| as real;
      var s := SumScores(ps) as real;
      RealDivBound(s, n, 100.0);
      s / n
  }

  lemma RealDivBound(s: real, n: real, c: real)
    requires n > 0.0
    ensures s <= c * n ==> s / n <= c
  {
    var q := s / n;
    assert q * n == s;
    assert (c - q) * n == c * n - s;
  }

  /** The sum of `n` scores in [0, 100] lies in [0, 100·n]. */
  lemma {:induction false} SumScoresBounds(ps: seq<TestProgress>)
    ensures (forall k :: 0 <= k < |ps| ==> 0 <= ps[k].score <= 100) ==> 0 <= SumScores(ps) <= 100 * |ps|
  {
    if |ps| > 0 {
      assert forall k :: 1 <= k < |ps| ==> ps[k] == ps[1..][k - 1];
      SumScoresBounds(ps[1..]);
    }
  }

  /** The latest present moment, or none when every moment is absent. */
  function Latest(ts: seq<Option<int>>): (r: Option<int>)
    ensures r.None? <==> forall k :: 0 <= k < |ts| ==> ts[k].None?
    ensures r.Some? ==> Some(r.value) in ts
    ensures r.Some? ==> forall k :: 0 <= k < |ts| && ts[k].Some? ==> ts[k].value <= r.value
  {
    if |ts| == 0 then None
    else
      var rest := Latest(ts[1..]);
      assert forall k :: 1 <= k < |ts| ==> ts[k] == ts[1..][k - 1];
      if ts[0].None? then rest
      else if rest.None? || rest.value <= ts[0].value then ts[0]
      else rest
  }

  function LessonMoments(ps: seq<LessonProgress>): (r: seq<Option<int>>)
    ensures |r| == |ps| && forall k :: 0 <= k < |ps| ==> r[k] == ps[k].completedAt
  {
    seq(|ps|, k requires 0 <= k < |ps| => ps[k].completedAt)
  }

  function TestMoments(ps: seq<TestProgress>): (r: seq<Option<int>>)
    ensures |r| == |ps| && forall k :: 0 <= k < |ps| ==> r[k] == Some(ps[k].completedAt)
  {
    seq(|ps|, k requires 0 <= k < |ps| => Some(ps[k].completedAt))
  }

  // ---------------------------------------------------------------------------
  // The streak
  // ---------------------------------------------------------------------------

  /** The days of the completed rows that carry a completion moment, in row order. */
  function CompletionDays(ps: seq<LessonProgress>): (r: seq<int>)
    ensures forall k :: 0 <= k < |ps| && ps[k].completed && ps[k].completedAt.Some? ==> Day(ps[k].completedAt.value) in r
    ensures forall d :: d in r ==> exists k ::
      && 0 <= k < |ps| && ps[k].completed && ps[k].completedAt.Some?
      && Day(ps[k].completedAt.value) == d
  {
    if |ps| == 0 then []
    else
      var rest := CompletionDays(ps[1..]);
      assert forall k :: 1 <= k < |ps| ==> ps[k] == ps[1..][k - 1];
      (if ps[0].completed && ps[0].completedAt.Some? then [Day(ps[0].completedAt.value)] else []) + rest
  }

  /** The set of completion days: several completions on one day count once. */
  function CompletionDates(ps: seq<LessonProgress>): set<int> {
    set d | d in CompletionDays(ps)
  }

  /** Every day from `start` for `len` days is in `days`. */
  ghost predicate IsRun(days: set<int>, start: int, len: int) {
    forall x :: start <= x < start + len ==> x in days
  }

  /** The number of consecutive days in `days` ending at `p` and going backward. */
  function CountBack(days: set<int>, p: int): (n: nat)
    ensures IsRun(days, p - n + 1, n)
    ensures p - n !in days
    decreases |set x | x in days && x <= p|
  {
    if p !in days then 0
    else
      CountBackDecreases(days, p);
      var m := CountBack(days, p - 1);
      assert forall x :: p - m <= x <= p ==> x in days by {
        assert forall x :: p - 1 - m + 1 <= x < p - 1 - m + 1 + m ==> x in days;
      }
      1 + m
  }

  lemma CountBackDecreases(days: set<int>, p: int)
    requires p in days
    ensures |set x | x in days && x <= p - 1| < |set x | x in days && x <= p|
  {
    var below := set x | x in days && x <= p - 1;
    var upTo := set x | x in days && x <= p;
    assert upTo == below + {p};
  }

  /**
   * The current streak: counted back from today when today has a completion,
   * else from yesterday when yesterday has one, else 0.
   */
  function CurrentStreak(days: set<int>, today: int): (n: nat)
    ensures today !in days && today - 1 !in days ==> n == 0
    ensures today in days ==> n >= 1 && IsRun(days, today - n + 1, n) && today - n !in days
    ensures today !in days && today - 1 in days ==> n >= 1 && IsRun(days, today - n, n) && today - 1 - n !in days
  {
    if today in days then CountBack(days, today)
    else if today - 1 in days then CountBack(days, today - 1)
    else 0
  }

  ghost predicate StrictlyIncreasing(d: seq<int>) {
    forall i, j :: 0 <= i < j < |d| ==> d[i] < d[j]
  }

  /** `d` with `x` inserted at its place, unless `x` is already there. */
  function InsertDistinct(d: seq<int>, x: int): (r: seq<int>)
    requires StrictlyIncreasing(d)
    ensures StrictlyIncreasing(r)
    ensures forall y :: y in r <==> y in d || y == x
  {
    if |d| == 0 then [x]
    else if x < d[0] then [x] + d
    else if x == d[0] then d
    else
      var rest := InsertDistinct(d[1..], x);
      assert forall y :: y in rest ==> d[0] < y;
      ConsIncreasing(d[0], rest);
      [d[0]] + rest
  }

  lemma ConsIncreasing(a: int, rest: seq<int>)
    requires StrictlyIncreasing(rest)
    requires forall y :: y in rest ==> a < y
    ensures StrictlyIncreasing([a] + rest)
  {
    var r := [a] + rest;
    forall i, j | 0 <= i < j < |r| ensures r[i] < r[j] {
      assert r[j] == rest[j - 1];
      if i > 0 {
        assert r[i] == rest[i - 1];
      } else {
        assert rest[j - 1] in rest;
      }
    }
  }

  /** The distinct days in ascending order (the days collected to a set, then sorted). */
  method SortedDates(days: seq<int>) returns (d: seq<int>)
    ensures StrictlyIncreasing(d)
    ensures forall x :: x in d <==> x in days
  {
    d := [];
    for k := 0 to |days|
      invariant StrictlyIncreasing(d)
      invariant forall x :: x in d <==> x in days[..k]
    {
      assert days[..k + 1] == days[..k] + [days[k]];
      d := InsertDistinct(d, days[k]);
    }
    assert days[..|days|] == days;
  }

  /** The length of the run of consecutive days in `d` that ends at index `i`. */
  function RunEnd(d: seq<int>, i: nat): (n: nat)
    requires i < |d|
    ensures 1 <= n <= i + 1
  {
    if i == 0 || d[i - 1] + 1 != d[i] then 1 else RunEnd(d, i - 1) + 1
  }

  /** The longest run ending at one of the first `k` indices. */
  function MaxRun(d: seq<int>, k: nat): (n: nat)
    requires k <= |d|
    ensures k == 0 <==> n == 0
  {
    if k == 0 then 0
    else
      var m := MaxRun(d, k - 1);
      var r := RunEnd(d, k - 1);
      if m < r then r else m
  }

  /** The loop over the ascending dates: `currentRun` and `longest` as the source updates them. */
  method LongestRun(d: seq<int>) returns (longest: nat)
    ensures longest == MaxRun(d, |d|)
  {
    longest := 0;
    var currentRun := 0;
    var previousDate: Option<int> := None;
    for i := 0 to |d|
      invariant i == 0 ==> previousDate.None? && currentRun == 0
      invariant i > 0 ==> previousDate == Some(d[i - 1]) && currentRun == RunEnd(d, i - 1)
      invariant longest == MaxRun(d, i)
    {
      var date := d[i];
      if previousDate.None? || previousDate.value + 1 == date {
        currentRun := currentRun + 1;
      } else {
        currentRun := 1;
      }
      longest := if longest < currentRun then currentRun else longest;
      previousDate := Some(date);
    }
  }

  /** The run counted at index `i` is made of the days just before `d[i]`. */
  lemma {:induction false} RunEndIsRun(d: seq<int>, i: nat)
    requires i < |d|
    ensures i + 1 - RunEnd(d, i) >= 0
    ensures forall j :: i + 1 - RunEnd(d, i) <= j <= i ==> d[j] == d[i] - (i - j)
  {
    if i > 0 && d[i - 1] + 1 == d[i] {
      RunEndIsRun(d, i - 1);
    }
  }

  /** In an ascending list, any run of days ending at `d[i]` is counted at index `i`. */
  lemma {:induction false} RunReachesEnd(d: seq<int>, i: nat, len: nat)
    requires StrictlyIncreasing(d) && i < |d|
    requires forall x :: d[i] - len < x <= d[i] ==> x in d
    ensures len <= RunEnd(d, i)
    decreases len
  {
    if len > 1 {
      assert d[i] - 1 in d;
      var j :| 0 <= j < |d| && d[j] == d[i] - 1;
      IncreasingOrder(d, j, i);
      Gap(d, j, i);
      assert j == i - 1;
      RunReachesEnd(d, i - 1, len - 1);
    }
  }

  /** In an ascending list, order of indices and order of values agree. */
  lemma IncreasingOrder(d: seq<int>, a: nat, b: nat)
    requires StrictlyIncreasing(d) && a < |d| && b < |d|
    ensures a < b <==> d[a] < d[b]
  {
  }

  /** In an ascending list of integers, values are at least as far apart as their indices. */
  lemma {:induction false} Gap(d: seq<int>, a: nat, b: nat)
    requires StrictlyIncreasing(d) && a <= b < |d|
    ensures d[b] - d[a] >= b - a
    decreases b - a
  {
    if a < b {
      Gap(d, a, b - 1);
    }
  }

  lemma {:induction false} MaxRunBound(d: seq<int>, k: nat, i: nat)
    requires i < k <= |d|
    ensures RunEnd(d, i) <= MaxRun(d, k)
  {
    if i < k - 1 {
      MaxRunBound(d, k - 1, i);
    }
  }

  lemma {:induction false} MaxRunAchieved(d: seq<int>, k: nat)
    requires 0 < k <= |d|
    ensures exists i :: 0 <= i < k && RunEnd(d, i) == MaxRun(d, k)
  {
    if k > 1 && MaxRun(d, k - 1) >= RunEnd(d, k - 1) {
      MaxRunAchieved(d, k - 1);
      var i :| 0 <= i < k - 1 && RunEnd(d, i) == MaxRun(d, k - 1);
      assert RunEnd(d, i) == MaxRun(d, k);
    } else {
      assert RunEnd(d, k - 1) == MaxRun(d, k);
    }
  }

  /**
   * Over the ascending list of a set of days, the longest counted run is the
   * longest run of consecutive days in the set: one such run exists, and no
   * run is longer.
   */
  lemma LongestIsLongestRun(days: set<int>, d: seq<int>)
    requires StrictlyIncreasing(d) && forall x :: x in d <==> x in days
    ensures |d| > 0 ==> exists start :: IsRun(days, start, MaxRun(d, |d|))
    ensures forall start, len :: IsRun(days, start, len) ==> len <= MaxRun(d, |d|)
  {
    if |d| > 0 {
      MaxRunAchieved(d, |d|);
      var i :| 0 <= i < |d| && RunEnd(d, i) == MaxRun(d, |d|);
      RunEndIsRun(d, i);
      var n := RunEnd(d, i);
      assert IsRun(days, d[i] - n + 1, n) by {
        forall x | d[i] - n + 1 <= x <= d[i] ensures x in days {
          assert d[i - (d[i] - x)] == x;
        }
      }
    }
    forall start, len | IsRun(days, start, len) ensures len <= MaxRun(d, |d|) {
      if len > 0 {
        assert start + (len - 1) in days;
        var i :| 0 <= i < |d| && d[i] == start + len - 1;
        RunReachesEnd(d, i, len);
        MaxRunBound(d, |d|, i);
      }
    }
  }

  /**
   * `computeStreak` with `today` given: the longest run of days with a
   * completed lesson, and the current streak; 0 ≤ current ≤ longest.
   */
  method ComputeStreak(progresses: seq<LessonProgress>, today: int) returns (current: nat, longest: nat)
    ensures var days := CompletionDates(progresses);
      && (longest == 0 <==> |CompletionDays(progresses)| == 0)
      && (longest > 0 ==> exists start :: IsRun(days, start, longest))
      && (forall start, len :: IsRun(days, start, len) ==> len <= longest)
      && current == CurrentStreak(days, today)
      && current <= longest
  {
    var completionDates := CompletionDates(progresses);
    var sortedDates := SortedDates(CompletionDays(progresses));
    longest := LongestRun(sortedDates);
    LongestIsLongestRun(completionDates, sortedDates);
    assert |sortedDates| == 0 <==> |CompletionDays(progresses)| == 0 by {
      if |CompletionDays(progresses)| > 0 {
        assert CompletionDays(progresses)[0] in sortedDates;
      }
      if |sortedDates| > 0 {
        assert sortedDates[0] in CompletionDays(progresses);
      }
    }

    current := CurrentRun(completionDates, today);
    if current > 0 {
      var p := if today in completionDates then today else today - 1;
      assert IsRun(completionDates, p - current + 1, current);
    }
  }

  /** The second half of `computeStreak`: the walk back from today, or from yesterday. */
  method CurrentRun(days: set<int>, today: int) returns (current: nat)
    ensures current == CurrentStreak(days, today)
  {
    current := 0;
    if days != {} {
      var pointer: int;
      if today in days {
        pointer := today;
      } else if today - 1 in days {
        pointer := today - 1;
      } else {
        return 0;
      }
      ghost var start := pointer;
      while pointer in days
        invariant current + CountBack(days, pointer) == CountBack(days, start)
        decreases |set x | x in days && x <= pointer|
      {
        CountBackDecreases(days, pointer);
        current := current + 1;
        pointer := pointer - 1;
      }
    }
  }

  // ---------------------------------------------------------------------------
  // The summary
  // ---------------------------------------------------------------------------

  datatype ProgressSummary = ProgressSummary(
    accountId: int,
    totalLessons: nat,
    completedLessons: nat,
    totalTests: nat,
    completedTests: nat,
    averageTestScore: real,
    lessonTimeSpentSeconds: int,
    testTimeSpentSeconds: int,
    currentStreak: nat,
    longestStreak: nat,
    lastLessonCompletedAt: Option<int>,
    lastTestCompletedAt: Option<int>)

  /** The learner's own lesson rows, in stored order. */
  function LessonRowsOf(rows: seq<LessonProgress>, accountId: int): seq<LessonProgress> {
    Filter(rows, (p: LessonProgress) => p.accountId == accountId)
  }

  /** The learner's own test rows, in stored order. */
  function TestRowsOf(rows: seq<TestProgress>, accountId: int): seq<TestProgress> {
    Filter(rows, (p: TestProgress) => p.accountId == accountId)
  }

  /**
   * `getProgressSummary`: the counters over the learner's own rows, the
   * catalogue sizes, and the streak as of `today`; an unknown account fails.
   */
  method GetProgressSummary(accounts: seq<Account>, lessonRows: seq<LessonProgress>, testRows: seq<TestProgress>,
                            lessonCount: nat, testCount: nat, accountId: int, today: int)
    returns (r: Result<ProgressSummary, ServiceError>)
    ensures FindAccount(accounts, accountId).None? <==> r == Failure(AccountNotFound(accountId))
    ensures r.Success? ==>
      var ls := LessonRowsOf(lessonRows, accountId);
      var ts := TestRowsOf(testRows, accountId);
      var s := r.value;
      && s.accountId == accountId && s.totalLessons == lessonCount && s.totalTests == testCount
      && s.completedLessons == CompletedLessons(ls)
      && s.completedTests == |ts|
      && s.averageTestScore == AverageScore(ts)
      && s.lessonTimeSpentSeconds == SumPresent(LessonTimes(ls))
      && s.testTimeSpentSeconds == SumPresent(TestTimes(ts))
      && s.currentStreak == CurrentStreak(CompletionDates(ls), today)
      && s.currentStreak <= s.longestStreak
      && (s.longestStreak == 0 <==> |CompletionDays(ls)| == 0)
      && (s.longestStreak > 0 ==> exists start :: IsRun(CompletionDates(ls), start, s.longestStreak))
      && (forall start, len :: IsRun(CompletionDates(ls), start, len) ==> len <= s.longestStreak)
      && s.lastLessonCompletedAt == Latest(LessonMoments(ls))
      && s.lastTestCompletedAt == Latest(TestMoments(ts))
  {
    if FindAccount(accounts, accountId).None? {
      return Failure(AccountNotFound(accountId));
    }
    var lessonProgresses := LessonRowsOf(lessonRows, accountId);
    var testProgresses := TestRowsOf(testRows, accountId);
    var current, longest := ComputeStreak(lessonProgresses, today);
    r := Success(ProgressSummary(
      accountId, lessonCount, CompletedLessons(lessonProgresses), testCount, |testProgresses|,
      AverageScore(testProgresses), SumPresent(LessonTimes(lessonProgresses)), SumPresent(TestTimes(testProgresses)),
      current, longest, Latest(LessonMoments(lessonProgresses)), Latest(TestMoments(testProgresses))));
  }
}
