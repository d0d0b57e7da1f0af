/**
 * The test service: grading a submitted test (exact-set rule for
 * multiple-choice questions, single-correct rule otherwise), the integer
 * percentage it stores and returns, and the detail view of a test.
 */
module TestService {
  import opened Wrappers
  import opened HybridMath
  import opened Streams
  import opened Entities

  const MULTIPLE_CHOICE: string := "MULTIPLE_CHOICE"
  const SINGLE_CHOICE: string := "SINGLE_CHOICE"

  // ---------------------------------------------------------------------------
  // Stable ascending sort by an integer key (`sorted(Comparator.comparing(…))`)
  // ---------------------------------------------------------------------------

  ghost predicate SortedBy<T>(s: seq<T>, key: T -> int) {
    forall i, j :: 0 <= i < j < |s| ==> key(s[i]) <= key(s[j])
  }

  /** `x` placed before the first element whose key is not below its own. */
  function InsertBy<T>(x: T, s: seq<T>, key: T -> int): (r: seq<T>)
    ensures |r| == |s| + 1
  {
    if |s| == 0 || key(x) <= key(s[0]) then [x] + s else [s[0]] + InsertBy(x, s[1..], key)
  }

  /** Insertion sort: ascending by `key`, equal keys kept in input order. */
  function SortBy<T>(s: seq<T>, key: T -> int): (r: seq<T>)
    ensures |r| == |s|
  {
    if |s| == 0 then [] else InsertBy(s[0], SortBy(s[1..], key), key)
  }

  lemma {:induction false} InsertByPermutes<T>(x: T, s: seq<T>, key: T -> int)
    ensures multiset(InsertBy(x, s, key)) == multiset{x} + multiset(s)
  {
    if |s| > 0 && key(x) > key(s[0]) {
      InsertByPermutes(x, s[1..], key);
      assert s == [s[0]] + s[1..];
    }
  }

  lemma {:induction false} InsertBySorted<T>(x: T, s: seq<T>, key: T -> int)
    requires SortedBy(s, key)
    ensures SortedBy(InsertBy(x, s, key), key)
  {
    if |s| > 0 && key(x) > key(s[0]) {
      InsertBySorted(x, s[1..], key);
      InsertByPermutes(x, s[1..], key);
      var r := InsertBy(x, s, key);
      forall i, j | 0 <= i < j < |r| ensures key(r[i]) <= key(r[j]) {
        if i == 0 {
          assert r[j] in multiset{x} + multiset(s[1..]);
        }
      }
    }
  }

  /** The sort yields an ascending permutation of its input. */
  lemma {:induction false} SortByCorrect<T>(s: seq<T>, key: T -> int)
    ensures SortedBy(SortBy(s, key), key)
    ensures multiset(SortBy(s, key)) == multiset(s)
  {
    if |s| > 0 {
      SortByCorrect(s[1..], key);
      InsertBySorted(s[0], SortBy(s[1..], key), key);
      InsertByPermutes(s[0], SortBy(s[1..], key), key);
      assert s == [s[0]] + s[1..];
    }
  }

  function IntKey(x: int): int { x }

  /** The head of an ascending list is its least element. */
  lemma SortedHeadLeast(s: seq<int>, x: int)
    requires SortedBy(s, IntKey) && x in s
    ensures s[0] <= x
  {
    var k :| 0 <= k < |s| && s[k] == x;
    if k > 0 {
      assert IntKey(s[0]) <= IntKey(s[k]);
    }
  }

  lemma SortedTail(s: seq<int>)
    requires |s| > 0 && SortedBy(s, IntKey)
    ensures SortedBy(s[1..], IntKey)
  {
    forall i, j | 0 <= i < j < |s[1..]| ensures IntKey(s[1..][i]) <= IntKey(s[1..][j]) {
      assert s[1..][i] == s[i + 1] && s[1..][j] == s[j + 1];
    }
  }

  /** Two ascending lists of integers with the same elements are the same list. */
  lemma {:induction false} SortedEqual(a: seq<int>, b: seq<int>)
    requires SortedBy(a, IntKey) && SortedBy(b, IntKey)
    requires multiset(a) == multiset(b)
    ensures a == b
    decreases |a|
  {
    assert |a| == |multiset(a)| == |multiset(b)| == |b|;
    if |a| > 0 {
      SameHead(a, b);
      assert a == [a[0]] + a[1..];
      assert b == [b[0]] + b[1..];
      assert multiset(a) == multiset{a[0]} + multiset(a[1..]);
      assert multiset(b) == multiset{a[0]} + multiset(b[1..]);
      assert multiset(a[1..]) == multiset(a) - multiset{a[0]};
      assert multiset(b[1..]) == multiset(b) - multiset{a[0]};
      SortedTail(a);
      SortedTail(b);
      SortedEqual(a[1..], b[1..]);
    }
  }

  lemma SameHead(a: seq<int>, b: seq<int>)
    requires |a| > 0 && |b| > 0
    requires SortedBy(a, IntKey) && SortedBy(b, IntKey)
    requires multiset(a) == multiset(b)
    ensures a[0] == b[0]
  {
    assert a[0] in multiset(a);
    assert b[0] in multiset(b);
    SortedHeadLeast(b, a[0]);
    SortedHeadLeast(a, b[0]);
  }

  /** Sorting two integer lists gives the same result exactly when they hold the same elements. */
  lemma SortSameIffSameElements(a: seq<int>, b: seq<int>)
    ensures SortBy(a, IntKey) == SortBy(b, IntKey) <==> multiset(a) == multiset(b)
  {
    SortByCorrect(a, IntKey);
    SortByCorrect(b, IntKey);
    if multiset(a) == multiset(b) {
      SortedEqual(SortBy(a, IntKey), SortBy(b, IntKey));
    }
  }

  // ---------------------------------------------------------------------------
  // Judging one question
  // ---------------------------------------------------------------------------

  /** The ids of the options flagged correct, in the options' order. */
  function CorrectIds(options: seq<AnswerOption>): (r: seq<int>)
    ensures |r| <= |options|
  {
    if |options| == 0 then []
    else (if options[0].isCorrect then [options[0].id] else []) + CorrectIds(options[1..])
  }

  /** The correct ids are exactly the ids of the options flagged correct. */
  lemma {:induction false} CorrectIdsMembers(options: seq<AnswerOption>)
    ensures forall id :: id in CorrectIds(options) <==> exists o :: o in options && o.isCorrect && o.id == id
  {
    if |options| > 0 {
      var tail := options[1..];
      CorrectIdsMembers(tail);
      assert options == [options[0]] + tail;
    }
  }

  /**
   * The verdict on one question given the option ids selected for it: for the
   * type "MULTIPLE_CHOICE" (compared case-sensitively), the sorted selection
   * must equal the sorted correct ids; for any other type, exactly one option
   * is selected and it is a correct one.
   */
  function AnsweredCorrectly(questionType: Option<string>, options: seq<AnswerOption>, selected: seq<int>): bool {
    var correctOptionIds := SortBy(CorrectIds(options), IntKey);
    if questionType == Some(MULTIPLE_CHOICE) then
      |selected| == |correctOptionIds| && SortBy(selected, IntKey) == correctOptionIds
    else
      |selected| == 1 && selected[0] in correctOptionIds
  }

  /** A multiple-choice question is answered correctly exactly when the selection is the set of correct ids, counted with multiplicity. */
  lemma MultipleChoiceExactSet(options: seq<AnswerOption>, selected: seq<int>)
    ensures AnsweredCorrectly(Some(MULTIPLE_CHOICE), options, selected)
        <==> multiset(selected) == multiset(CorrectIds(options))
  {
    SortByCorrect(CorrectIds(options), IntKey);
    SortByCorrect(selected, IntKey);
    SortSameIffSameElements(selected, CorrectIds(options));
    if multiset(selected) == multiset(CorrectIds(options)) {
      assert |selected| == |multiset(selected)| == |multiset(CorrectIds(options))| == |CorrectIds(options)|;
    }
  }

  /** When no id is flagged correct twice, selecting the same option twice fails a multiple-choice question. */
  lemma DuplicateSelectionFails(options: seq<AnswerOption>, selected: seq<int>, i: nat, j: nat)
    requires forall a, b :: 0 <= a < b < |options| ==> options[a].id != options[b].id
    requires i < j < |selected| && selected[i] == selected[j]
    ensures !AnsweredCorrectly(Some(MULTIPLE_CHOICE), options, selected)
  {
    MultipleChoiceExactSet(options, selected);
    CorrectIdsAtMostOnce(options, selected[i]);
    OccursTwice(selected, i, j);
  }

  lemma OccursTwice(s: seq<int>, i: nat, j: nat)
    requires i < j < |s| && s[i] == s[j]
    ensures multiset(s)[s[i]] >= 2
  {
    var front, back := s[..j], s[j..];
    assert s == front + back;
    assert s[i] == front[i];
    assert s[j] == back[0];
    assert multiset(front)[s[i]] >= 1;
    assert multiset(back)[s[i]] >= 1;
  }

  /** With distinct option ids, no id occurs twice among the correct ids. */
  lemma {:induction false} CorrectIdsAtMostOnce(options: seq<AnswerOption>, id: int)
    requires forall a, b :: 0 <= a < b < |options| ==> options[a].id != options[b].id
    ensures multiset(CorrectIds(options))[id] <= 1
  {
    if |options| > 0 {
      CorrectIdsAtMostOnce(options[1..], id);
      CorrectIdsMembers(options[1..]);
      if options[0].isCorrect && options[0].id == id {
        forall o | o in options[1..] ensures o.id != id {
          var k :| 0 <= k < |options[1..]| && options[1..][k] == o;
          assert options[0].id != options[k + 1].id;
        }
        assert id !in CorrectIds(options[1..]);
      }
    }
  }

  /** Any other question type is answered correctly exactly when one option is selected and it is flagged correct. */
  lemma SingleChoiceRule(questionType: Option<string>, options: seq<AnswerOption>, selected: seq<int>)
    requires questionType != Some(MULTIPLE_CHOICE)
    ensures AnsweredCorrectly(questionType, options, selected)
        <==> |selected| == 1 && exists o :: o in options && o.isCorrect && o.id == selected[0]
  {
    var c := CorrectIds(options);
    CorrectIdsMembers(options);
    var sc := SortBy(c, IntKey);
    SortByCorrect(c, IntKey);
    if |selected| == 1 {
      assert (selected[0] in sc) == (selected[0] in multiset(sc));
      assert (selected[0] in c) == (selected[0] in multiset(c));
    }
  }

  // ---------------------------------------------------------------------------
  // Grading a submission
  // ---------------------------------------------------------------------------

  /** One answer row: a question and one option selected for it. */
  datatype TestAnswer = TestAnswer(questionId: int, selectedOptionId: int)

  datatype TestSubmission = TestSubmission(testId: int, answers: seq<TestAnswer>, timeSpentSeconds: Option<int>)

  /** The question ids referenced by the answers, in order and with repeats. */
  function AnsweredIds(answers: seq<TestAnswer>): (r: seq<int>)
    ensures |r| == |answers|
    ensures forall k :: 0 <= k < |answers| ==> r[k] == answers[k].questionId
  {
    seq(|answers|, k requires 0 <= k < |answers| => answers[k].questionId)
  }

  /** The option ids selected for question `qid`, in submission order (the group of `groupingBy`). */
  function SelectedFor(answers: seq<TestAnswer>, qid: int): (r: seq<int>)
    ensures |r| <= |answers|
  {
    if |answers| == 0 then []
    else (if answers[0].questionId == qid then [answers[0].selectedOptionId] else []) + SelectedFor(answers[1..], qid)
  }

  /**
   * The selection of a question holds exactly the options some answer row
   * selects for it, and is empty when no row refers to it.
   */
  lemma {:induction false} SelectedForMembers(answers: seq<TestAnswer>, qid: int)
    ensures qid !in AnsweredIds(answers) ==> SelectedFor(answers, qid) == []
    ensures forall id :: id in SelectedFor(answers, qid) <==> TestAnswer(qid, id) in answers
  {
    if |answers| > 0 {
      var tail := answers[1..];
      SelectedForMembers(tail, qid);
      assert answers == [answers[0]] + tail;
      assert AnsweredIds(answers) == [answers[0].questionId] + AnsweredIds(tail);
    }
  }

  /** `findAllById` over the distinct answered ids: the stored questions some answer refers to, in table order. */
  function GradedQuestions(questions: seq<Question>, answers: seq<TestAnswer>): (r: seq<Question>)
    ensures forall q :: q in r <==> q in questions && q.id in AnsweredIds(answers)
    ensures |r| <= |questions|
  {
    Filter(questions, Answered(answers))
  }

  /** The test "some answer refers to this question". */
  function Answered(answers: seq<TestAnswer>): Question -> bool {
    (q: Question) => q.id in AnsweredIds(answers)
  }

  /** In a table with unique ids, each graded question is graded once, and there are no more of them than distinct answered ids. */
  lemma GradedOncePerId(questions: seq<Question>, answers: seq<TestAnswer>)
    requires QuestionIdsUnique(questions)
    ensures QuestionIdsUnique(GradedQuestions(questions, answers))
  {
    FilterKeepsIdsUnique(questions, Answered(answers));
  }

  ghost predicate QuestionIdsUnique(questions: seq<Question>) {
    forall a, b :: 0 <= a < b < |questions| ==> questions[a].id != questions[b].id
  }

  /** A filtered table with unique ids keeps its ids unique. */
  lemma {:induction false} FilterKeepsIdsUnique(questions: seq<Question>, p: Question -> bool)
    requires QuestionIdsUnique(questions)
    ensures QuestionIdsUnique(Filter(questions, p))
  {
    if |questions| > 0 {
      var head, rest := questions[0], questions[1..];
      assert QuestionIdsUnique(rest) by {
        forall a, b | 0 <= a < b < |rest| ensures rest[a].id != rest[b].id {
          assert rest[a] == questions[a + 1] && rest[b] == questions[b + 1];
        }
      }
      FilterKeepsIdsUnique(rest, p);
      var tail := Filter(rest, p);
      assert questions == [head] + rest;
      if p(head) {
        assert Filter(questions, p) == [head] + tail;
        forall x | x in tail ensures x.id != head.id {
          var k :| 0 <= k < |rest| && rest[k] == x;
          assert questions[k + 1] == x;
        }
        ConsKeepsIdsUnique(head, tail);
      } else {
        assert Filter(questions, p) == tail;
      }
    }
  }

  lemma ConsKeepsIdsUnique(head: Question, tail: seq<Question>)
    requires QuestionIdsUnique(tail)
    requires forall x :: x in tail ==> x.id != head.id
    ensures QuestionIdsUnique([head] + tail)
  {
    var r := [head] + tail;
    forall a, b | 0 <= a < b < |r| ensures r[a].id != r[b].id {
      assert r[b] == tail[b - 1];
      if a > 0 {
        assert r[a] == tail[a - 1];
      }
    }
  }

  /**
   * The number of questions answered correctly; a question whose option list
   * is null makes the count fail, as dereferencing it would.
   */
  function CorrectCount(graded: seq<Question>, answers: seq<TestAnswer>): (r: Result<nat, ServiceError>)
    ensures r.Success? <==> forall i :: 0 <= i < |graded| ==> graded[i].answerOptions.Some?
    ensures r.Failure? ==> r.error == NullReference("answerOptions")
    ensures r.Success? ==> r.value <= |graded|
  {
    if |graded| == 0 then Success(0)
    else
      var init := graded[..|graded| - 1];
      var q := graded[|graded| - 1];
      assert forall i :: 0 <= i < |init| ==> init[i] == graded[i];
      match CorrectCount(init, answers)
      case Failure(e) => Failure(e)
      case Success(n) =>
        if q.answerOptions.None? then Failure(NullReference("answerOptions"))
        else Success(n + Point(q, answers))
  }

  /** A question's point: 1 when its answers are correct, else 0. */
  function Point(q: Question, answers: seq<TestAnswer>): nat
    requires q.answerOptions.Some?
  {
    if AnsweredCorrectly(q.questionType, q.answerOptions.value, SelectedFor(answers, q.id)) then 1 else 0
  }

  /** The loop of `submitTest`: one point per question answered correctly, failing on a null option list. */
  method CountCorrect(graded: seq<Question>, answers: seq<TestAnswer>) returns (r: Result<nat, ServiceError>)
    ensures r == CorrectCount(graded, answers)
  {
    var score := 0;
    for k := 0 to |graded|
      invariant CorrectCount(graded[..k], answers) == Success(score)
    {
      var question := graded[k];
      if question.answerOptions.None? {
        return Failure(NullReference("answerOptions"));
      }
      var userSelectedOptions := SelectedFor(answers, question.id);
      var isCorrect := AnsweredCorrectly(question.questionType, question.answerOptions.value, userSelectedOptions);
      CountStep(graded, answers, k, score);
      if isCorrect {
        score := score + 1;
      }
    }
    assert graded[..|graded|] == graded;
    r := Success(score);
  }

  /** One more question with options adds its point to the count so far. */
  lemma CountStep(graded: seq<Question>, answers: seq<TestAnswer>, k: nat, score: nat)
    requires k < |graded| && graded[k].answerOptions.Some?
    requires CorrectCount(graded[..k], answers) == Success(score)
    ensures CorrectCount(graded[..k + 1], answers) == Success(score + Point(graded[k], answers))
  {
    assert graded[..k + 1] == graded[..k] + [graded[k]];
    CountSnoc(graded[..k], graded[k], answers, score);
  }

  lemma CountSnoc(init: seq<Question>, q: Question, answers: seq<TestAnswer>, score: nat)
    requires q.answerOptions.Some?
    requires CorrectCount(init, answers) == Success(score)
    ensures CorrectCount(init + [q], answers) == Success(score + Point(q, answers))
  {
    var s := init + [q];
    assert s[..|s| - 1] == init;
  }

  // ---------------------------------------------------------------------------
  // The percentage
  // ---------------------------------------------------------------------------

  /** Java's `/` on `int`: the quotient truncated toward zero. */
  function JavaDiv(a: int, b: int): (q: int)
    requires b > 0
    ensures a >= 0 ==> q == a / b
    ensures a < 0 ==> q == -((-a) / b)
  {
    if a >= 0 then a / b else -((-a) / b)
  }

  /** `Math.min((score * 100) / total, 100)` in 32-bit arithmetic. */
  function Percentage(score: nat, total: nat): (p: Int32)
    requires total > 0
    ensures p <= 100
    ensures score * 100 <= INT_MAX ==> p >= 0
  {
    var scaled := Wrap32(score * 100);
    var quotient := JavaDiv(scaled, total);
    JavaDivShrinks(scaled, total);
    if quotient < 100 then quotient else 100
  }

  /** A Java quotient by a positive divisor lies between 0 and the dividend. */
  lemma JavaDivShrinks(a: int, b: int)
    requires b > 0
    ensures a >= 0 ==> 0 <= JavaDiv(a, b) <= a
    ensures a < 0 ==> a <= JavaDiv(a, b) <= 0
  {
    var m: nat := if a >= 0 then a else -a;
    MulMonotone(m, 1, b);
    assert m <= b * m;
    DivAtMost(m, b, m);
    var q := m / b;
    assert 0 <= q <= m;
    if a >= 0 {
      assert JavaDiv(a, b) == q;
    } else {
      assert JavaDiv(a, b) == -q;
    }
  }

  lemma MulMonotone(d: nat, x: int, y: int)
    requires x <= y
    ensures d * x <= d * y
  {
    assert d * y - d * x == d * (y - x);
  }

  /** Multiplication by a positive factor keeps order: `d * x <= d * y` forces `x <= y`. */
  lemma MulCancel(d: nat, x: int, y: int)
    requires d > 0 && d * x < d * (y + 1)
    ensures x <= y
  {
    if x > y {
      MulMonotone(d, y + 1, x);
    }
  }

  /** A quotient is at most `k` when the dividend is at most `d * k`. */
  lemma DivAtMost(a: nat, d: nat, k: nat)
    requires d > 0 && a <= d * k
    ensures a / d <= k
  {
    var q := a / d;
    assert d * q + a % d == a;
    MulCancel(d, q, k);
  }

  /** A quotient is at least `k` when the dividend is at least `d * k`. */
  lemma DivAtLeast(a: nat, d: nat, k: nat)
    requires d > 0 && d * k <= a
    ensures k <= a / d
  {
    var q := a / d;
    assert d * q + a % d == a;
    assert d * k < d * (q + 1);
    MulCancel(d, k, q);
  }

  lemma DivMonotone(a: nat, b: nat, d: nat)
    requires d > 0 && a <= b
    ensures a / d <= b / d
  {
    var qa := a / d;
    assert d * qa + a % d == a;
    DivAtLeast(b, d, qa);
  }

  /**
   * For a score out of `total` that does not overflow, the percentage is the
   * floor of score × 100 / total, 100 for full marks and 0 for none.
   */
  lemma PercentageOfScore(score: nat, total: nat)
    requires 0 < total && score <= total && score * 100 <= INT_MAX
    ensures Percentage(score, total) == score * 100 / total
    ensures score == total ==> Percentage(score, total) == 100
    ensures score == 0 ==> Percentage(score, total) == 0
  {
    MulMonotone(100, score, total);
    assert score * 100 <= total * 100;
    DivAtMost(score * 100, total, 100);
    if score == total {
      DivAtLeast(score * 100, total, 100);
    }
  }

  /** A higher score never gives a lower percentage. */
  lemma PercentageMonotone(s1: nat, s2: nat, total: nat)
    requires 0 < total && s1 <= s2 <= total && s2 * 100 <= INT_MAX
    ensures Percentage(s1, total) <= Percentage(s2, total)
  {
    MulMonotone(100, s1, s2);
    PercentageOfScore(s1, total);
    PercentageOfScore(s2, total);
    DivMonotone(s1 * 100, s2 * 100, total);
  }

  // ---------------------------------------------------------------------------
  // Submitting a test
  // ---------------------------------------------------------------------------

  /** A test with its questions. */
  datatype Test = Test(id: int, name: string, level: Int32, audioUrl: Option<string>, questions: seq<Question>)

  /** A learner's stored result for one test. */
  datatype TestProgress = TestProgress(accountId: int, testId: int, score: Int32, timeSpentSeconds: Option<int>, completedAt: int)

  function FindTest(tests: seq<Test>, id: int): (r: Option<nat>)
    ensures r.Some? ==> r.value < |tests| && tests[r.value].id == id
    ensures r.None? ==> forall k :: 0 <= k < |tests| ==> tests[k].id != id
  {
    FirstIndex(tests, (t: Test) => t.id == id)
  }

  function FindProgress(progress: seq<TestProgress>, accountId: int, testId: int): (r: Option<nat>)
    ensures r.Some? ==> r.value < |progress| && progress[r.value].accountId == accountId && progress[r.value].testId == testId
    ensures r.None? ==> forall k :: 0 <= k < |progress| ==> !(progress[k].accountId == accountId && progress[k].testId == testId)
  {
    FirstIndex(progress, (p: TestProgress) => p.accountId == accountId && p.testId == testId)
  }

  /**
   * What `submitTest` returns: the unknown user, the unknown test, a null
   * option list, 0 when no answered question exists, else the percentage.
   */
  function SubmitOutcome(accounts: seq<Account>, tests: seq<Test>, questions: seq<Question>,
                         username: string, sub: TestSubmission): (r: Result<Int32, ServiceError>)
    ensures FindByUsername(accounts, username).None? ==> r == Failure(UserNotFound(username))
    ensures FindByUsername(accounts, username).Some? && FindTest(tests, sub.testId).None? ==>
      r == Failure(TestNotFound(sub.testId))
    ensures r.Success? ==> 0 <= r.value <= 100 || |GradedQuestions(questions, sub.answers)| * 100 > INT_MAX
    ensures r.Success? && |GradedQuestions(questions, sub.answers)| == 0 ==> r.value == 0
  {
    if FindByUsername(accounts, username).None? then Failure(UserNotFound(username))
    else if FindTest(tests, sub.testId).None? then Failure(TestNotFound(sub.testId))
    else
      var graded := GradedQuestions(questions, sub.answers);
      match CorrectCount(graded, sub.answers)
      case Failure(e) => Failure(e)
      case Success(score) =>
        if |graded| == 0 then Success(0)
        else
          assert score * 100 <= |graded| * 100;
          Success(Percentage(score, |graded|))
  }

  /**
   * The stored progress after a graded submission: the learner's first row
   * for the test is reused in place when there is one, otherwise a row is
   * appended; the saved row is then the one found for the pair, and every
   * other row is unchanged.
   */
  function SavedProgress(progress: seq<TestProgress>, accountId: int, testId: int, score: Int32,
                         timeSpentSeconds: Option<int>, now: int): (r: seq<TestProgress>)
    ensures FindProgress(progress, accountId, testId).Some? ==> |r| == |progress|
    ensures FindProgress(progress, accountId, testId).None? ==> |r| == |progress| + 1
    ensures FindProgress(r, accountId, testId) == Some(FindProgress(progress, accountId, testId).GetOr(|progress|))
    ensures r[FindProgress(progress, accountId, testId).GetOr(|progress|)]
      == TestProgress(accountId, testId, score, timeSpentSeconds, now)
    ensures forall k :: 0 <= k < |progress| && Some(k) != FindProgress(progress, accountId, testId) ==> r[k] == progress[k]
  {
    var row := TestProgress(accountId, testId, score, timeSpentSeconds, now);
    match FindProgress(progress, accountId, testId)
    case Some(k) =>
      var r := progress[k := row];
      assert FindProgress(r, accountId, testId) == Some(k) by {
        var f := FindProgress(r, accountId, testId);
        assert r[k] == row;
        assert f.Some? && f.value <= k;
      }
      r
    case None =>
      var r := progress + [row];
      assert FindProgress(r, accountId, testId) == Some(|progress|) by {
        assert r[|progress|] == row;
        var f := FindProgress(r, accountId, testId);
        assert f.Some?;
      }
      r
  }

  class TestService {
    var accounts: seq<Account>
    var tests: seq<Test>
    var questions: seq<Question>
    var progress: seq<TestProgress>

    constructor (accounts: seq<Account>, tests: seq<Test>, questions: seq<Question>, progress: seq<TestProgress>)
      ensures this.accounts == accounts && this.tests == tests
      ensures this.questions == questions && this.progress == progress
    {
      this.accounts := accounts;
      this.tests := tests;
      this.questions := questions;
      this.progress := progress;
    }

    /**
     * `submitTest` for the signed-in `username` at clock reading `now`: the
     * percentage, stored in the learner's progress row for the test; nothing is
     * stored when a lookup fails, an option list is null or no question was graded.
     */
    method SubmitTest(username: string, sub: TestSubmission, now: int) returns (r: Result<Int32, ServiceError>)
      modifies this`progress
      ensures r == SubmitOutcome(accounts, tests, questions, username, sub)
      ensures r.Success? && |GradedQuestions(questions, sub.answers)| > 0 ==>
        progress == SavedProgress(old(progress), accounts[FindByUsername(accounts, username).value].id,
                                  sub.testId, r.value, sub.timeSpentSeconds, now)
      ensures !(r.Success? && |GradedQuestions(questions, sub.answers)| > 0) ==> progress == old(progress)
    {
      var ai := FindByUsername(accounts, username);
      if ai.None? {
        return Failure(UserNotFound(username));
      }
      var account := accounts[ai.value];
      var ti := FindTest(tests, sub.testId);
      if ti.None? {
        return Failure(TestNotFound(sub.testId));
      }
      var graded := GradedQuestions(questions, sub.answers);
      var counted := CountCorrect(graded, sub.answers);
      if counted.Failure? {
        return Failure(counted.error);
      }
      var score := counted.value;
      var totalQuestions := |graded|;
      if totalQuestions == 0 {
        return Success(0);
      }
      var scorePercentage := Percentage(score, totalQuestions);
      progress := SavedProgress(progress, account.id, sub.testId, scorePercentage, sub.timeSpentSeconds, now);
      r := Success(scorePercentage);
    }
  }

  // ---------------------------------------------------------------------------
  // The detail view of a test
  // ---------------------------------------------------------------------------

  datatype AnswerOptionDto = AnswerOptionDto(id: int, optionText: string)

  /** A question as the detail view shows it: no explanation, no correct flags. */
  datatype QuestionDto = QuestionDto(
    id: int, questionText: string, questionType: Option<string>, imageUrl: Option<string>,
    explanation: Option<string>, answerOptions: seq<AnswerOptionDto>)

  datatype TestDetailDto = TestDetailDto(id: int, name: string, level: Int32, audioUrl: Option<string>, questions: seq<QuestionDto>)

  function QuestionId(q: Question): int { q.id }
  function OptionId(o: AnswerOption): int { o.id }

  /** Membership in the supported types, compared case-sensitively; a null type is a null reference. */
  function IsSupported(questionType: string): bool {
    questionType == MULTIPLE_CHOICE || questionType == SINGLE_CHOICE
  }

  function Supported(q: Question): bool {
    q.questionType.Some? && IsSupported(q.questionType.value)
  }

  /** `convertQuestionToDto`: the options sorted by id, with id and text only; a null option list fails. */
  function ToQuestionDto(q: Question): (r: Result<QuestionDto, ServiceError>)
    ensures r.Failure? <==> q.answerOptions.None?
    ensures r.Success? ==> r.value.id == q.id && r.value.questionType == q.questionType && r.value.explanation.None?
    ensures r.Success? ==>
      var sorted := SortBy(q.answerOptions.value, OptionId);
      && |r.value.answerOptions| == |q.answerOptions.value|
      && forall k :: 0 <= k < |sorted| ==> r.value.answerOptions[k] == AnswerOptionDto(sorted[k].id, sorted[k].optionText)
  {
    match q.answerOptions
    case None => Failure(NullReference("answerOptions"))
    case Some(options) =>
      var sorted := SortBy(options, OptionId);
      Success(QuestionDto(q.id, q.questionText, q.questionType, q.imageUrl, None,
        seq(|sorted|, k requires 0 <= k < |sorted| => AnswerOptionDto(sorted[k].id, sorted[k].optionText))))
  }

  /** The dtos of `qs` in order, failing at the first null option list. */
  function ToQuestionDtos(qs: seq<Question>): (r: Result<seq<QuestionDto>, ServiceError>)
    ensures r.Success? <==> forall q :: q in qs ==> q.answerOptions.Some?
    ensures r.Success? ==> |r.value| == |qs| && forall k :: 0 <= k < |qs| ==> ToQuestionDto(qs[k]) == Success(r.value[k])
  {
    if |qs| == 0 then Success([])
    else match (ToQuestionDto(qs[0]), ToQuestionDtos(qs[1..]))
      case (Success(d), Success(ds)) =>
        assert forall k :: 1 <= k < |qs| ==> qs[k] == qs[1..][k - 1];
        Success([d] + ds)
      case (Failure(e), _) => Failure(e)
      case (_, Failure(e)) =>
        assert forall q :: q in qs[1..] ==> q in qs;
        Failure(e)
  }

  /**
   * `convertToDetailDto`: the test's supported questions sorted by id. The
   * type test runs on every question first, so any question with a null type
   * fails the view; then any kept question with a null option list does.
   */
  function ToDetailDto(t: Test): (r: Result<TestDetailDto, ServiceError>)
    ensures (exists q :: q in t.questions && q.questionType.None?) ==> r == Failure(NullReference("questionType"))
    ensures r.Success? ==>
      var kept := SortBy(Filter(t.questions, Supported), QuestionId);
      && r.value.id == t.id && r.value.name == t.name
      && |r.value.questions| == |kept|
      && forall k :: 0 <= k < |kept| ==> ToQuestionDto(kept[k]) == Success(r.value.questions[k])
  {
    if exists q :: q in t.questions && q.questionType.None? then Failure(NullReference("questionType"))
    else
      match ToQuestionDtos(SortBy(Filter(t.questions, Supported), QuestionId))
      case Failure(e) => Failure(e)
      case Success(qs) => Success(TestDetailDto(t.id, t.name, t.level, t.audioUrl, qs))
  }

  /** The detail view holds exactly the supported questions, each once per occurrence, in ascending id order. */
  lemma DetailViewSupportedSorted(t: Test)
    requires ToDetailDto(t).Success?
    ensures var qs := ToDetailDto(t).value.questions;
      && (forall i, j :: 0 <= i < j < |qs| ==> qs[i].id <= qs[j].id)
      && (forall k :: 0 <= k < |qs| ==> qs[k].questionType.Some? && IsSupported(qs[k].questionType.value))
  {
    var supported := Filter(t.questions, Supported);
    var kept := SortBy(supported, QuestionId);
    SortByCorrect(supported, QuestionId);
    var qs := ToDetailDto(t).value.questions;
    assert |qs| == |kept|;
    assert forall k :: 0 <= k < |kept| ==> ToQuestionDto(kept[k]) == Success(qs[k]);
    forall k | 0 <= k < |qs| ensures qs[k].questionType == kept[k].questionType && qs[k].id == kept[k].id {
      assert ToQuestionDto(kept[k]) == Success(qs[k]);
    }
    forall k | 0 <= k < |qs| ensures qs[k].questionType.Some? && IsSupported(qs[k].questionType.value) {
      assert kept[k] in multiset(supported);
      assert Supported(kept[k]);
    }
    forall i, j | 0 <= i < j < |qs| ensures qs[i].id <= qs[j].id {
      assert QuestionId(kept[i]) <= QuestionId(kept[j]);
    }
  }

  /** Each shown option list is the question's own options in ascending id order, with nothing dropped or added. */
  lemma QuestionOptionsSorted(q: Question)
    requires q.answerOptions.Some?
    ensures var d := ToQuestionDto(q).value;
      && (forall i, j :: 0 <= i < j < |d.answerOptions| ==> d.answerOptions[i].id <= d.answerOptions[j].id)
      && multiset(SortBy(q.answerOptions.value, OptionId)) == multiset(q.answerOptions.value)
  {
    SortByCorrect(q.answerOptions.value, OptionId);
    var sorted := SortBy(q.answerOptions.value, OptionId);
    var d := ToQuestionDto(q).value;
    forall i, j | 0 <= i < j < |d.answerOptions| ensures d.answerOptions[i].id <= d.answerOptions[j].id {
      assert OptionId(sorted[i]) <= OptionId(sorted[j]);
    }
  }

  /** `getTestById`: the detail view of a stored test, or the unknown id. */
  function GetTestById(tests: seq<Test>, id: int): (r: Result<TestDetailDto, ServiceError>)
    ensures FindTest(tests, id).None? ==> r == Failure(TestNotFound(id))
    ensures FindTest(tests, id).Some? ==> r == ToDetailDto(tests[FindTest(tests, id).value])
  {
    match FindTest(tests, id)
    case None => Failure(TestNotFound(id))
    case Some(k) => ToDetailDto(tests[k])
  }
}
