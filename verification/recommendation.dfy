/**
 * The hybrid lesson recommender and its feedback loop.
 *
 * Recommendation is a read-only pipeline over the lesson table: keep the
 * active lessons, keep those whose difficulty lies in a band around the
 * learner's rating (widened once when the first band is empty), score each
 * by the cosine between the learner's needs and the lesson's content
 * weights, sort by decreasing score and keep the first five.
 *
 * The feedback loop (`ProcessLessonResult`) treats a learner and a lesson as
 * two players of one Elo match and moves the learner's three skill levels by
 * the lesson's weights.
 */
module Recommendation {
  import opened Wrappers
  import opened HybridMath
  import opened Streams
  import opened Entities

  /** The rating the engine assumes for a learner or a lesson whose rating is null. */
  const ENGINE_BASELINE: Int32 := 1500

  /** Half-widths of the difficulty band: the first pass and the single widening. */
  const NARROW_BAND: int := 150
  const WIDE_BAND: int := 300

  /** How many lessons a recommendation returns at most. */
  const TOP_N: nat := 5

  /** Skill step per unit of lesson weight after a pass and after a failure. */
  const PASS_STEP: real := 0.05
  const FAIL_STEP: real := -0.02

  /** Content weights a lesson with a null weight is assumed to have. */
  const DEFAULT_GRAMMAR_WEIGHT: real := 0.33
  const DEFAULT_VOCAB_WEIGHT: real := 0.33
  const DEFAULT_LISTENING_WEIGHT: real := 0.34

  // ---------------------------------------------------------------------------
  // Lookups
  // ---------------------------------------------------------------------------

  /** `accountRepository.findById`: the row of the account with this id. */
  function FindAccount(accounts: seq<Account>, id: int): (r: Option<nat>)
    ensures r.Some? ==> r.value < |accounts| && accounts[r.value].id == id
    ensures r.None? <==> forall k :: 0 <= k < |accounts| ==> accounts[k].id != id
  {
    FirstIndex(accounts, (a: Account) => a.id == id)
  }

  /** `lessonRepository.findById`: the row of the lesson with this id. */
  function FindLesson(lessons: seq<Lesson>, id: int): (r: Option<nat>)
    ensures r.Some? ==> r.value < |lessons| && lessons[r.value].id == id
    ensures r.None? <==> forall k :: 0 <= k < |lessons| ==> lessons[k].id != id
  {
    FirstIndex(lessons, (l: Lesson) => l.id == id)
  }

  /** Primary keys: no two rows share an id. */
  ghost predicate AccountIdsUnique(accounts: seq<Account>) {
    forall i, j :: 0 <= i < j < |accounts| ==> accounts[i].id != accounts[j].id
  }

  ghost predicate LessonIdsUnique(lessons: seq<Lesson>) {
    forall i, j :: 0 <= i < j < |lessons| ==> lessons[i].id != lessons[j].id
  }

  // ---------------------------------------------------------------------------
  // Ratings and vectors
  // ---------------------------------------------------------------------------

  /** The learner's rating as the engine reads it. */
  function UserRating(a: Account): (r: Int32)
    ensures a.eloRating.Some? ==> r == a.eloRating.value
    ensures a.eloRating.None? ==> r == ENGINE_BASELINE
  {
    a.eloRating.GetOr(ENGINE_BASELINE)
  }

  /** The lesson's difficulty as the engine reads it. */
  function LessonDifficulty(l: Lesson): (r: Int32)
    ensures l.difficultyRating.Some? ==> r == l.difficultyRating.value
    ensures l.difficultyRating.None? ==> r == ENGINE_BASELINE
  {
    l.difficultyRating.GetOr(ENGINE_BASELINE)
  }

  /** Only a lesson whose flag is set, and not null, is a candidate. */
  predicate IsActive(l: Lesson) {
    l.isActive == Some(true)
  }

  /** The difficulty lies in `[elo - width, elo + width]`, both bounds computed in `int` arithmetic. */
  predicate InBand(l: Lesson, elo: Int32, width: int) {
    Wrap32(elo - width) <= LessonDifficulty(l) <= Wrap32(elo + width)
  }

  /** Away from the ends of the `int` range the band is the plain inclusive interval. */
  lemma InBandPlain(l: Lesson, elo: Int32, width: nat)
    requires INT_MIN <= elo - width && elo + width <= INT_MAX
    ensures InBand(l, elo, width) <==> elo - width <= LessonDifficulty(l) <= elo + width
  {
  }

  /** A learner's need for one skill: 1 - proficiency (null read as 0), clamped to [0, 1]. */
  function Need(proficiency: Option<real>): (n: real)
    ensures 0.0 <= n <= 1.0
    ensures proficiency.None? ==> n == 1.0
    ensures proficiency.Some? && 0.0 <= proficiency.value <= 1.0 ==> n == 1.0 - proficiency.value
    ensures proficiency.Some? && proficiency.value >= 1.0 ==> n == 0.0
    ensures proficiency.Some? && proficiency.value <= 0.0 ==> n == 1.0
  {
    Clamp(1.0 - proficiency.GetOr(0.0), 0.0, 1.0)
  }

  /** `createUserNeedsVector`: grammar, vocabulary and listening needs. */
  function NeedsVector(a: Account): (v: seq<real>)
    ensures |v| == 3
    ensures forall i :: 0 <= i < 3 ==> 0.0 <= v[i] <= 1.0
    ensures v[0] == Need(a.grammarProficiency)
    ensures v[1] == Need(a.vocabProficiency)
    ensures v[2] == Need(a.listeningProficiency)
  {
    [Need(a.grammarProficiency), Need(a.vocabProficiency), Need(a.listeningProficiency)]
  }

  /** A lesson weight as read by the engine: a null weight takes its default. */
  function Weight(w: Option<real>, default: real): (r: real)
    ensures w.Some? ==> r == w.value
    ensures w.None? ==> r == default
  {
    w.GetOr(default)
  }

  function GrammarWeight(l: Lesson): real { Weight(l.grammarWeight, DEFAULT_GRAMMAR_WEIGHT) }
  function VocabWeight(l: Lesson): real { Weight(l.vocabWeight, DEFAULT_VOCAB_WEIGHT) }
  function ListeningWeight(l: Lesson): real { Weight(l.listeningWeight, DEFAULT_LISTENING_WEIGHT) }

  /** `createLessonVector`: the three weights with defaults, each clamped to [0, 1]. */
  function LessonVector(l: Lesson): (v: seq<real>)
    ensures |v| == 3
    ensures forall i :: 0 <= i < 3 ==> 0.0 <= v[i] <= 1.0
    ensures 0.0 <= GrammarWeight(l) <= 1.0 ==> v[0] == GrammarWeight(l)
    ensures 0.0 <= VocabWeight(l) <= 1.0 ==> v[1] == VocabWeight(l)
    ensures 0.0 <= ListeningWeight(l) <= 1.0 ==> v[2] == ListeningWeight(l)
    ensures l.grammarWeight.None? && l.vocabWeight.None? && l.listeningWeight.None? ==> v == [0.33, 0.33, 0.34]
  {
    [Clamp(GrammarWeight(l), 0.0, 1.0), Clamp(VocabWeight(l), 0.0, 1.0), Clamp(ListeningWeight(l), 0.0, 1.0)]
  }

  /** The content score of a lesson for a learner: a cosine, so it never fails and lies in [-1, 1]. */
  function Similarity(lib: MathLib, a: Account, l: Lesson): (s: real)
    ensures -1.0 <= s <= 1.0
    ensures Cosine(lib, NeedsVector(a), LessonVector(l)) == Success(s)
  {
    Cosine(lib, NeedsVector(a), LessonVector(l)).value
  }

  /** A learner who needs nothing (every proficiency at least 1) scores every lesson 0. */
  lemma SimilarityOfSatisfiedLearner(lib: MathLib, a: Account, l: Lesson)
    requires Lawful(lib)
    requires a.grammarProficiency.Some? && a.grammarProficiency.value >= 1.0
    requires a.vocabProficiency.Some? && a.vocabProficiency.value >= 1.0
    requires a.listeningProficiency.Some? && a.listeningProficiency.value >= 1.0
    ensures Similarity(lib, a, l) == 0.0
  {
    CosineZeroVector(lib, NeedsVector(a), LessonVector(l));
  }

  // ---------------------------------------------------------------------------
  // The recommendation pipeline
  // ---------------------------------------------------------------------------

  /** A candidate lesson with its content score. */
  datatype LessonWithSimilarity = LessonWithSimilarity(lesson: Lesson, similarity: real)

  function BySimilarity(x: LessonWithSimilarity): real { x.similarity }

  /** Stage 1, adaptive filtering: active lessons in the ±150 band, or in the ±300 band when that is empty. */
  function Candidates(lessons: seq<Lesson>, elo: Int32): (r: seq<Lesson>)
    ensures forall l :: l in r ==> l in lessons && IsActive(l)
  {
    var active := Filter(lessons, IsActive);
    var narrow := WithinBand(active, elo, NARROW_BAND);
    if |narrow| > 0 then narrow
    else WithinBand(active, elo, WIDE_BAND)
  }

  /** The lessons whose difficulty lies in one band, in their order. */
  function WithinBand(lessons: seq<Lesson>, elo: Int32, width: int): (r: seq<Lesson>)
    ensures forall l :: l in r ==> l in lessons && InBand(l, elo, width)
    ensures forall l :: l in lessons && InBand(l, elo, width) ==> l in r
  {
    Filter(lessons, (l: Lesson) => InBand(l, elo, width))
  }

  /** Stage 2, content scoring of every candidate, in candidate order. */
  function ScoreAll(lib: MathLib, a: Account, candidates: seq<Lesson>): (r: seq<LessonWithSimilarity>)
    ensures |r| == |candidates|
    ensures forall i :: 0 <= i < |r| ==> r[i] == LessonWithSimilarity(candidates[i], Similarity(lib, a, candidates[i]))
  {
    seq(|candidates|, i requires 0 <= i < |candidates| =>
      LessonWithSimilarity(candidates[i], Similarity(lib, a, candidates[i])))
  }

  /** The scored candidates for one learner, before ordering. */
  function Scored(lib: MathLib, a: Account, lessons: seq<Lesson>): seq<LessonWithSimilarity> {
    ScoreAll(lib, a, Candidates(lessons, UserRating(a)))
  }

  /** The ranking shared by both entry points: sort by decreasing score, keep five. */
  function Recommend(lib: MathLib, a: Account, lessons: seq<Lesson>): (r: seq<LessonWithSimilarity>)
    ensures |r| <= TOP_N
  {
    Limit(SortDescending(Scored(lib, a, lessons), BySimilarity), TOP_N)
  }

  /** `getRecommendedLessonsWithSimilarity`. */
  function GetRecommendedLessonsWithSimilarity(lib: MathLib, accounts: seq<Account>, lessons: seq<Lesson>, accountId: int)
    : (r: Result<seq<LessonWithSimilarity>, ServiceError>)
    ensures r.Failure? <==> FindAccount(accounts, accountId).None?
    ensures r.Failure? ==> r.error == AccountNotFound(accountId)
    ensures r.Success? ==> |r.value| <= TOP_N
  {
    match FindAccount(accounts, accountId)
    case None => Failure(AccountNotFound(accountId))
    case Some(i) => Success(Recommend(lib, accounts[i], lessons))
  }

  /** The lessons of a ranked list, in its order. */
  function LessonsOf(r: seq<LessonWithSimilarity>): (ls: seq<Lesson>)
    ensures |ls| == |r|
    ensures forall i :: 0 <= i < |r| ==> ls[i] == r[i].lesson
  {
    seq(|r|, i requires 0 <= i < |r| => r[i].lesson)
  }

  /**
   * `getRecommendedLessons`: the same pipeline, written out separately in the
   * source, which drops the scores after `limit(5)`. It yields exactly the
   * lessons of `getRecommendedLessonsWithSimilarity`, in the same order.
   */
  function GetRecommendedLessons(lib: MathLib, accounts: seq<Account>, lessons: seq<Lesson>, accountId: int)
    : (r: Result<seq<Lesson>, ServiceError>)
    ensures r.Failure? <==> GetRecommendedLessonsWithSimilarity(lib, accounts, lessons, accountId).Failure?
    ensures r.Failure? ==> r.error == AccountNotFound(accountId)
    ensures r.Success? ==> r.value == LessonsOf(GetRecommendedLessonsWithSimilarity(lib, accounts, lessons, accountId).value)
  {
    match FindAccount(accounts, accountId)
    case None => Failure(AccountNotFound(accountId))
    case Some(i) =>
      var a := accounts[i];
      var candidates := Candidates(lessons, UserRating(a));
      var ranked := SortDescending(ScoreAll(lib, a, candidates), BySimilarity);
      Success(LessonsOf(Limit(ranked, TOP_N)))
  }

  // ---------------------------------------------------------------------------
  // Guarantees of the pipeline
  // ---------------------------------------------------------------------------

  /** Some active lesson lies in the band of this half-width. */
  ghost predicate SomeActiveInBand(lessons: seq<Lesson>, elo: Int32, width: int) {
    exists l :: l in lessons && IsActive(l) && InBand(l, elo, width)
  }

  /**
   * The adaptive filter: when some active lesson lies within ±150, the
   * candidates are exactly those; otherwise they are exactly the active
   * lessons within ±300, and there is no further fallback.
   */
  lemma {:induction false} CandidatesBand(lessons: seq<Lesson>, elo: Int32)
    ensures SomeActiveInBand(lessons, elo, NARROW_BAND) ==>
      forall l :: l in Candidates(lessons, elo) <==> l in lessons && IsActive(l) && InBand(l, elo, NARROW_BAND)
    ensures !SomeActiveInBand(lessons, elo, NARROW_BAND) ==>
      forall l :: l in Candidates(lessons, elo) <==> l in lessons && IsActive(l) && InBand(l, elo, WIDE_BAND)
    ensures !SomeActiveInBand(lessons, elo, NARROW_BAND) && !SomeActiveInBand(lessons, elo, WIDE_BAND) ==>
      Candidates(lessons, elo) == []
  {
    var active := Filter(lessons, IsActive);
    var narrow := WithinBand(active, elo, NARROW_BAND);
    var wide := WithinBand(active, elo, WIDE_BAND);
    ActiveBand(lessons, elo, NARROW_BAND);
    ActiveBand(lessons, elo, WIDE_BAND);
    if |narrow| > 0 {
      assert Candidates(lessons, elo) == narrow;
    } else {
      assert Candidates(lessons, elo) == wide;
    }
  }

  /** One band over the active lessons keeps exactly the active lessons in it. */
  lemma ActiveBand(lessons: seq<Lesson>, elo: Int32, width: int)
    ensures var band := WithinBand(Filter(lessons, IsActive), elo, width);
      && (forall l :: l in band <==> l in lessons && IsActive(l) && InBand(l, elo, width))
      && (|band| > 0 <==> SomeActiveInBand(lessons, elo, width))
  {
    var band := WithinBand(Filter(lessons, IsActive), elo, width);
    if |band| > 0 {
      assert band[0] in band;
    }
    if SomeActiveInBand(lessons, elo, width) {
      var l :| l in lessons && IsActive(l) && InBand(l, elo, width);
      assert l in band;
    }
  }

  /**
   * Every recommendation is a scored candidate: an active lesson of the table,
   * carrying its own similarity; and five are returned whenever there are at
   * least five candidates.
   */
  lemma {:induction false} RecommendFromCandidates(lib: MathLib, a: Account, lessons: seq<Lesson>)
    ensures |Recommend(lib, a, lessons)| == if |Candidates(lessons, UserRating(a))| < TOP_N then |Candidates(lessons, UserRating(a))| else TOP_N
    ensures forall x :: x in Recommend(lib, a, lessons) ==>
      x.lesson in Candidates(lessons, UserRating(a)) && x.lesson in lessons && IsActive(x.lesson)
      && x.similarity == Similarity(lib, a, x.lesson)
  {
    var scored := Scored(lib, a, lessons);
    var sorted := SortDescending(scored, BySimilarity);
    SortDescendingCorrect(scored, BySimilarity);
    forall x | x in Recommend(lib, a, lessons)
      ensures x.lesson in Candidates(lessons, UserRating(a)) && x.similarity == Similarity(lib, a, x.lesson)
    {
      assert x in sorted;
      assert x in multiset(scored);
      var k :| 0 <= k < |scored| && scored[k] == x;
    }
  }

  /**
   * The ranking: scores never increase along the list; no candidate left out
   * of a full list scores above the last one kept; and entries with equal
   * scores keep their order in the lesson table.
   */
  lemma {:induction false} RecommendOrdered(lib: MathLib, a: Account, lessons: seq<Lesson>)
    ensures NonIncreasing(Recommend(lib, a, lessons), BySimilarity)
    ensures var r := Recommend(lib, a, lessons);
      |r| == TOP_N ==> forall x :: x in Scored(lib, a, lessons) && x !in r ==> x.similarity <= r[TOP_N - 1].similarity
    ensures forall v :: WithKey(Recommend(lib, a, lessons), BySimilarity, v) <= WithKey(Scored(lib, a, lessons), BySimilarity, v)
  {
    var scored := Scored(lib, a, lessons);
    LimitOrdered(scored, BySimilarity, TOP_N);
    if |Recommend(lib, a, lessons)| == TOP_N {
      LimitKeepsLargest(scored, BySimilarity, TOP_N);
    }
    forall v
      ensures WithKey(Recommend(lib, a, lessons), BySimilarity, v) <= WithKey(scored, BySimilarity, v)
    {
      LimitStable(scored, BySimilarity, TOP_N, v);
    }
  }

  /** Every returned lesson lies in the band the adaptive filter chose. */
  lemma RecommendInBand(lib: MathLib, a: Account, lessons: seq<Lesson>)
    ensures var elo := UserRating(a);
      forall x :: x in Recommend(lib, a, lessons) ==>
        if SomeActiveInBand(lessons, elo, NARROW_BAND) then InBand(x.lesson, elo, NARROW_BAND)
        else InBand(x.lesson, elo, WIDE_BAND)
    ensures !SomeActiveInBand(lessons, UserRating(a), NARROW_BAND) && !SomeActiveInBand(lessons, UserRating(a), WIDE_BAND) ==>
      Recommend(lib, a, lessons) == []
  {
    RecommendFromCandidates(lib, a, lessons);
    CandidatesBand(lessons, UserRating(a));
  }

  // ---------------------------------------------------------------------------
  // The feedback loop
  // ---------------------------------------------------------------------------

  /** The learner's result in the match: 1 on a pass, 0 on a failure. */
  function UserScore(isPassed: bool): real { if isPassed then 1.0 else 0.0 }

  /** The lesson's result: always the complement of the learner's. */
  function LessonScore(isPassed: bool): (s: real)
    ensures s == 1.0 - UserScore(isPassed)
  {
    if isPassed then 0.0 else 1.0
  }

  /** One skill after a result: old (null read as 0) + weight × step, clamped to [0, 1]. */
  function Adjusted(current: Option<real>, weight: real, isPassed: bool): (p: real)
    ensures 0.0 <= p <= 1.0
    ensures var target := current.GetOr(0.0) + weight * (if isPassed then PASS_STEP else FAIL_STEP);
      0.0 <= target <= 1.0 ==> p == target
  {
    var improvementFactor := if isPassed then PASS_STEP else FAIL_STEP;
    Clamp(current.GetOr(0.0) + weight * improvementFactor, 0.0, 1.0)
  }

  /**
   * For a skill level in [0, 1] and a weight in [0, 1], a pass never lowers
   * the skill and raises it by at most 0.05; a failure never raises it and
   * lowers it by at most 0.02.
   */
  lemma AdjustedDirection(current: real, weight: real)
    requires 0.0 <= current <= 1.0 && 0.0 <= weight <= 1.0
    ensures current <= Adjusted(Some(current), weight, true) <= current + 0.05
    ensures current - 0.02 <= Adjusted(Some(current), weight, false) <= current
  {
    assert 0.0 <= weight * 0.05 <= 0.05;
    assert -0.02 <= weight * -0.02 <= 0.0;
  }

  /** The account after one result: new rating from the snapshot, three adjusted skills. */
  function AccountAfter(lib: MathLib, a: Account, l: Lesson, isPassed: bool): (a': Account)
    requires Lawful(lib)
    ensures a'.id == a.id && a'.username == a.username
    ensures a'.eloRating.Some? && a'.eloRating.value >= 0
    ensures a'.grammarProficiency.Some? && 0.0 <= a'.grammarProficiency.value <= 1.0
    ensures a'.vocabProficiency.Some? && 0.0 <= a'.vocabProficiency.value <= 1.0
    ensures a'.listeningProficiency.Some? && 0.0 <= a'.listeningProficiency.value <= 1.0
  {
    a.(eloRating := Some(NewElo(lib, UserRating(a), LessonDifficulty(l), UserScore(isPassed))),
       grammarProficiency := Some(Adjusted(a.grammarProficiency, GrammarWeight(l), isPassed)),
       vocabProficiency := Some(Adjusted(a.vocabProficiency, VocabWeight(l), isPassed)),
       listeningProficiency := Some(Adjusted(a.listeningProficiency, ListeningWeight(l), isPassed)))
  }

  /** The lesson after one result: only its difficulty changes, rated against the learner's old rating. */
  function LessonAfter(lib: MathLib, l: Lesson, a: Account, isPassed: bool): (l': Lesson)
    requires Lawful(lib)
    ensures l' == l.(difficultyRating := l'.difficultyRating)
    ensures l'.difficultyRating.Some? && l'.difficultyRating.value >= 0
  {
    l.(difficultyRating := Some(NewElo(lib, LessonDifficulty(l), UserRating(a), LessonScore(isPassed))))
  }

  /**
   * Both ratings come from one snapshot, so the match is zero-sum before
   * rounding: the learner's unrounded change and the lesson's are exact
   * opposites. A pass raises the learner and lowers a non-negative lesson
   * difficulty; a failure does the reverse.
   */
  lemma ResultIsZeroSum(lib: MathLib, a: Account, l: Lesson, isPassed: bool)
    requires Lawful(lib)
    requires var u, d := UserRating(a), LessonDifficulty(l);
      INT_MIN <= u - d <= INT_MAX && INT_MIN <= d - u <= INT_MAX
      && INT_MIN + K_FACTOR <= u <= INT_MAX - K_FACTOR && INT_MIN + K_FACTOR <= d <= INT_MAX - K_FACTOR
    ensures var u, d := UserRating(a), LessonDifficulty(l);
      K_FACTOR as real * (UserScore(isPassed) - ExpectedScore(lib, u, d))
      + K_FACTOR as real * (LessonScore(isPassed) - ExpectedScore(lib, d, u)) == 0.0
    ensures var u, d := UserRating(a), LessonDifficulty(l);
      var u', d' := AccountAfter(lib, a, l, isPassed).eloRating.value, LessonAfter(lib, l, a, isPassed).difficultyRating.value;
      (isPassed ==> u <= u' && (d >= 0 ==> d' <= d))
      && (!isPassed ==> d <= d' && (u >= 0 ==> u' <= u))
  {
    var u, d := UserRating(a), LessonDifficulty(l);
    ExpectedScoresComplement(lib, u, d);
    NewEloDirection(lib, u, d);
    NewEloDirection(lib, d, u);
  }

  // ---------------------------------------------------------------------------
  // The service
  // ---------------------------------------------------------------------------

  /** The engine together with the two tables it reads and writes. */
  class RecommendationService {
    const lib: MathLib
    var accounts: seq<Account>
    var lessons: seq<Lesson>

    ghost predicate Valid()
      reads this
    {
      Lawful(lib) && AccountIdsUnique(accounts) && LessonIdsUnique(lessons)
    }

    constructor (lib: MathLib, accounts: seq<Account>, lessons: seq<Lesson>)
      requires Lawful(lib) && AccountIdsUnique(accounts) && LessonIdsUnique(lessons)
      ensures Valid()
      ensures this.lib == lib && this.accounts == accounts && this.lessons == lessons
    {
      this.lib := lib;
      this.accounts := accounts;
      this.lessons := lessons;
    }

    /**
     * `processLessonResult`: looks the account up, then the lesson (raising
     * on the first that is missing, with nothing written), updates both
     * ratings from the pre-update snapshot and the three skills, and writes
     * both rows back in place.
     */
    method ProcessLessonResult(accountId: int, lessonId: int, isPassed: bool) returns (outcome: Outcome<ServiceError>)
      requires Valid()
      modifies this
      ensures Valid()
      ensures FindAccount(old(accounts), accountId).None? ==>
        outcome == Fail(AccountNotFound(accountId)) && accounts == old(accounts) && lessons == old(lessons)
      ensures FindAccount(old(accounts), accountId).Some? && FindLesson(old(lessons), lessonId).None? ==>
        outcome == Fail(LessonNotFound(lessonId)) && accounts == old(accounts) && lessons == old(lessons)
      ensures FindAccount(old(accounts), accountId).Some? && FindLesson(old(lessons), lessonId).Some? ==>
        var i, j := FindAccount(old(accounts), accountId).value, FindLesson(old(lessons), lessonId).value;
        && outcome == Pass
        && accounts == old(accounts)[i := AccountAfter(lib, old(accounts)[i], old(lessons)[j], isPassed)]
        && lessons == old(lessons)[j := LessonAfter(lib, old(lessons)[j], old(accounts)[i], isPassed)]
    {
      var ai := FindAccount(accounts, accountId);
      if ai.None? {
        return Fail(AccountNotFound(accountId));
      }
      var li := FindLesson(lessons, lessonId);
      if li.None? {
        return Fail(LessonNotFound(lessonId));
      }
      var account := accounts[ai.value];
      var lesson := lessons[li.value];

      var userElo := UserRating(account);
      var lessonDifficulty := LessonDifficulty(lesson);
      var userActualScore := if isPassed then 1.0 else 0.0;
      var lessonActualScore := if isPassed then 0.0 else 1.0;

      var newUserElo := NewElo(lib, userElo, lessonDifficulty, userActualScore);
      account := account.(eloRating := Some(newUserElo));
      var newLessonDifficulty := NewElo(lib, lessonDifficulty, userElo, lessonActualScore);
      lesson := lesson.(difficultyRating := Some(newLessonDifficulty));

      var grammarWeight := lesson.grammarWeight.GetOr(DEFAULT_GRAMMAR_WEIGHT);
      var vocabWeight := lesson.vocabWeight.GetOr(DEFAULT_VOCAB_WEIGHT);
      var listeningWeight := lesson.listeningWeight.GetOr(DEFAULT_LISTENING_WEIGHT);
      var improvementFactor := if isPassed then PASS_STEP else FAIL_STEP;

      var currentGrammar := account.grammarProficiency.GetOr(0.0);
      account := account.(grammarProficiency := Some(Clamp(currentGrammar + grammarWeight * improvementFactor, 0.0, 1.0)));
      var currentVocab := account.vocabProficiency.GetOr(0.0);
      account := account.(vocabProficiency := Some(Clamp(currentVocab + vocabWeight * improvementFactor, 0.0, 1.0)));
      var currentListening := account.listeningProficiency.GetOr(0.0);
      account := account.(listeningProficiency := Some(Clamp(currentListening + listeningWeight * improvementFactor, 0.0, 1.0)));

      accounts := accounts[ai.value := account];
      lessons := lessons[li.value := lesson];
      outcome := Pass;
    }
  }
}
