/**
 * The vocabulary shooting game: up to twelve questions drawn from a shuffle
 * of the entries; each question shows its word among up to three other
 * entries, a hit on the right one earns 120 points plus 20 per answer of
 * the current combo, a miss resets the combo and costs 60 points (never
 * below zero); the round lasts 60 seconds or until the last question is
 * answered, and the best score is kept across rounds.
 *
 * The random orders are parameters, the one-second clock and the delayed
 * steps after an answer are method calls; the drawing (positions, lasers,
 * particles, sound) is not part of this model.
 */
module BlastGame {
  import opened Wrappers
  import opened GameCommon

  /** The most questions in a round. */
  const MAX_QUESTIONS: int := 12

  /** The fewest entries the page must give before the demo set is used instead. */
  const MIN_VOCABULARIES: int := 4

  /** The most wrong choices shown beside the right one. */
  const MAX_DISTRACTORS: int := 3

  /** The length of a round, in seconds. */
  const ROUND_SECONDS: int := 60

  /** The points of a hit with no combo. */
  const HIT_POINTS: int := 120

  /** The extra points per answer of the running combo. */
  const COMBO_BONUS: int := 20

  /** The points a miss costs. */
  const MISS_PENALTY: int := 60

  /** The entries played when the page gives fewer than four. */
  const DEMO_VOCABULARIES_BLAST: seq<GameVocabulary> := [
    GameVocabulary(1, "Thank you", "Cảm ơn"),
    GameVocabulary(2, "Hello", "Xin chào"),
    GameVocabulary(3, "You're welcome", "Không có gì"),
    GameVocabulary(4, "Goodbye", "Tạm biệt"),
    GameVocabulary(5, "Post office", "Bưu điện"),
    GameVocabulary(6, "Sweeping a walkway", "Quét lối đi")
  ]

  datatype Question = Question(id: int, word: string, meaning: string)

  /** One of the targets shown for a question. */
  datatype Choice = Choice(id: int, text: string, meaning: string)

  // ---------------------------------------------------------------------------
  // Questions and choices
  // ---------------------------------------------------------------------------

  /** The entries played: the page's own when it gives four or more, else the demo set. */
  function EffectiveVocabularies(vs: seq<GameVocabulary>): (r: seq<GameVocabulary>)
    ensures |vs| >= MIN_VOCABULARIES ==> r == vs
    ensures |vs| < MIN_VOCABULARIES ==> r == DEMO_VOCABULARIES_BLAST
    ensures |r| >= MIN_VOCABULARIES
  {
    if |vs| >= MIN_VOCABULARIES then vs else DEMO_VOCABULARIES_BLAST
  }

  /** The round can always be started, and the demo set's ids are distinct. */
  lemma AlwaysPlayable(vs: seq<GameVocabulary>)
    ensures |EffectiveVocabularies(vs)| >= MIN_VOCABULARIES
    ensures DistinctIds(DEMO_VOCABULARIES_BLAST)
    ensures DistinctIds(vs) ==> DistinctIds(EffectiveVocabularies(vs))
  {
  }

  function QuestionOf(v: GameVocabulary): Question {
    Question(v.id, v.wordEnglish, v.vietnameseMeaning)
  }

  /** The entries as questions, in order. */
  function Questions(vs: seq<GameVocabulary>): (qs: seq<Question>)
    ensures |qs| == |vs|
    ensures forall i :: 0 <= i < |vs| ==> qs[i] == QuestionOf(vs[i])
  {
    if |vs| == 0 then [] else [QuestionOf(vs[0])] + Questions(vs[1..])
  }

  /** `pickQuestions`, given the shuffled entries: the first twelve at most, as questions. */
  function PickQuestions(shuffled: seq<GameVocabulary>): (qs: seq<Question>)
    ensures |qs| == Min(|shuffled|, MAX_QUESTIONS)
    ensures forall i :: 0 <= i < |qs| ==> qs[i] == QuestionOf(shuffled[i])
  {
    Questions(shuffled[..Min(|shuffled|, MAX_QUESTIONS)])
  }

  ghost predicate DistinctQuestions(qs: seq<Question>) {
    forall i, j :: 0 <= i < j < |qs| ==> qs[i].id != qs[j].id
  }

  /**
   * A random order of `n` entries, as `Math.random` sorting produces one:
   * every position below `n` exactly once.
   */
  ghost predicate IsOrder(order: seq<int>, n: int) {
    && |order| == n
    && (forall i :: 0 <= i < |order| ==> 0 <= order[i] < n)
    && (forall i, j :: 0 <= i < j < |order| ==> order[i] != order[j])
  }

  /** The entries rearranged into a random order. */
  function Shuffled(vs: seq<GameVocabulary>, order: seq<int>): (r: seq<GameVocabulary>)
    requires IsOrder(order, |vs|)
    ensures |r| == |vs|
    ensures forall i :: 0 <= i < |r| ==> r[i] == vs[order[i]]
  {
    seq(|vs|, i requires 0 <= i < |vs| => vs[order[i]])
  }

  /**
   * A shuffle has as many entries as it shuffles, takes each of them from
   * the entries shuffled, and keeps their ids distinct.
   */
  lemma ShuffleKeepsEntries(vs: seq<GameVocabulary>, order: seq<int>)
    requires IsOrder(order, |vs|)
    ensures |Shuffled(vs, order)| == |vs|
    ensures forall i :: 0 <= i < |vs| ==> Shuffled(vs, order)[i] in vs
    ensures DistinctIds(vs) ==> DistinctIds(Shuffled(vs, order))
  {
    var r := Shuffled(vs, order);
    forall i | 0 <= i < |vs| ensures r[i] in vs {
      assert r[i] == vs[order[i]];
    }
    if DistinctIds(vs) {
      forall i, j | 0 <= i < j < |r| ensures r[i].id != r[j].id {
        assert order[i] != order[j];
        if order[i] < order[j] {
          assert vs[order[i]].id != vs[order[j]].id;
        } else {
          assert vs[order[j]].id != vs[order[i]].id;
        }
      }
    }
  }

  /**
   * A round drawn from a shuffle of the entries played, when they have
   * distinct ids (as the demo set's are, by `AlwaysPlayable`), has four to
   * twelve questions, each asking about a different one of those entries.
   */
  lemma RoundQuestions(effective: seq<GameVocabulary>, order: seq<int>)
    requires IsOrder(order, |effective|)
    requires |effective| >= MIN_VOCABULARIES && DistinctIds(effective)
    ensures MIN_VOCABULARIES <= |PickQuestions(Shuffled(effective, order))| <= MAX_QUESTIONS
    ensures DistinctQuestions(PickQuestions(Shuffled(effective, order)))
    ensures forall i :: 0 <= i < |PickQuestions(Shuffled(effective, order))| ==>
      exists v :: v in effective && PickQuestions(Shuffled(effective, order))[i] == QuestionOf(v)
  {
    ShuffleKeepsEntries(effective, order);
  }

  /** The entries other than the question's, in their order. */
  function Remaining(vs: seq<GameVocabulary>, questionId: int): (r: seq<GameVocabulary>)
    ensures |r| <= |vs|
    ensures forall v :: v in r <==> v in vs && v.id != questionId
  {
    if |vs| == 0 then []
    else if vs[0].id != questionId then [vs[0]] + Remaining(vs[1..], questionId)
    else Remaining(vs[1..], questionId)
  }

  /** With distinct ids, removing the question's own entry leaves one entry fewer. */
  lemma {:induction false} RemainingSize(vs: seq<GameVocabulary>, questionId: int)
    requires DistinctIds(vs)
    requires exists v :: v in vs && v.id == questionId
    ensures |Remaining(vs, questionId)| == |vs| - 1
    decreases |vs|
  {
    if vs[0].id == questionId {
      RemainingNone(vs[1..], questionId);
    } else {
      var v :| v in vs && v.id == questionId;
      assert v in vs[1..];
      RemainingSize(vs[1..], questionId);
    }
  }

  /** When no entry has the question's id, nothing is removed. */
  lemma {:induction false} RemainingNone(vs: seq<GameVocabulary>, questionId: int)
    requires forall k :: 0 <= k < |vs| ==> vs[k].id != questionId
    ensures |Remaining(vs, questionId)| == |vs|
    decreases |vs|
  {
    if |vs| > 0 {
      RemainingNone(vs[1..], questionId);
    }
  }

  function ChoiceOf(v: GameVocabulary): Choice {
    Choice(v.id, v.wordEnglish, v.vietnameseMeaning)
  }

  /**
   * The choices of a question, given the shuffled remaining entries: the
   * right answer first, then the first three of the others at most.
   */
  function Choices(q: Question, shuffledRemaining: seq<GameVocabulary>): (cs: seq<Choice>)
    ensures |cs| == 1 + Min(|shuffledRemaining|, MAX_DISTRACTORS)
    ensures cs[0] == Choice(q.id, q.word, q.meaning)
    ensures forall k :: 1 <= k < |cs| ==> cs[k] == ChoiceOf(shuffledRemaining[k - 1])
  {
    var n := Min(|shuffledRemaining|, MAX_DISTRACTORS);
    [Choice(q.id, q.word, q.meaning)] + seq(n, k requires 0 <= k < n => ChoiceOf(shuffledRemaining[k]))
  }

  /**
   * Exactly one choice is right: the first one is the only choice with the
   * question's id. With at least four distinct entries there are exactly
   * four choices.
   */
  lemma OneRightChoice(vs: seq<GameVocabulary>, q: Question, order: seq<int>)
    requires IsOrder(order, |Remaining(vs, q.id)|)
    ensures var cs := Choices(q, Shuffled(Remaining(vs, q.id), order));
      forall k :: 0 <= k < |cs| ==> (cs[k].id == q.id <==> k == 0)
    ensures DistinctIds(vs) && |vs| >= MIN_VOCABULARIES && (exists v :: v in vs && v.id == q.id) ==>
      |Choices(q, Shuffled(Remaining(vs, q.id), order))| == 1 + MAX_DISTRACTORS
  {
    var remaining := Remaining(vs, q.id);
    var shuffled := Shuffled(remaining, order);
    ShuffleKeepsEntries(remaining, order);
    forall k | 0 <= k < |shuffled| ensures shuffled[k].id != q.id {
      assert shuffled[k] in remaining;
    }
    if DistinctIds(vs) && |vs| >= MIN_VOCABULARIES && (exists v :: v in vs && v.id == q.id) {
      RemainingSize(vs, q.id);
    }
  }

  /**
   * The progress bar: the answered share of the round in whole percent
   * (`Math.round`), 0 with no questions. With at most twelve questions the
   * only share that lands on a half percent is an odd number of eighths,
   * which a double holds exactly, so the exact rational rounding is the same.
   */
  function ProgressPercent(currentIndex: nat, count: nat): (p: int)
    ensures count == 0 ==> p == 0
    ensures count > 0 ==> 2 * count * p <= 200 * (currentIndex + 1) + count < 2 * count * (p + 1)
  {
    if count == 0 then 0 else (200 * (currentIndex + 1) + count) / (2 * count)
  }

  /** On a question of the round the bar is between 1 and 100, and full exactly on the last. */
  lemma ProgressBounds(currentIndex: nat, count: nat)
    requires currentIndex < count <= MAX_QUESTIONS
    ensures 1 <= ProgressPercent(currentIndex, count) <= 100
    ensures ProgressPercent(currentIndex, count) == 100 <==> currentIndex == count - 1
  {
    var p := ProgressPercent(currentIndex, count);
    if currentIndex < count - 1 {
      assert 200 * (currentIndex + 1) + count <= 200 * count - 200 + count;
      assert 2 * count * p < 2 * count * 100;
    }
  }

  // ---------------------------------------------------------------------------
  // Scoring
  // ---------------------------------------------------------------------------

  /** The running score and the number of hits in a row. */
  datatype Tally = Tally(score: int, combo: nat)

  /**
   * One answer: a hit earns 120 points plus 20 per hit of the running combo
   * and extends the combo; a miss ends the combo and costs 60 points, never
   * going below zero.
   */
  function Answered(t: Tally, hit: bool): (u: Tally)
    ensures hit ==> u.combo == t.combo + 1 && u.score - t.score == HIT_POINTS + COMBO_BONUS * t.combo
    ensures !hit ==> u.combo == 0 && u.score >= 0
    ensures !hit && t.score >= MISS_PENALTY ==> u.score == t.score - MISS_PENALTY
    ensures !hit && t.score < MISS_PENALTY ==> u.score == 0
  {
    if hit then Tally(t.score + HIT_POINTS + COMBO_BONUS * t.combo, t.combo + 1)
    else Tally(Max(0, t.score - MISS_PENALTY), 0)
  }

  /** A series of answers, in order. */
  function Replay(t: Tally, hits: seq<bool>): Tally
    decreases |hits|
  {
    if |hits| == 0 then t else Replay(Answered(t, hits[0]), hits[1..])
  }

  function AllHits(n: nat): (hits: seq<bool>)
    ensures |hits| == n && forall k :: 0 <= k < n ==> hits[k]
  {
    if n == 0 then [] else [true] + AllHits(n - 1)
  }

  /** The score after `n` hits in a row from `t`: 120n + 20cn + 10n(n-1) more, for combo c. */
  function StreakPoints(t: Tally, n: nat): int {
    t.score + HIT_POINTS * n + COMBO_BONUS * t.combo * n + 10 * n * (n - 1)
  }

  /** One hit then `m` more is the same streak as `m + 1` hits. */
  lemma StreakPointsHit(t: Tally, m: nat)
    ensures StreakPoints(Answered(t, true), m) == StreakPoints(t, m + 1)
  {
    var c := t.combo;
    assert COMBO_BONUS * (c + 1) * m == COMBO_BONUS * c * m + COMBO_BONUS * m;
    assert COMBO_BONUS * c * (m + 1) == COMBO_BONUS * c * m + COMBO_BONUS * c;
    assert 10 * (m + 1) * m == 10 * m * (m - 1) + 20 * m;
  }

  /** A miss then `m` answers can earn no more than `m + 1` hits in a row. */
  lemma StreakPointsMiss(t: Tally, m: nat)
    requires t.score >= 0
    ensures StreakPoints(Answered(t, false), m) <= StreakPoints(t, m + 1)
  {
    var c := t.combo;
    assert COMBO_BONUS * c * (m + 1) >= 0;
    assert 10 * (m + 1) * m == 10 * m * (m - 1) + 20 * m;
  }

  /** `n` hits in a row from `t` earn `StreakPoints` and leave a combo of c + n. */
  lemma {:induction false} StreakScore(t: Tally, n: nat)
    ensures Replay(t, AllHits(n)) == Tally(StreakPoints(t, n), t.combo + n)
    decreases n
  {
    if n > 0 {
      var hits := AllHits(n);
      assert hits[1..] == AllHits(n - 1);
      StreakScore(Answered(t, true), n - 1);
      StreakPointsHit(t, n - 1);
    }
  }

  /**
   * Whatever the answers, the score stays non-negative and never exceeds
   * what the same number of hits in a row would earn.
   */
  lemma {:induction false} ScoreBound(t: Tally, hits: seq<bool>)
    requires t.score >= 0
    ensures 0 <= Replay(t, hits).score <= StreakPoints(t, |hits|)
    decreases |hits|
  {
    if |hits| > 0 {
      var u := Answered(t, hits[0]);
      ScoreBound(u, hits[1..]);
      if hits[0] {
        StreakPointsHit(t, |hits| - 1);
      } else {
        StreakPointsMiss(t, |hits| - 1);
      }
    } else {
      assert StreakPoints(t, 0) == t.score;
    }
  }

  /** A full round of twelve questions scores at most 2760, reached only by twelve hits in a row. */
  lemma BestRound(hits: seq<bool>)
    requires |hits| == MAX_QUESTIONS
    ensures Replay(Tally(0, 0), hits).score <= 2760
    ensures Replay(Tally(0, 0), AllHits(MAX_QUESTIONS)).score == 2760
  {
    ScoreBound(Tally(0, 0), hits);
    StreakScore(Tally(0, 0), MAX_QUESTIONS);
  }

  // ---------------------------------------------------------------------------
  // The round
  // ---------------------------------------------------------------------------

  class BlastRound {
    var questions: seq<Question>
    var currentIndex: nat
    var score: int
    var combo: nat
    var timeLeft: int
    var active: bool
    var inTransition: bool
    var laserInFlight: bool
    var bestScore: int

    /**
     * The round's invariant: at most twelve questions, a score never
     * negative and a clock between 0 and 60 seconds.
     */
    ghost predicate Valid()
      reads this
    {
      |questions| <= MAX_QUESTIONS && score >= 0 && 0 <= timeLeft <= ROUND_SECONDS
    }

    /** The question on show, if the index is within the round. */
    function CurrentQuestion(): (q: Option<Question>)
      reads this
      ensures q.Some? <==> currentIndex < |questions|
      ensures q.Some? ==> q.value == questions[currentIndex]
    {
      if currentIndex < |questions| then Some(questions[currentIndex]) else None
    }

    /** A click on a choice that the round ignores. */
    predicate Ignores()
      reads this
    {
      !active || CurrentQuestion().None? || laserInFlight || inTransition
    }

    /** A round not started yet; `saved` is the stored best score, if readable. */
    constructor(saved: Option<int>)
      ensures Valid()
      ensures questions == [] && currentIndex == 0 && score == 0 && combo == 0 && timeLeft == ROUND_SECONDS
      ensures !active && !inTransition && !laserInFlight
      ensures bestScore == saved.GetOr(0)
    {
      questions := [];
      currentIndex := 0;
      score := 0;
      combo := 0;
      timeLeft := ROUND_SECONDS;
      active := false;
      inTransition := false;
      laserInFlight := false;
      bestScore := saved.GetOr(0);
    }

    /**
     * `startGame`, once its short delay is over: the questions are drawn
     * from the entries played in the random `order` and the round runs from
     * the first question with a full clock and no shot in flight.
     */
    method StartGame(vocabularies: seq<GameVocabulary>, order: seq<int>)
      requires IsOrder(order, |EffectiveVocabularies(vocabularies)|)
      modifies this`questions, this`currentIndex, this`score, this`combo, this`timeLeft, this`active, this`laserInFlight
      ensures Valid()
      ensures questions == PickQuestions(Shuffled(EffectiveVocabularies(vocabularies), order))
      ensures |questions| >= MIN_VOCABULARIES
      ensures currentIndex == 0 && score == 0 && combo == 0 && timeLeft == ROUND_SECONDS && active
      ensures !laserInFlight
    {
      var effective := EffectiveVocabularies(vocabularies);
      questions := PickQuestions(Shuffled(effective, order));
      currentIndex := 0;
      score := 0;
      combo := 0;
      timeLeft := ROUND_SECONDS;
      active := true;
      laserInFlight := false;
    }

    /** `stopGame`: the round is abandoned and everything, the shots included, returns to the start. */
    method StopGame()
      modifies this`questions, this`currentIndex, this`score, this`combo, this`timeLeft, this`active, this`laserInFlight
      ensures Valid()
      ensures questions == [] && currentIndex == 0 && score == 0 && combo == 0 && timeLeft == ROUND_SECONDS && !active
      ensures !laserInFlight
    {
      active := false;
      questions := [];
      currentIndex := 0;
      score := 0;
      combo := 0;
      timeLeft := ROUND_SECONDS;
      laserInFlight := false;
    }

    /**
     * The clock: a running round loses a second while time is left, and
     * stops once none is.
     */
    method Tick()
      requires Valid()
      modifies this`timeLeft, this`active
      ensures Valid()
      ensures old(active) && old(timeLeft) > 0 ==> timeLeft == old(timeLeft) - 1
      ensures !(old(active) && old(timeLeft) > 0) ==> timeLeft == old(timeLeft)
      ensures active <==> old(active) && timeLeft > 0
    {
      if active && timeLeft > 0 {
        timeLeft := timeLeft - 1;
      }
      if active && timeLeft <= 0 {
        active := false;
      }
    }

    /**
     * `handleOptionClick`: an ignored click changes nothing; otherwise the
     * shot is fired, the answer is scored by `Answered` (a hit when the
     * choice is the question's entry) and the round waits for the next
     * question.
     */
    method HandleOptionClick(choice: Choice) returns (hit: bool)
      requires Valid()
      modifies this`score, this`combo, this`inTransition, this`laserInFlight
      ensures Valid()
      ensures old(Ignores()) ==>
        !hit && score == old(score) && combo == old(combo)
        && inTransition == old(inTransition) && laserInFlight == old(laserInFlight)
      ensures !old(Ignores()) ==>
        && hit == (choice.id == old(CurrentQuestion()).value.id)
        && Tally(score, combo) == Answered(Tally(old(score), old(combo)), hit)
        && inTransition && laserInFlight
    {
      if !active || currentIndex >= |questions| || laserInFlight || inTransition {
        return false;
      }
      hit := choice.id == questions[currentIndex].id;
      laserInFlight := true;
      if hit {
        score := score + HIT_POINTS + combo * COMBO_BONUS;
        combo := combo + 1;
      } else {
        combo := 0;
        score := Max(0, score - MISS_PENALTY);
      }
      inTransition := true;
    }

    /** The shot's animation ends. */
    method LaserDone()
      modifies this`laserInFlight
      ensures !laserInFlight
    {
      laserInFlight := false;
    }

    /**
     * The delayed step after an answer, with the question index and round
     * length as they were when the answer was given: after the last question
     * the round ends, otherwise the next question is shown (the transition
     * ends a moment later, by `EndTransition`).
     */
    method Advance(answeredIndex: int, questionCount: int)
      requires Valid()
      modifies this`active, this`inTransition, this`currentIndex
      ensures Valid()
      ensures answeredIndex == questionCount - 1 ==>
        !active && !inTransition && currentIndex == old(currentIndex)
      ensures answeredIndex != questionCount - 1 ==>
        currentIndex == old(currentIndex) + 1 && active == old(active) && inTransition == old(inTransition)
      ensures answeredIndex == old(currentIndex) && questionCount == |questions| && old(currentIndex) < |questions| ==>
        currentIndex < |questions|
    {
      if answeredIndex == questionCount - 1 {
        active := false;
        inTransition := false;
      } else {
        currentIndex := currentIndex + 1;
      }
    }

    /** The short pause after a new question appears ends. */
    method EndTransition()
      modifies this`inTransition
      ensures !inTransition
    {
      inTransition := false;
    }

    /**
     * The effect that keeps the best score: once a round that had questions
     * is over, its score is offered as the best score.
     */
    method SettleBestScore()
      modifies this`bestScore
      ensures !active && |questions| > 0 ==> bestScore == BestOf(old(bestScore), score)
      ensures !(!active && |questions| > 0) ==> bestScore == old(bestScore)
    {
      if !active && |questions| > 0 {
        bestScore := BestOf(bestScore, score);
      }
    }
  }
}
