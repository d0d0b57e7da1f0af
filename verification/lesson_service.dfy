/**
 * The lesson service's practice flow: judging one submitted answer, feeding
 * the outcome to the recommender's rating update and reporting the rating
 * change; presenting a practice question; and editing a lesson.
 */
module LessonService {
  import opened Wrappers
  import opened HybridMath
  import opened Text
  import opened Streams
  import opened Entities
  import opened Recommendation

  // ---------------------------------------------------------------------------
  // Judging an answer
  // ---------------------------------------------------------------------------

  /** One submitted answer: an option id, a typed text, either or neither. */
  datatype Submission = Submission(questionId: int, selectedOptionId: Option<int>, textAnswer: Option<string>)

  function IsCorrectOption(o: AnswerOption): bool { o.isCorrect }

  /** The first option flagged correct, when the question has options and one is flagged. */
  function CorrectAnswer(q: Question): (r: Option<AnswerOption>)
    ensures q.answerOptions.None? ==> r.None?
    ensures r.Some? ==> q.answerOptions.Some? && r.value.isCorrect
    ensures r.Some? ==>
      exists k ::
        && 0 <= k < |q.answerOptions.value| && q.answerOptions.value[k] == r.value
        && (forall m :: 0 <= m < k ==> !q.answerOptions.value[m].isCorrect)
    ensures r.None? && q.answerOptions.Some? ==> forall o :: o in q.answerOptions.value ==> !o.isCorrect
  {
    match q.answerOptions
    case None => None
    case Some(options) =>
      match FirstIndex(options, IsCorrectOption)
      case None => None
      case Some(k) => Some(options[k])
  }

  /**
   * The verdict: a given option id is compared with the correct option's id;
   * only without an option id is the typed text compared, after trimming and
   * ignoring case; without a correct option every answer is wrong.
   */
  function Judge(correct: Option<AnswerOption>, sub: Submission): bool {
    if sub.selectedOptionId.Some? && correct.Some? then
      correct.value.id == sub.selectedOptionId.value
    else if sub.textAnswer.Some? && correct.Some? then
      EqualsIgnoreCase(JavaTrim(sub.textAnswer.value), JavaTrim(correct.value.optionText))
    else
      false
  }

  /** A question with no option flagged correct rejects every answer. */
  lemma NoCorrectOptionRejects(q: Question, sub: Submission)
    requires q.answerOptions.None? || forall o :: o in q.answerOptions.value ==> !o.isCorrect
    ensures !Judge(CorrectAnswer(q), sub)
  {
  }

  /** A given option id alone decides the verdict: the typed text is never consulted. */
  lemma OptionIdDecides(correct: AnswerOption, id: int, text1: Option<string>, text2: Option<string>, qid: int)
    ensures Judge(Some(correct), Submission(qid, Some(id), text1)) <==> correct.id == id
    ensures Judge(Some(correct), Submission(qid, Some(id), text1)) == Judge(Some(correct), Submission(qid, Some(id), text2))
  {
  }

  /** A typed answer is judged up to surrounding blanks: trimming it first never changes the verdict. */
  lemma TextAnswerTrimmed(correct: AnswerOption, text: string, qid: int)
    ensures Judge(Some(correct), Submission(qid, None, Some(JavaTrim(text))))
         == Judge(Some(correct), Submission(qid, None, Some(text)))
  {
    StripIdempotent(text, IsJavaTrimmed);
  }

  /** A typed answer is judged up to letter case: upper-casing it first never changes the verdict. */
  lemma TextAnswerCaseBlind(correct: AnswerOption, text: string, qid: int)
    ensures Judge(Some(correct), Submission(qid, None, Some(ToUpperAscii(text))))
         == Judge(Some(correct), Submission(qid, None, Some(text)))
  {
    TrimUpper(text);
    EqualsIgnoreCaseLaws(JavaTrim(text), JavaTrim(correct.optionText), JavaTrim(correct.optionText));
  }

  /** Trimming commutes with ASCII upper-casing: neither changes which characters are blanks. */
  lemma {:induction false} TrimUpper(s: string)
    ensures JavaTrim(ToUpperAscii(s)) == ToUpperAscii(JavaTrim(s))
  {
    DropStartUpper(s);
    DropEndUpper(DropStart(s, IsJavaTrimmed));
  }

  lemma {:induction false} DropStartUpper(s: string)
    ensures DropStart(ToUpperAscii(s), IsJavaTrimmed) == ToUpperAscii(DropStart(s, IsJavaTrimmed))
  {
    if |s| > 0 {
      var u := ToUpperAscii(s);
      BlankUpper(s[0]);
      assert u[0] == UpperAscii(s[0]);
      if IsJavaTrimmed(s[0]) {
        DropStartUpper(s[1..]);
        assert u[1..] == ToUpperAscii(s[1..]);
      }
    }
  }

  lemma {:induction false} DropEndUpper(s: string)
    ensures DropEnd(ToUpperAscii(s), IsJavaTrimmed) == ToUpperAscii(DropEnd(s, IsJavaTrimmed))
  {
    if |s| > 0 {
      var u := ToUpperAscii(s);
      var n := |s| - 1;
      BlankUpper(s[n]);
      assert u[n] == UpperAscii(s[n]);
      if IsJavaTrimmed(s[n]) {
        DropEndUpper(s[..n]);
        assert u[..n] == ToUpperAscii(s[..n]);
      }
    }
  }

  /** Upper-casing never turns a blank into a non-blank or back. */
  lemma BlankUpper(c: char)
    ensures IsJavaTrimmed(UpperAscii(c)) == IsJavaTrimmed(c)
  {
  }

  // ---------------------------------------------------------------------------
  // The reported rating change
  // ---------------------------------------------------------------------------

  /** The rating the service assumes, as written, for a learner with a null rating. */
  const REPORT_BASELINE_AS_WRITTEN: Int32 := 1000

  /**
   * The change reported as written: `newElo - oldElo` in `int` arithmetic,
   * both read with a null rating taken as 1000, while the engine computed the
   * new rating from 1500.
   */
  function EloChangeAsWritten(oldRating: Option<Int32>, newElo: Int32): Int32 {
    Wrap32(newElo - oldRating.GetOr(REPORT_BASELINE_AS_WRITTEN))
  }

  /**
   * With a null rating, a wrong answer is reported as a gain of at least 468
   * points, although the engine lowered the learner's rating.
   */
  lemma NullRatingFailureReportedAsGain(lib: MathLib, a: Account, l: Lesson)
    requires Lawful(lib)
    requires a.eloRating.None?
    ensures var newElo := AccountAfter(lib, a, l, false).eloRating.value;
      newElo <= ENGINE_BASELINE && EloChangeAsWritten(a.eloRating, newElo) >= 468
  {
    NewEloDirection(lib, ENGINE_BASELINE, LessonDifficulty(l));
  }

  /** The reported change, reading a null old rating as the engine does. */
  function EloChange(oldRating: Option<Int32>, newElo: Int32): Int32 {
    Wrap32(newElo - oldRating.GetOr(ENGINE_BASELINE))
  }

  /**
   * The reported change is the engine's own rating movement: for a learner
   * rated at least 0 (or unrated), a correct answer reports a change in
   * [0, 32] and a wrong one a change in [-32, 0].
   */
  lemma EloChangeFollowsVerdict(lib: MathLib, a: Account, l: Lesson, isCorrect: bool)
    requires Lawful(lib)
    requires 0 <= UserRating(a) <= INT_MAX - K_FACTOR
    ensures var newElo := AccountAfter(lib, a, l, isCorrect).eloRating.value;
      var change := EloChange(a.eloRating, newElo);
      && change == newElo - UserRating(a)
      && (isCorrect ==> 0 <= change <= K_FACTOR)
      && (!isCorrect ==> -K_FACTOR <= change <= 0)
  {
    NewEloDirection(lib, UserRating(a), LessonDifficulty(l));
  }

  // ---------------------------------------------------------------------------
  // Submitting an answer
  // ---------------------------------------------------------------------------

  /**
   * The checks before judging, in the source's order: authenticated, known
   * user, known question, known lesson, question attached to that lesson.
   * On success: the learner's row and the question.
   */
  function Validate(accounts: seq<Account>, lessons: seq<Lesson>, questions: seq<Question>,
                    user: Option<string>, lessonId: int, questionId: int): (r: Result<(nat, Question), ServiceError>)
    ensures r.Success? <==>
      && user.Some? && FindByUsername(accounts, user.value).Some?
      && FindQuestion(questions, questionId).Some? && FindLesson(lessons, lessonId).Some?
      && questions[FindQuestion(questions, questionId).value].lessonId == Some(lessonId)
    ensures user.None? ==> r == Failure(NotAuthenticated)
    ensures user.Some? && FindByUsername(accounts, user.value).None? ==> r == Failure(UserNotFound(user.value))
    ensures user.Some? && FindByUsername(accounts, user.value).Some? && FindQuestion(questions, questionId).None? ==>
      r == Failure(QuestionNotFound(questionId))
    ensures (user.Some? && FindByUsername(accounts, user.value).Some? && FindQuestion(questions, questionId).Some?
      && FindLesson(lessons, lessonId).None?) ==> r == Failure(LessonNotFound(lessonId))
    ensures (user.Some? && FindByUsername(accounts, user.value).Some? && FindQuestion(questions, questionId).Some?
      && FindLesson(lessons, lessonId).Some? && questions[FindQuestion(questions, questionId).value].lessonId != Some(lessonId))
      ==> r == Failure(QuestionNotInLesson)
    ensures r.Success? ==> (r.value.0 == FindByUsername(accounts, user.value).value
      && r.value.1 == questions[FindQuestion(questions, questionId).value])
  {
    if user.None? then Failure(NotAuthenticated)
    else match FindByUsername(accounts, user.value)
      case None => Failure(UserNotFound(user.value))
      case Some(i) =>
        match FindQuestion(questions, questionId)
        case None => Failure(QuestionNotFound(questionId))
        case Some(k) =>
          if FindLesson(lessons, lessonId).None? then Failure(LessonNotFound(lessonId))
          else if questions[k].lessonId != Some(lessonId) then Failure(QuestionNotInLesson)
          else Success((i, questions[k]))
  }

  /** What one judged submission produced: the verdict and the learner's new rating and its change. */
  datatype Graded = Graded(question: Question, correctAnswer: Option<AnswerOption>, isCorrect: bool, newElo: Int32, eloChange: Int32)

  /**
   * The whole effect of a submission, as a value: the checks, the verdict,
   * the new rating, and the change as the service reports it, a null old
   * rating read as 1000. For a rated learner the reported change is the true
   * one: between 0 and 32 after a right answer, between -32 and 0 after a
   * wrong one.
   */
  function Evaluate(lib: MathLib, accounts: seq<Account>, lessons: seq<Lesson>, questions: seq<Question>,
                    user: Option<string>, lessonId: int, sub: Submission): (r: Result<Graded, ServiceError>)
    requires Lawful(lib)
    ensures r.Failure? <==> Validate(accounts, lessons, questions, user, lessonId, sub.questionId).Failure?
    ensures r.Failure? ==> r.error == Validate(accounts, lessons, questions, user, lessonId, sub.questionId).error
    ensures r.Success? ==>
      var (i, q) := Validate(accounts, lessons, questions, user, lessonId, sub.questionId).value;
      && r.value.question == q
      && r.value.isCorrect == Judge(CorrectAnswer(q), sub)
      && r.value.newElo >= 0
      && r.value.eloChange == EloChangeAsWritten(accounts[i].eloRating, r.value.newElo)
    ensures r.Success? ==>
      var i := Validate(accounts, lessons, questions, user, lessonId, sub.questionId).value.0;
      var rating := accounts[i].eloRating;
      rating.Some? && 0 <= rating.value <= INT_MAX - K_FACTOR ==>
        && r.value.eloChange == r.value.newElo - rating.value
        && (r.value.isCorrect ==> 0 <= r.value.eloChange <= K_FACTOR)
        && (!r.value.isCorrect ==> -K_FACTOR <= r.value.eloChange <= 0)
  {
    match Validate(accounts, lessons, questions, user, lessonId, sub.questionId)
    case Failure(e) => Failure(e)
    case Success((i, q)) =>
      var correct := CorrectAnswer(q);
      var verdict := Judge(correct, sub);
      var lesson := lessons[FindLesson(lessons, lessonId).value];
      var after := AccountAfter(lib, accounts[i], lesson, verdict);
      var newElo := after.eloRating.value;
      var rating := accounts[i].eloRating;
      assert rating.Some? && 0 <= rating.value <= INT_MAX - K_FACTOR ==>
        EloChangeAsWritten(rating, newElo) == EloChange(rating, newElo) == newElo - rating.value
        && (verdict ==> 0 <= EloChange(rating, newElo) <= K_FACTOR)
        && (!verdict ==> -K_FACTOR <= EloChange(rating, newElo) <= 0) by {
        if rating.Some? && 0 <= rating.value <= INT_MAX - K_FACTOR {
          EloChangeFollowsVerdict(lib, accounts[i], lesson, verdict);
        }
      }
      Success(Graded(q, correct, verdict, newElo, EloChangeAsWritten(rating, newElo)))
  }

  /** A submission that passes the checks evaluates to its verdict and the engine's new rating for it. */
  lemma EvaluateAdmitted(lib: MathLib, accounts: seq<Account>, lessons: seq<Lesson>, questions: seq<Question>,
                         user: Option<string>, lessonId: int, sub: Submission, i: nat, q: Question)
    requires Lawful(lib)
    requires Validate(accounts, lessons, questions, user, lessonId, sub.questionId) == Success((i, q))
    ensures i < |accounts| && FindLesson(lessons, lessonId).Some?
    ensures var after := AccountAfter(lib, accounts[i], lessons[FindLesson(lessons, lessonId).value], Judge(CorrectAnswer(q), sub));
      Evaluate(lib, accounts, lessons, questions, user, lessonId, sub)
        == Success(Graded(q, CorrectAnswer(q), Judge(CorrectAnswer(q), sub), after.eloRating.value,
                          EloChangeAsWritten(accounts[i].eloRating, after.eloRating.value)))
  {
  }

  /** In a table with unique ids, looking up a row's own id finds that row. */
  lemma FindOwnAccount(accounts: seq<Account>, i: nat)
    requires AccountIdsUnique(accounts) && i < |accounts|
    ensures FindAccount(accounts, accounts[i].id) == Some(i)
  {
  }

  /** The response of `submitAnswer`. */
  datatype AnswerResponse = AnswerResponse(correct: bool, newElo: Int32, eloChange: Int32, explanation: string, correctAnswer: Option<string>)

  /** The response of `submitPractice`. */
  datatype PracticeResponse = PracticeResponse(
    isCorrect: bool, correctAnswerId: Option<int>, correctAnswerText: Option<string>,
    explanation: Option<string>, newElo: Int32, eloChange: Int32)

  // ---------------------------------------------------------------------------
  // Presenting a practice question
  // ---------------------------------------------------------------------------

  /** An answer option as shown to a learner: its id and text, never whether it is correct. */
  datatype OptionDto = OptionDto(id: int, optionText: string)

  /** A practice question as shown to a learner. */
  datatype PracticeQuestionDto = PracticeQuestionDto(
    id: int, questionText: string, questionType: Option<string>, imageUrl: Option<string>, options: seq<OptionDto>)

  /** The options as shown, in the question's order. */
  function OptionDtos(options: seq<AnswerOption>): (r: seq<OptionDto>)
    ensures |r| == |options|
    ensures forall k :: 0 <= k < |options| ==> r[k].id == options[k].id && r[k].optionText == options[k].optionText
  {
    seq(|options|, k requires 0 <= k < |options| => OptionDto(options[k].id, options[k].optionText))
  }

  /** `"MULTIPLE_CHOICE".equalsIgnoreCase(type)`: false for a null type. */
  predicate IsMultipleChoice(questionType: Option<string>) {
    questionType.Some? && EqualsIgnoreCase("MULTIPLE_CHOICE", questionType.value)
  }

  /**
   * The draws `Collections.shuffle` takes from its random source for a list of
   * `n` elements: for i = n down to 2, one index below i.
   */
  predicate ShuffleDraws(draws: seq<int>, n: nat) {
    && |draws| == (if n > 1 then n - 1 else 0)
    && forall k :: 0 <= k < |draws| ==> 0 <= draws[k] < n - k
  }

  /** `Collections.shuffle` on a random-access list: a backward Fisher-Yates pass driven by `draws`. */
  method Shuffle<T>(a: array<T>, draws: seq<int>)
    requires ShuffleDraws(draws, a.Length)
    modifies a
    ensures multiset(a[..]) == multiset(old(a[..]))
  {
    var i := a.Length;
    var k := 0;
    while i > 1
      invariant 0 <= k && (a.Length <= 1 ==> i == a.Length && k == 0)
      invariant a.Length > 1 ==> 1 <= i <= a.Length && k == a.Length - i
      invariant multiset(a[..]) == multiset(old(a[..]))
    {
      var j := draws[k];
      a[i - 1], a[j] := a[j], a[i - 1];
      i := i - 1;
      k := k + 1;
    }
  }

  /**
   * `convertToPracticeQuestionDto`: the question without its correct flags;
   * the options reordered by `draws` for a multiple-choice question, in their
   * own order otherwise, and none when the question has no option list.
   */
  method ToPracticeQuestionDto(q: Question, draws: seq<int>) returns (dto: PracticeQuestionDto)
    requires q.answerOptions.Some? && IsMultipleChoice(q.questionType) ==> ShuffleDraws(draws, |q.answerOptions.value|)
    ensures dto.id == q.id && dto.questionText == q.questionText
    ensures dto.questionType == q.questionType && dto.imageUrl == q.imageUrl
    ensures q.answerOptions.None? ==> dto.options == []
    ensures q.answerOptions.Some? ==> multiset(dto.options) == multiset(OptionDtos(q.answerOptions.value))
    ensures q.answerOptions.Some? && !IsMultipleChoice(q.questionType) ==> dto.options == OptionDtos(q.answerOptions.value)
  {
    dto := PracticeQuestionDto(q.id, q.questionText, q.questionType, q.imageUrl, []);
    if q.answerOptions.Some? {
      var options := OptionDtos(q.answerOptions.value);
      if IsMultipleChoice(q.questionType) {
        var a := new OptionDto[|options|](k requires 0 <= k < |options| => options[k]);
        assert a[..] == options;
        Shuffle(a, draws);
        options := a[..];
      }
      dto := dto.(options := options);
    }
  }

  /** Every option shown is one of the question's own options, with its id and text. */
  lemma PracticeOptionsFromQuestion(q: Question, dto: PracticeQuestionDto, o: OptionDto)
    requires q.answerOptions.Some?
    requires multiset(dto.options) == multiset(OptionDtos(q.answerOptions.value))
    requires o in dto.options
    ensures exists k ::
      && 0 <= k < |q.answerOptions.value|
      && q.answerOptions.value[k].id == o.id
      && q.answerOptions.value[k].optionText == o.optionText
  {
    assert o in multiset(OptionDtos(q.answerOptions.value));
    var ds := OptionDtos(q.answerOptions.value);
    var k :| 0 <= k < |ds| && ds[k] == o;
  }

  // ---------------------------------------------------------------------------
  // Editing a lesson
  // ---------------------------------------------------------------------------

  /** One dialogue of an edit request. */
  datatype ConversationRequest = ConversationRequest(title: string, audioUrl: string, sentences: Option<seq<Sentence>>)

  /** An edit request; a null list means "leave that content as it is". */
  datatype LessonRequest = LessonRequest(
    name: string, lessonNumber: Int32, level: Int32, audioUrl: Option<string>,
    vocabularies: Option<seq<Vocabulary>>, grammars: Option<seq<Grammar>>,
    conversations: Option<seq<ConversationRequest>>)

  /** The dialogue built from a request: its sentence set is created only when a first sentence arrives. */
  function ConversationOf(c: ConversationRequest): (r: Conversation)
    ensures r.title == c.title && r.audioUrl == c.audioUrl
    ensures r.sentences.Some? <==> c.sentences.Some? && |c.sentences.value| > 0
    ensures r.sentences.Some? ==> r.sentences == c.sentences
  {
    Conversation(c.title, c.audioUrl, if c.sentences.Some? && |c.sentences.value| > 0 then c.sentences else None)
  }

  /**
   * The lesson after an edit: name, number and level always replaced; the
   * audio URL only by a non-empty value; each content list only when the
   * request supplies one; the rating, the weights and the active flag kept.
   */
  function UpdatedLesson(l: Lesson, req: LessonRequest): (r: Lesson)
    ensures r.id == l.id && r.isActive == l.isActive && r.difficultyRating == l.difficultyRating
    ensures r.grammarWeight == l.grammarWeight && r.vocabWeight == l.vocabWeight && r.listeningWeight == l.listeningWeight
    ensures r.name == req.name && r.lessonNumber == req.lessonNumber && r.level == req.level
    ensures r.audioUrl == if req.audioUrl.Some? && |req.audioUrl.value| > 0 then req.audioUrl else l.audioUrl
    ensures r.vocabularies == req.vocabularies.GetOr(l.vocabularies)
    ensures r.grammars == req.grammars.GetOr(l.grammars)
    ensures req.conversations.None? ==> r.conversations == l.conversations
    ensures req.conversations.Some? ==> |r.conversations| == |req.conversations.value|
    ensures req.conversations.Some? ==>
      forall k :: 0 <= k < |r.conversations| ==> r.conversations[k] == ConversationOf(req.conversations.value[k])
  {
    var audio := if req.audioUrl.Some? && |req.audioUrl.value| > 0 then req.audioUrl else l.audioUrl;
    var conversations := match req.conversations
      case None => l.conversations
      case Some(cs) => seq(|cs|, k requires 0 <= k < |cs| => ConversationOf(cs[k]));
    l.(name := req.name, lessonNumber := req.lessonNumber, level := req.level, audioUrl := audio,
       vocabularies := req.vocabularies.GetOr(l.vocabularies), grammars := req.grammars.GetOr(l.grammars),
       conversations := conversations)
  }

  /** Applying the same edit twice changes nothing more. */
  lemma UpdateIdempotent(l: Lesson, req: LessonRequest)
    ensures UpdatedLesson(UpdatedLesson(l, req), req) == UpdatedLesson(l, req)
  {
  }

  /** An edit never moves a lesson in the recommender: same activity, same band membership, same content vector. */
  lemma UpdateKeepsRecommendation(l: Lesson, req: LessonRequest, elo: Int32, width: int)
    ensures IsActive(UpdatedLesson(l, req)) == IsActive(l)
    ensures LessonDifficulty(UpdatedLesson(l, req)) == LessonDifficulty(l)
    ensures InBand(UpdatedLesson(l, req), elo, width) == InBand(l, elo, width)
    ensures LessonVector(UpdatedLesson(l, req)) == LessonVector(l)
  {
  }

  /** The service, holding the question table and sharing the recommender's account and lesson tables. */
  class LessonService {
    const engine: RecommendationService
    var questions: seq<Question>

    ghost predicate Valid()
      reads this, engine
    {
      engine.Valid()
    }

    constructor (engine: RecommendationService, questions: seq<Question>)
      requires engine.Valid()
      ensures Valid()
      ensures this.engine == engine && this.questions == questions
    {
      this.engine := engine;
      this.questions := questions;
    }

    /** The checks before judging, reading the current tables; nothing is written. */
    method Admit(user: Option<string>, lessonId: int, questionId: int) returns (r: Result<(nat, Question), ServiceError>)
      ensures r == Validate(engine.accounts, engine.lessons, questions, user, lessonId, questionId)
    {
      if user.None? {
        return Failure(NotAuthenticated);
      }
      var username := user.value;
      var ai := FindByUsername(engine.accounts, username);
      if ai.None? {
        return Failure(UserNotFound(username));
      }
      var qi := FindQuestion(questions, questionId);
      if qi.None? {
        return Failure(QuestionNotFound(questionId));
      }
      var question := questions[qi.value];
      if FindLesson(engine.lessons, lessonId).None? {
        return Failure(LessonNotFound(lessonId));
      }
      if question.lessonId.None? || question.lessonId.value != lessonId {
        return Failure(QuestionNotInLesson);
      }
      r := Success((ai.value, question));
    }

    /**
     * The shared body of `submitAnswer` and `submitPractice`: the checks, the
     * verdict, the rating update with exactly that verdict, and the change
     * read back from the updated account. Nothing is written when a check fails.
     */
    method Grade(user: Option<string>, lessonId: int, sub: Submission) returns (r: Result<Graded, ServiceError>)
      requires Valid()
      modifies engine
      ensures Valid()
      ensures r == Evaluate(engine.lib, old(engine.accounts), old(engine.lessons), questions, user, lessonId, sub)
      ensures r.Failure? ==> engine.accounts == old(engine.accounts) && engine.lessons == old(engine.lessons)
      ensures r.Success? ==>
        var i := FindByUsername(old(engine.accounts), user.value).value;
        var j := FindLesson(old(engine.lessons), lessonId).value;
        && engine.accounts == old(engine.accounts)[i := AccountAfter(engine.lib, old(engine.accounts)[i], old(engine.lessons)[j], r.value.isCorrect)]
        && engine.lessons == old(engine.lessons)[j := LessonAfter(engine.lib, old(engine.lessons)[j], old(engine.accounts)[i], r.value.isCorrect)]
    {
      ghost var accounts0, lessons0 := engine.accounts, engine.lessons;
      var checked := Admit(user, lessonId, sub.questionId);
      if checked.Failure? {
        return Failure(checked.error);
      }
      var question := checked.value.1;
      EvaluateAdmitted(engine.lib, accounts0, lessons0, questions, user, lessonId, sub, checked.value.0, question);

      var correctAnswer, isCorrect := JudgeAnswer(question, sub);
      var newElo, eloChange := Rate(checked.value.0, lessonId, isCorrect);
      r := Success(Graded(question, correctAnswer, isCorrect, newElo, eloChange));
    }

    /** The correct option and the verdict on the submission; nothing is read or written. */
    static method JudgeAnswer(question: Question, sub: Submission) returns (correctAnswer: Option<AnswerOption>, isCorrect: bool)
      ensures correctAnswer == CorrectAnswer(question)
      ensures isCorrect == Judge(CorrectAnswer(question), sub)
    {
      correctAnswer := None;
      if question.answerOptions.Some? {
        correctAnswer := CorrectAnswer(question);
      }
      isCorrect := false;
      if sub.selectedOptionId.Some? && correctAnswer.Some? {
        isCorrect := correctAnswer.value.id == sub.selectedOptionId.value;
      } else if sub.textAnswer.Some? && correctAnswer.Some? {
        isCorrect := EqualsIgnoreCase(JavaTrim(sub.textAnswer.value), JavaTrim(correctAnswer.value.optionText));
      }
    }

    /**
     * Feeds the verdict to the engine for the learner in row `i` and reads the
     * new rating back from the updated row; the change is taken against the
     * old rating, a null one read as 1000 although the engine started it
     * from 1500 (`NullRatingFailureReportedAsGain`).
     */
    method Rate(i: nat, lessonId: int, isCorrect: bool) returns (newElo: Int32, eloChange: Int32)
      requires Valid()
      requires i < |engine.accounts| && FindLesson(engine.lessons, lessonId).Some?
      modifies engine
      ensures Valid()
      ensures var j := FindLesson(old(engine.lessons), lessonId).value;
        var after := AccountAfter(engine.lib, old(engine.accounts)[i], old(engine.lessons)[j], isCorrect);
        && engine.accounts == old(engine.accounts)[i := after]
        && engine.lessons == old(engine.lessons)[j := LessonAfter(engine.lib, old(engine.lessons)[j], old(engine.accounts)[i], isCorrect)]
        && newElo == after.eloRating.value
        && eloChange == EloChangeAsWritten(old(engine.accounts)[i].eloRating, newElo)
    {
      var account := engine.accounts[i];
      var oldRating := account.eloRating;
      FindOwnAccount(engine.accounts, i);
      var outcome := engine.ProcessLessonResult(account.id, lessonId, isCorrect);
      FindOwnAccount(engine.accounts, i);
      var reread := FindAccount(engine.accounts, account.id);
      account := engine.accounts[reread.value];
      newElo := account.eloRating.GetOr(REPORT_BASELINE_AS_WRITTEN);
      eloChange := Wrap32(newElo - oldRating.GetOr(REPORT_BASELINE_AS_WRITTEN));
    }

    /** `submitAnswer`: the graded result, the explanation (empty when null) and the correct option's text. */
    method SubmitAnswer(user: Option<string>, lessonId: int, sub: Submission) returns (r: Result<AnswerResponse, ServiceError>)
      requires Valid()
      modifies engine
      ensures Valid()
      ensures var e := Evaluate(engine.lib, old(engine.accounts), old(engine.lessons), questions, user, lessonId, sub);
        && (e.Failure? ==> r == Failure(e.error))
        && (e.Success? ==> r == Success(AnswerResponse(
             e.value.isCorrect, e.value.newElo, e.value.eloChange,
             e.value.question.explanation.GetOr(""),
             if e.value.correctAnswer.Some? then Some(e.value.correctAnswer.value.optionText) else None)))
    {
      var g := Grade(user, lessonId, sub);
      if g.Failure? {
        return Failure(g.error);
      }
      var graded := g.value;
      var correctAnswer: Option<string> := None;
      if graded.correctAnswer.Some? {
        correctAnswer := Some(graded.correctAnswer.value.optionText);
      }
      r := Success(AnswerResponse(graded.isCorrect, graded.newElo, graded.eloChange,
                                  graded.question.explanation.GetOr(""), correctAnswer));
    }

    /** `submitPractice`: the graded result with the correct option's id and text, and the raw explanation. */
    method SubmitPractice(user: Option<string>, lessonId: int, sub: Submission) returns (r: Result<PracticeResponse, ServiceError>)
      requires Valid()
      modifies engine
      ensures Valid()
      ensures var e := Evaluate(engine.lib, old(engine.accounts), old(engine.lessons), questions, user, lessonId, sub);
        && (e.Failure? ==> r == Failure(e.error))
        && (e.Success? ==> r == Success(PracticeResponse(
             e.value.isCorrect,
             if e.value.correctAnswer.Some? then Some(e.value.correctAnswer.value.id) else None,
             if e.value.correctAnswer.Some? then Some(e.value.correctAnswer.value.optionText) else None,
             e.value.question.explanation, e.value.newElo, e.value.eloChange)))
    {
      var g := Grade(user, lessonId, sub);
      if g.Failure? {
        return Failure(g.error);
      }
      var graded := g.value;
      var response := PracticeResponse(graded.isCorrect, None, None, graded.question.explanation, graded.newElo, graded.eloChange);
      if graded.correctAnswer.Some? {
        response := response.(correctAnswerId := Some(graded.correctAnswer.value.id),
                              correctAnswerText := Some(graded.correctAnswer.value.optionText));
      }
      r := Success(response);
    }

    /** One dialogue of an edit, built sentence by sentence; the sentence set is created on the first one. */
    static method BuildConversation(c: ConversationRequest) returns (conv: Conversation)
      ensures conv == ConversationOf(c)
    {
      conv := Conversation(c.title, c.audioUrl, None);
      if c.sentences.Some? {
        var sentences := c.sentences.value;
        for k := 0 to |sentences|
          invariant conv.title == c.title && conv.audioUrl == c.audioUrl
          invariant conv.sentences == if k == 0 then None else Some(sentences[..k])
        {
          if conv.sentences.None? {
            conv := conv.(sentences := Some([]));
          }
          assert sentences[..k + 1] == sentences[..k] + [sentences[k]];
          conv := conv.(sentences := Some(conv.sentences.value + [sentences[k]]));
        }
        assert sentences[..|sentences|] == sentences;
      }
    }

    /** The edits of `updateLesson` applied one field at a time to the stored lesson. */
    static method EditLesson(stored: Lesson, req: LessonRequest) returns (lesson: Lesson)
      ensures lesson == UpdatedLesson(stored, req)
    {
      lesson := stored.(name := req.name, lessonNumber := req.lessonNumber, level := req.level);
      if req.audioUrl.Some? && |req.audioUrl.value| > 0 {
        lesson := lesson.(audioUrl := req.audioUrl);
      }
      if req.vocabularies.Some? {
        lesson := lesson.(vocabularies := []);
        lesson := lesson.(vocabularies := lesson.vocabularies + req.vocabularies.value);
      }
      if req.grammars.Some? {
        lesson := lesson.(grammars := []);
        lesson := lesson.(grammars := lesson.grammars + req.grammars.value);
      }
      if req.conversations.Some? {
        var conversations := BuildConversations(req.conversations.value);
        lesson := lesson.(conversations := conversations);
      }
    }

    /** The dialogues of an edit, built one by one into a cleared list. */
    static method BuildConversations(requested: seq<ConversationRequest>) returns (conversations: seq<Conversation>)
      ensures |conversations| == |requested|
      ensures forall m :: 0 <= m < |requested| ==> conversations[m] == ConversationOf(requested[m])
    {
      conversations := [];
      for k := 0 to |requested|
        invariant |conversations| == k
        invariant forall m :: 0 <= m < k ==> conversations[m] == ConversationOf(requested[m])
      {
        var conv := BuildConversation(requested[k]);
        conversations := conversations + [conv];
      }
    }

    /**
     * `updateLesson`: the stored lesson edited in place, each content list
     * cleared and refilled only when the request supplies it; an unknown id
     * fails and changes nothing.
     */
    method UpdateLesson(id: int, req: LessonRequest) returns (r: Result<Lesson, ServiceError>)
      requires Valid()
      modifies engine
      ensures Valid()
      ensures engine.accounts == old(engine.accounts)
      ensures FindLesson(old(engine.lessons), id).None? ==>
        r == Failure(LessonNotFound(id)) && engine.lessons == old(engine.lessons)
      ensures FindLesson(old(engine.lessons), id).Some? ==>
        var j := FindLesson(old(engine.lessons), id).value;
        && engine.lessons == old(engine.lessons)[j := UpdatedLesson(old(engine.lessons)[j], req)]
        && r == Success(UpdatedLesson(old(engine.lessons)[j], req))
    {
      var li := FindLesson(engine.lessons, id);
      if li.None? {
        return Failure(LessonNotFound(id));
      }
      var lesson := EditLesson(engine.lessons[li.value], req);
      engine.lessons := engine.lessons[li.value := lesson];
      r := Success(lesson);
    }
  }
}
