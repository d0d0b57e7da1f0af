/**
 * The stored records the services read and update, with the defaults their
 * Java field initialisers give them, and the exceptions the services raise.
 *
 * A nullable column is an `Option`; a `Set` association is a sequence in the
 * order the persistence layer yields it.
 */
module Entities {
  import opened Wrappers
  import opened HybridMath
  import opened Streams

  /** A learner. The rating and the three skill levels are nullable columns. */
  datatype Account = Account(
    id: int,
    username: string,
    eloRating: Option<Int32>,
    grammarProficiency: Option<real>,
    vocabProficiency: Option<real>,
    listeningProficiency: Option<real>)

  /** A newly constructed account: rating 1000 and every skill at 0. */
  function NewAccount(id: int, username: string): (a: Account)
    ensures a.id == id && a.username == username
    ensures a.eloRating == Some(1000)
    ensures a.grammarProficiency == Some(0.0) && a.vocabProficiency == Some(0.0)
    ensures a.listeningProficiency == Some(0.0)
  {
    Account(id, username, Some(1000), Some(0.0), Some(0.0), Some(0.0))
  }

  /** One vocabulary entry of a lesson. */
  datatype Vocabulary = Vocabulary(
    wordEnglish: string,
    phoneticSpelling: string,
    vietnameseMeaning: string,
    exampleSentenceEnglish: string,
    exampleSentenceVietnamese: string,
    imageUrl: string,
    audioUrl: string)

  /** One grammar note of a lesson. */
  datatype Grammar = Grammar(explanationEnglish: string, explanationVietnamese: string)

  /** One line of a dialogue. */
  datatype Sentence = Sentence(characterName: string, textEnglish: string, textVietnamese: string)

  /** A dialogue; `sentences` is absent until a first sentence is attached. */
  datatype Conversation = Conversation(title: string, audioUrl: string, sentences: Option<seq<Sentence>>)

  /** A lesson: its catalogue data, its rating and content weights, and its content. */
  datatype Lesson = Lesson(
    id: int,
    lessonNumber: Int32,
    level: Int32,
    name: string,
    audioUrl: Option<string>,
    isActive: Option<bool>,
    difficultyRating: Option<Int32>,
    grammarWeight: Option<real>,
    vocabWeight: Option<real>,
    listeningWeight: Option<real>,
    vocabularies: seq<Vocabulary>,
    grammars: seq<Grammar>,
    conversations: seq<Conversation>)

  /** A newly constructed lesson: active, difficulty 1500, weights 0.33 / 0.33 / 0.34. */
  function NewLesson(id: int, lessonNumber: Int32, level: Int32, name: string): (l: Lesson)
    ensures l.id == id && l.name == name && l.lessonNumber == lessonNumber && l.level == level
    ensures l.isActive == Some(true)
    ensures l.difficultyRating == Some(1500)
    ensures l.grammarWeight == Some(0.33) && l.vocabWeight == Some(0.33) && l.listeningWeight == Some(0.34)
    ensures l.vocabularies == [] && l.grammars == [] && l.conversations == []
  {
    Lesson(id, lessonNumber, level, name, None, Some(true), Some(1500),
           Some(0.33), Some(0.33), Some(0.34), [], [], [])
  }

  /** One answer option of a question. */
  datatype AnswerOption = AnswerOption(id: int, optionText: string, isCorrect: bool)

  /** A question, attached to a lesson (practice) or to a test. */
  datatype Question = Question(
    id: int,
    lessonId: Option<int>,
    testId: Option<int>,
    questionText: string,
    questionType: Option<string>,
    imageUrl: Option<string>,
    explanation: Option<string>,
    answerOptions: Option<seq<AnswerOption>>)

  /** The exceptions the modelled services raise, by message. */
  datatype ServiceError =
    | NotAuthenticated
    | UserNotFound(username: string)
    | AccountNotFound(accountId: int)
    | LessonNotFound(lessonId: int)
    | QuestionNotFound(questionId: int)
    | QuestionNotInLesson
    | TestNotFound(testId: int)
    | VocabularyNotFound(vocabularyId: int)
    | NullReference(field: string)

  /** `accountRepository.findByUsername`. */
  function FindByUsername(accounts: seq<Account>, username: string): (r: Option<nat>)
    ensures r.Some? ==> r.value < |accounts| && accounts[r.value].username == username
    ensures r.None? ==> forall k :: 0 <= k < |accounts| ==> accounts[k].username != username
  {
    FirstIndex(accounts, (a: Account) => a.username == username)
  }

  /** `questionRepository.findById`. */
  function FindQuestion(questions: seq<Question>, id: int): (r: Option<nat>)
    ensures r.Some? ==> r.value < |questions| && questions[r.value].id == id
    ensures r.None? ==> forall k :: 0 <= k < |questions| ==> questions[k].id != id
  {
    FirstIndex(questions, (q: Question) => q.id == id)
  }
}
