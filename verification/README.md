# English Learning Suite — a verified model of the adaptive-learning core

English Learning Suite is a web platform for Vietnamese learners of English.
A Spring Boot back end serves lessons, practice questions, tests and
vocabulary. A React front end shows them and hosts two vocabulary games.
This project models the parts that compute something, in Dafny, and proves
what they promise.

- **Hybrid recommender** (`hybrid_math.dfy`, `recommendation.dfy`,
  `streams.dfy`). The recommender combines an Elo rating (a chess-style skill
  rating) with cosine similarity between the learner's "needs" and a lesson's
  skill weights.
  - It keeps active lessons within ±150 of the learner's rating, widening to
    ±300 when none qualify.
  - It ranks them by similarity with a stable sort and returns the top five.
  - After each answer, the learner's rating, the lesson's difficulty and three
    skill proficiencies move (K-factor 32, steps +0.05 / -0.02).
- **Lesson service** (`lesson_service.dfy`, `text.dfy`):
  - judging an answer by option id, or by a typed text that is trimmed and
    compared ignoring case;
  - the rating change reported back;
  - the shuffled practice view;
  - editing a lesson.
  The service is a class over the recommendation engine. The engine is a class
  whose account and lesson tables change in place.
- **Test service** (`test_service.dfy`):
  - grading a submitted test (exact-set rule for multiple choice, one-of rule
    otherwise);
  - the integer percentage;
  - the saved progress row;
  - the test detail view, sorted by id.
- **Progress summary** (`user_progress.dfy`): lesson and test counters, time
  totals, average score, and the current and longest study streak in days.
- **Vocabulary progress** (`vocabulary_progress.dfy`): the "remembered" toggle,
  with mastery capped at 5 and a review counter.
- **Front end** (`recommended_lessons_view.dfy`, `pagination.dfy`,
  `lesson_list.dfy`):
  - the rating badges, difficulty labels and focus tags;
  - the parser that reads the rating change back out of the server's message;
  - the page selector;
  - the lesson cards.
- **Games** (`games_common.dfy`, `flashcard_game.dfy`, `blast_game.dfy`):
  - the flashcard matching game (deal, match, score, completion);
  - the "vocabulary blast" game (question pick, choices, combo scoring, progress
    bar, best score).
  Each game's state is a class whose methods follow the component's handlers.

Shared definitions:

- `entities.dfy` holds the records (accounts, lessons, questions, options) and
  their default values.
- `wrappers.dfy` holds `Option`, `Result` and `Outcome`.

How the model represents the source:

- **Repositories** are sequences held by the service objects, and a lookup is
  a search that returns an index.
- **Java `int` arithmetic** is wrapped to 32 bits explicitly (`Wrap32`) where
  the source can overflow.
- **Floating point** is modelled with real numbers.
- **`Math.pow(10, x)` and `Math.sqrt`** come from a `MathLib` parameter. The
  lemmas assume only the laws they need (`Lawful`).
- **Persistence, the clock, the signed-in user and randomness** are
  parameters: a timestamp `now`, an optional user name, a permutation or a
  list of draws.

## Model

| member | source | states |
|---|---|---|
| Entities.NewAccount | backend/src/main/java/com/ptit/englishlearningsuite/entity/Account.java:39-49 | A new account starts at rating 1000 with grammar, vocabulary and listening proficiency 0.0, keeping its id and username. |
| Entities.NewLesson | backend/src/main/java/com/ptit/englishlearningsuite/entity/Lesson.java:29-61 | A new lesson is active, has difficulty 1500, weights 0.33 / 0.33 / 0.34 and no vocabulary, grammar or conversations. |
| Entities.FindByUsername | backend/src/main/java/com/ptit/englishlearningsuite/repository/AccountRepository.java:14 | The index found holds that username; no index means no account has it. |
| Entities.FindQuestion | backend/src/main/java/com/ptit/englishlearningsuite/service/LessonService.java:341-342 | The index found holds that question id; no index means no question has it. |
| HybridMath.Wrap32 | backend/src/main/java/com/ptit/englishlearningsuite/util/HybridMathUtils.java:60 | Java `int` arithmetic: the result is congruent to the exact value mod 2^32 and equals it when it fits in 32 bits. |
| HybridMath.Round | backend/src/main/java/com/ptit/englishlearningsuite/util/HybridMathUtils.java:48 | `Math.round` lands within half a unit of its argument. |
| HybridMath.Clamp | backend/src/main/java/com/ptit/englishlearningsuite/util/HybridMathUtils.java:128 | The result lies in [lo, hi]: the input itself when inside, hi when above, lo when below. |
| HybridMath.ExpectedScore | backend/src/main/java/com/ptit/englishlearningsuite/util/HybridMathUtils.java:58-65 | The expected score is strictly between 0 and 1. |
| HybridMath.NewElo | backend/src/main/java/com/ptit/englishlearningsuite/util/HybridMathUtils.java:40-49 | The new rating is never negative (the `Math.max(0, …)` floor). |
| HybridMath.ExpectedScoresComplement | backend/src/main/java/com/ptit/englishlearningsuite/util/HybridMathUtils.java:58-65 | The two players' expected scores add up to 1 when neither subtraction overflows. |
| HybridMath.ExpectedScoreEven | backend/src/main/java/com/ptit/englishlearningsuite/util/HybridMathUtils.java:58-65 | Equal ratings expect a score of exactly 0.5. |
| HybridMath.NewEloDirection | backend/src/main/java/com/ptit/englishlearningsuite/util/HybridMathUtils.java:40-49 | When the rating ± 32 fits an `int`: a win never lowers the rating and raises it by at most K = 32; a loss lowers it by at most 32 and never raises a non-negative rating. |
| HybridMath.NewEloEvenMatch | backend/src/main/java/com/ptit/englishlearningsuite/util/HybridMathUtils.java:40-49 | When the rating ± 16 fits an `int`: between equal ratings a win adds exactly 16 and a loss takes exactly 16, floored at 0. |
| HybridMath.SumSq | backend/src/main/java/com/ptit/englishlearningsuite/util/HybridMathUtils.java:104-108 | A sum of squares is never negative. |
| HybridMath.DotSymmetric | backend/src/main/java/com/ptit/englishlearningsuite/util/HybridMathUtils.java:98-101 | The dot product does not depend on the order of its arguments. |
| HybridMath.DotSelf | backend/src/main/java/com/ptit/englishlearningsuite/util/HybridMathUtils.java:98-108 | A vector's dot product with itself is its sum of squares. |
| HybridMath.SumSqZero | backend/src/main/java/com/ptit/englishlearningsuite/util/HybridMathUtils.java:118-122 | A sum of squares is zero exactly when every entry is zero. |
| HybridMath.Cosine | backend/src/main/java/com/ptit/englishlearningsuite/util/HybridMathUtils.java:88-129 | Vectors of different lengths are an error naming both lengths; otherwise the similarity lies in [-1, 1]. |
| HybridMath.CosineOf | backend/src/main/java/com/ptit/englishlearningsuite/util/HybridMathUtils.java:118-128 | A zero norm gives similarity 0; otherwise the quotient is clamped into [-1, 1]. |
| HybridMath.CosineZeroVector | backend/src/main/java/com/ptit/englishlearningsuite/util/HybridMathUtils.java:118-122 | A similarity involving an all-zero vector is 0. |
| HybridMath.CosineNonZeroNeedsNonZeroVectors | backend/src/main/java/com/ptit/englishlearningsuite/util/HybridMathUtils.java:118-125 | A non-zero similarity implies both vectors have a non-zero entry. |
| HybridMath.CosineSymmetric | backend/src/main/java/com/ptit/englishlearningsuite/util/HybridMathUtils.java:88-129 | For vectors of equal length, the similarity of u and v equals that of v and u. |
| HybridMath.CosineSelf | backend/src/main/java/com/ptit/englishlearningsuite/util/HybridMathUtils.java:88-129 | A non-zero vector has similarity exactly 1 with itself when the square root is exact. |
| HybridMath.DotProduct | backend/src/main/java/com/ptit/englishlearningsuite/util/HybridMathUtils.java:98-101 | The loop computes the dot product of the two arrays. |
| HybridMath.SumOfSquares | backend/src/main/java/com/ptit/englishlearningsuite/util/HybridMathUtils.java:104-108 | The loop computes the array's sum of squares. |
| HybridMath.CosineSimilarity | backend/src/main/java/com/ptit/englishlearningsuite/util/HybridMathUtils.java:88-129 | The array method returns exactly the similarity specified by `Cosine`, error case included. |
| HybridMath.Normalized | backend/src/main/java/com/ptit/englishlearningsuite/util/HybridMathUtils.java:138-156 | Normalisation keeps the vector's length. |
| HybridMath.Scaled | backend/src/main/java/com/ptit/englishlearningsuite/util/HybridMathUtils.java:150-153 | Each scaled entry times the norm gives back the original entry. |
| HybridMath.SumSqScaled | backend/src/main/java/com/ptit/englishlearningsuite/util/HybridMathUtils.java:139-153 | Dividing by n divides the sum of squares by n squared. |
| HybridMath.NormalizedZeroVector | backend/src/main/java/com/ptit/englishlearningsuite/util/HybridMathUtils.java:145-148 | An all-zero vector normalises to all zeros. |
| HybridMath.NormalizedLength | backend/src/main/java/com/ptit/englishlearningsuite/util/HybridMathUtils.java:138-156 | A non-zero vector normalises to unit length when the square root is exact. |
| HybridMath.NormalizeVector | backend/src/main/java/com/ptit/englishlearningsuite/util/HybridMathUtils.java:138-156 | A fresh array of the same length holding the normalised vector. |
| Streams.Filter | backend/src/main/java/com/ptit/englishlearningsuite/service/RecommendationService.java:54-59 | The result keeps exactly the elements that pass, each exactly as often as in the input, and nothing else. |
| Streams.FilterInOrder | backend/src/main/java/com/ptit/englishlearningsuite/service/RecommendationService.java:54-59 | `filter` keeps stream order: the result reads the input at strictly increasing positions, exactly those whose entry passes. |
| Streams.FirstIndex | backend/src/main/java/com/ptit/englishlearningsuite/service/LessonService.java:357-360 | `findFirst`: the index found passes and every earlier one fails; none found means none passes. |
| Streams.SortDescending | backend/src/main/java/com/ptit/englishlearningsuite/service/RecommendationService.java:107 | Sorting keeps the length. |
| Streams.SortDescendingCorrect | backend/src/main/java/com/ptit/englishlearningsuite/service/RecommendationService.java:107 | The result is ordered by decreasing key and is a permutation of the input. |
| Streams.SortDescendingStable | backend/src/main/java/com/ptit/englishlearningsuite/service/RecommendationService.java:107 | Elements with equal keys keep their input order (the stability of `List.sort`). |
| Streams.Limit | backend/src/main/java/com/ptit/englishlearningsuite/service/RecommendationService.java:111-112 | `limit(n)` keeps the first min(n, length) elements. |
| Streams.LimitOrdered | backend/src/main/java/com/ptit/englishlearningsuite/service/RecommendationService.java:107-112 | The top n of a descending sort are in decreasing order. |
| Streams.LimitKeepsLargest | backend/src/main/java/com/ptit/englishlearningsuite/service/RecommendationService.java:107-112 | Every element left out of a full top n has a key no larger than the last one kept. |
| Streams.LimitStable | backend/src/main/java/com/ptit/englishlearningsuite/service/RecommendationService.java:107-112 | Among the top n, equal-key elements appear in their input order. |
| Text.StripIdempotent | frontend/src/components/LessonList.tsx:36 | Trimming twice gives the same as trimming once. |
| Text.JavaTrim | backend/src/main/java/com/ptit/englishlearningsuite/service/LessonService.java:369 | Java `trim`: the result starts and ends with characters above U+0020 and leaves clean strings unchanged. |
| Text.JsTrim | frontend/src/components/LessonList.tsx:36 | JavaScript `trim`: the result starts and ends with non-whitespace characters. |
| Text.UpperAscii | backend/src/main/java/com/ptit/englishlearningsuite/service/LessonService.java:369 | Only 'a'..'z' change, each by 32 code points. |
| Text.ToUpperAscii | backend/src/main/java/com/ptit/englishlearningsuite/service/LessonService.java:369 | Upper-casing a string upper-cases each character in place. |
| Text.EqualsIgnoreCaseLaws | backend/src/main/java/com/ptit/englishlearningsuite/service/LessonService.java:369 | `equalsIgnoreCase` is reflexive, symmetric and transitive, and blind to upper-casing one side. |
| Text.Digits | backend/src/main/java/com/ptit/englishlearningsuite/controller/RecommendationController.java:208-210 | The decimal text of a natural number is non-empty and all digits. |
| Text.DigitsRoundTrip | backend/src/main/java/com/ptit/englishlearningsuite/controller/RecommendationController.java:208-210 | Reading back the decimal text of n gives n. |
| Text.FormatInt | backend/src/main/java/com/ptit/englishlearningsuite/controller/RecommendationController.java:208-210 | `%d`: a negative number is "-" followed by the digits of its magnitude. |
| Recommendation.FindAccount | backend/src/main/java/com/ptit/englishlearningsuite/service/RecommendationService.java:262-263 | The index found holds that account id; no index iff no account has it. |
| Recommendation.FindLesson | backend/src/main/java/com/ptit/englishlearningsuite/service/RecommendationService.java:265-266 | The index found holds that lesson id; no index iff no lesson has it. |
| Recommendation.UserRating | backend/src/main/java/com/ptit/englishlearningsuite/service/RecommendationService.java:51 | A missing rating counts as 1500. |
| Recommendation.LessonDifficulty | backend/src/main/java/com/ptit/englishlearningsuite/service/RecommendationService.java:269-272 | A missing difficulty counts as 1500. |
| Recommendation.InBandPlain | backend/src/main/java/com/ptit/englishlearningsuite/service/RecommendationService.java:63-73 | Without overflow the `int` band test is plain `elo - w <= d <= elo + w`. |
| Recommendation.Need | backend/src/main/java/com/ptit/englishlearningsuite/service/RecommendationService.java:199-216 | The need for a skill is 1 minus its proficiency, clamped to [0, 1]; a missing proficiency needs 1. |
| Recommendation.NeedsVector | backend/src/main/java/com/ptit/englishlearningsuite/service/RecommendationService.java:199-216 | Three needs (grammar, vocabulary, listening), each in [0, 1]. |
| Recommendation.Weight | backend/src/main/java/com/ptit/englishlearningsuite/service/RecommendationService.java:232-238 | A missing weight takes its default. |
| Recommendation.LessonVector | backend/src/main/java/com/ptit/englishlearningsuite/service/RecommendationService.java:229-246 | Three weights clamped to [0, 1], kept as-is when in range; all missing gives 0.33 / 0.33 / 0.34. |
| Recommendation.Similarity | backend/src/main/java/com/ptit/englishlearningsuite/service/RecommendationService.java:94-106 | The score is the cosine of the need and lesson vectors, in [-1, 1]. |
| Recommendation.SimilarityOfSatisfiedLearner | backend/src/main/java/com/ptit/englishlearningsuite/service/RecommendationService.java:199-216 | A learner at full proficiency in every skill scores 0 against every lesson. |
| Recommendation.Candidates | backend/src/main/java/com/ptit/englishlearningsuite/service/RecommendationService.java:54-87 | Every candidate is an active lesson. |
| Recommendation.WithinBand | backend/src/main/java/com/ptit/englishlearningsuite/service/RecommendationService.java:63-73 | Exactly the lessons whose difficulty lies in the band. |
| Recommendation.ScoreAll | backend/src/main/java/com/ptit/englishlearningsuite/service/RecommendationService.java:94-106 | One entry per candidate, in order, paired with its similarity. |
| Recommendation.Recommend | backend/src/main/java/com/ptit/englishlearningsuite/service/RecommendationService.java:111-112 | At most 5 lessons are recommended. |
| Recommendation.GetRecommendedLessonsWithSimilarity | backend/src/main/java/com/ptit/englishlearningsuite/service/RecommendationService.java:124-184 | An unknown account is an error naming it; otherwise at most 5 scored lessons. |
| Recommendation.LessonsOf | backend/src/main/java/com/ptit/englishlearningsuite/service/RecommendationService.java:111-114 | The lessons of the scored list, in the same order. |
| Recommendation.GetRecommendedLessons | backend/src/main/java/com/ptit/englishlearningsuite/service/RecommendationService.java:45-115 | Fails exactly when the scored variant fails; otherwise the same lessons in the same order. |
| Recommendation.CandidatesBand | backend/src/main/java/com/ptit/englishlearningsuite/service/RecommendationService.java:54-87 | Candidates are exactly the active lessons within ±150; if there are none, exactly those within ±300; if none either, no candidates. |
| Recommendation.ActiveBand | backend/src/main/java/com/ptit/englishlearningsuite/service/RecommendationService.java:54-73 | Filtering active then banding keeps exactly the active in-band lessons, and is non-empty iff one exists. |
| Recommendation.RecommendFromCandidates | backend/src/main/java/com/ptit/englishlearningsuite/service/RecommendationService.java:94-114 | min(5, candidates) lessons, each an active candidate paired with its true similarity. |
| Recommendation.RecommendOrdered | backend/src/main/java/com/ptit/englishlearningsuite/service/RecommendationService.java:107-112 | Ordered by decreasing similarity; a full top 5 beats every left-out candidate; ties keep candidate order. |
| Recommendation.RecommendInBand | backend/src/main/java/com/ptit/englishlearningsuite/service/RecommendationService.java:63-87 | Every recommendation lies in the narrow band when any active lesson does, else in the wide band; none when both are empty. |
| Recommendation.LessonScore | backend/src/main/java/com/ptit/englishlearningsuite/service/RecommendationService.java:281-282 | The lesson's score is the complement of the learner's. |
| Recommendation.Adjusted | backend/src/main/java/com/ptit/englishlearningsuite/service/RecommendationService.java:317-335 | A proficiency moves by weight × (+0.05 or -0.02) and stays in [0, 1]. |
| Recommendation.AdjustedDirection | backend/src/main/java/com/ptit/englishlearningsuite/service/RecommendationService.java:314-335 | For a skill and a weight both in [0, 1]: passing raises the skill by at most 0.05, failing lowers it by at most 0.02. A weight above 1, which the update reads unclamped, can move it further; `Adjusted` still keeps it in [0, 1]. |
| Recommendation.AccountAfter | backend/src/main/java/com/ptit/englishlearningsuite/service/RecommendationService.java:285-335 | After a result the learner keeps id and username, has a non-negative rating and all three proficiencies in [0, 1]. |
| Recommendation.LessonAfter | backend/src/main/java/com/ptit/englishlearningsuite/service/RecommendationService.java:289-294 | Only the lesson's difficulty changes, and it stays non-negative. |
| Recommendation.ResultIsZeroSum | backend/src/main/java/com/ptit/englishlearningsuite/service/RecommendationService.java:281-294 | When both ratings and their differences fit an `int` with 32 to spare: the two unrounded changes cancel; a pass never lowers the learner and never raises a non-negative lesson difficulty; a failure never lowers the lesson and never raises a non-negative learner rating. |
| Recommendation.RecommendationService.constructor | backend/src/main/java/com/ptit/englishlearningsuite/service/RecommendationService.java:32-36 | The service starts over the given accounts and lessons. |
| Recommendation.RecommendationService.ProcessLessonResult | backend/src/main/java/com/ptit/englishlearningsuite/service/RecommendationService.java:260-340 | Unknown account or lesson: that error and nothing changes; otherwise exactly that account and that lesson are replaced by their updated values. |
| LessonService.CorrectAnswer | backend/src/main/java/com/ptit/englishlearningsuite/service/LessonService.java:355-361 | The first option marked correct, or none when no option is (or the list is missing). |
| LessonService.NoCorrectOptionRejects | backend/src/main/java/com/ptit/englishlearningsuite/service/LessonService.java:355-370 | Without a correct option every answer is judged wrong. |
| LessonService.OptionIdDecides | backend/src/main/java/com/ptit/englishlearningsuite/service/LessonService.java:364-366 | A chosen option id decides the verdict alone: right iff it is the correct option's id, whatever text comes with it. |
| LessonService.TextAnswerTrimmed | backend/src/main/java/com/ptit/englishlearningsuite/service/LessonService.java:367-370 | Surrounding blanks in a typed answer never change the verdict. |
| LessonService.TextAnswerCaseBlind | backend/src/main/java/com/ptit/englishlearningsuite/service/LessonService.java:367-370 | Letter case in a typed answer never changes the verdict. |
| LessonService.TrimUpper | backend/src/main/java/com/ptit/englishlearningsuite/service/LessonService.java:369 | Trimming and upper-casing commute. |
| LessonService.NullRatingFailureReportedAsGain | backend/src/main/java/com/ptit/englishlearningsuite/service/LessonService.java:373-383 | As written: a learner with no rating who answers wrongly is reported a change of at least +468. |
| LessonService.EloChangeFollowsVerdict | backend/src/main/java/com/ptit/englishlearningsuite/service/LessonService.java:373-383 | Corrected: for a learner rated (or read as rated) between 0 and INT_MAX − 32, the 1500-based change is the true change, in [0, 32] for a right answer and [-32, 0] for a wrong one. |
| LessonService.Validate | backend/src/main/java/com/ptit/englishlearningsuite/service/LessonService.java:333-352 | Succeeds iff signed in, user, question and lesson exist and the question belongs to the lesson; otherwise the first failing check's error, in the source's order. |
| LessonService.Evaluate | backend/src/main/java/com/ptit/englishlearningsuite/service/LessonService.java:331-384 | Fails exactly as validation does; otherwise the judge's verdict, a non-negative new rating and the change against the old rating read as 1000 when null, which for a rated learner is the true change, in [0, 32] after a right answer and [-32, 0] after a wrong one. |
| LessonService.EvaluateAdmitted | backend/src/main/java/com/ptit/englishlearningsuite/service/LessonService.java:372-383 | An admitted answer yields exactly the question, its correct option, the verdict, the updated rating and the change as the source reports it. |
| LessonService.FindOwnAccount | backend/src/main/java/com/ptit/englishlearningsuite/service/LessonService.java:377-381 | With unique ids, looking up an account's own id finds that account. |
| LessonService.OptionDtos | backend/src/main/java/com/ptit/englishlearningsuite/service/LessonService.java:183-189 | One option view per option, in order, with the same id and text. |
| LessonService.Shuffle | backend/src/main/java/com/ptit/englishlearningsuite/service/LessonService.java:169 | `Collections.shuffle`: the array ends as a permutation of itself. |
| LessonService.ToPracticeQuestionDto | backend/src/main/java/com/ptit/englishlearningsuite/service/LessonService.java:154-178 | Copies the question's fields; no options gives an empty list; options are a permutation of the option views, in order unless multiple choice. |
| LessonService.PracticeOptionsFromQuestion | backend/src/main/java/com/ptit/englishlearningsuite/service/LessonService.java:161-172 | Every option shown for practice comes from the question with the same id and text. |
| LessonService.ConversationOf | backend/src/main/java/com/ptit/englishlearningsuite/service/LessonService.java:301-320 | Keeps title and audio; sentences are attached only when the request has a non-empty list. |
| LessonService.UpdatedLesson | backend/src/main/java/com/ptit/englishlearningsuite/service/LessonService.java:255-325 | Name, number and level are replaced; audio only by a non-empty URL; vocabulary, grammar and conversations only when sent; id, activity, difficulty and weights never change. |
| LessonService.UpdateIdempotent | backend/src/main/java/com/ptit/englishlearningsuite/service/LessonService.java:260-322 | Applying the same update twice equals applying it once. |
| LessonService.UpdateKeepsRecommendation | backend/src/main/java/com/ptit/englishlearningsuite/service/LessonService.java:260-322 | An edit never changes whether or where the lesson is recommended. |
| LessonService.LessonService.constructor | backend/src/main/java/com/ptit/englishlearningsuite/service/LessonService.java:19-44 | The service starts over the given engine and questions. |
| LessonService.LessonService.Admit | backend/src/main/java/com/ptit/englishlearningsuite/service/LessonService.java:331-352 | Checks the request exactly as `Validate` specifies. |
| LessonService.LessonService.Grade | backend/src/main/java/com/ptit/englishlearningsuite/service/LessonService.java:399-454 | Returns `Evaluate`'s result; a failure changes nothing; a success updates exactly that learner and lesson. |
| LessonService.LessonService.JudgeAnswer | backend/src/main/java/com/ptit/englishlearningsuite/service/LessonService.java:424-441 | Returns the correct option and the verdict as specified. |
| LessonService.LessonService.Rate | backend/src/main/java/com/ptit/englishlearningsuite/service/LessonService.java:443-454 | Updates the learner and lesson as the engine specifies and reports the new rating and its change, a null old rating read as 1000. |
| LessonService.LessonService.SubmitAnswer | backend/src/main/java/com/ptit/englishlearningsuite/service/LessonService.java:399-467 | Errors pass through; a success reports verdict, rating, change, explanation ("" if none) and the correct text. |
| LessonService.LessonService.SubmitPractice | backend/src/main/java/com/ptit/englishlearningsuite/service/LessonService.java:331-397 | Errors pass through; a success reports verdict, correct id and text, explanation, rating and change. |
| LessonService.LessonService.BuildConversation | backend/src/main/java/com/ptit/englishlearningsuite/service/LessonService.java:301-320 | Builds the conversation `ConversationOf` specifies. |
| LessonService.LessonService.EditLesson | backend/src/main/java/com/ptit/englishlearningsuite/service/LessonService.java:256-322 | Builds the lesson `UpdatedLesson` specifies. |
| LessonService.LessonService.BuildConversations | backend/src/main/java/com/ptit/englishlearningsuite/service/LessonService.java:298-322 | One conversation per request, in order. |
| LessonService.LessonService.UpdateLesson | backend/src/main/java/com/ptit/englishlearningsuite/service/LessonService.java:255-325 | An unknown lesson fails and changes nothing; otherwise only that lesson is replaced by its update; accounts never change. |
| TestService.SortBy | backend/src/main/java/com/ptit/englishlearningsuite/service/TestService.java:87 | Sorting keeps the length. |
| TestService.SortByCorrect | backend/src/main/java/com/ptit/englishlearningsuite/service/TestService.java:87 | The result is sorted and a permutation of the input. |
| TestService.SortedEqual | backend/src/main/java/com/ptit/englishlearningsuite/service/TestService.java:95-97 | Two sorted permutations of each other are equal. |
| TestService.SortSameIffSameElements | backend/src/main/java/com/ptit/englishlearningsuite/service/TestService.java:95-97 | Two id lists sort to the same list iff they hold the same ids with the same counts. |
| TestService.CorrectIds | backend/src/main/java/com/ptit/englishlearningsuite/service/TestService.java:84-88 | At most one id per option. |
| TestService.CorrectIdsMembers | backend/src/main/java/com/ptit/englishlearningsuite/service/TestService.java:84-88 | An id is listed iff some option with that id is marked correct. |
| TestService.MultipleChoiceExactSet | backend/src/main/java/com/ptit/englishlearningsuite/service/TestService.java:92-99 | A multiple-choice answer is right iff it selects exactly the correct ids, each as often. |
| TestService.DuplicateSelectionFails | backend/src/main/java/com/ptit/englishlearningsuite/service/TestService.java:92-99 | With unique option ids, selecting the same id twice is always wrong. |
| TestService.SingleChoiceRule | backend/src/main/java/com/ptit/englishlearningsuite/service/TestService.java:100-106 | Any other question is right iff exactly one option is selected and it is marked correct. |
| TestService.AnsweredIds | backend/src/main/java/com/ptit/englishlearningsuite/service/TestService.java:67 | The question id of every answer, in order. |
| TestService.SelectedFor | backend/src/main/java/com/ptit/englishlearningsuite/service/TestService.java:71-81 | The selections grouped under one question; at most one per answer. |
| TestService.SelectedForMembers | backend/src/main/java/com/ptit/englishlearningsuite/service/TestService.java:71-81 | An id is selected for a question iff that answer pair was submitted; an unanswered question has none. |
| TestService.GradedQuestions | backend/src/main/java/com/ptit/englishlearningsuite/service/TestService.java:66-68 | Exactly the stored questions whose id was answered. |
| TestService.GradedOncePerId | backend/src/main/java/com/ptit/englishlearningsuite/service/TestService.java:66-68 | Repeating a question id in the answers never grades that question twice. |
| TestService.CorrectCount | backend/src/main/java/com/ptit/englishlearningsuite/service/TestService.java:80-111 | Succeeds iff every graded question has options (otherwise a null-reference error); the score is at most the number graded. |
| TestService.CountCorrect | backend/src/main/java/com/ptit/englishlearningsuite/service/TestService.java:80-111 | The loop computes the count `CorrectCount` specifies. |
| TestService.JavaDiv | backend/src/main/java/com/ptit/englishlearningsuite/service/TestService.java:127 | Java integer division truncates toward zero. |
| TestService.Percentage | backend/src/main/java/com/ptit/englishlearningsuite/service/TestService.java:127 | The percentage is at most 100, and non-negative while score × 100 fits in an `int`. |
| TestService.PercentageOfScore | backend/src/main/java/com/ptit/englishlearningsuite/service/TestService.java:127 | Without overflow it is score × 100 / total rounded down: all right gives 100, none right gives 0. |
| TestService.PercentageMonotone | backend/src/main/java/com/ptit/englishlearningsuite/service/TestService.java:127 | More correct answers never give a lower percentage. |
| TestService.FindTest | backend/src/main/java/com/ptit/englishlearningsuite/service/TestService.java:62-63 | The index found holds that test id; none found means no test has it. |
| TestService.FindProgress | backend/src/main/java/com/ptit/englishlearningsuite/service/TestService.java:121-122 | The index found holds that learner and test; none found means no row does. |
| TestService.SubmitOutcome | backend/src/main/java/com/ptit/englishlearningsuite/service/TestService.java:52-136 | Unknown user or test gives that error; a success is in [0, 100] unless score × 100 overflows; nothing graded scores 0. |
| TestService.SavedProgress | backend/src/main/java/com/ptit/englishlearningsuite/service/TestService.java:121-133 | The learner's existing row for the test is reused in place, or a row is appended when none exists; that row holds the new score, time and moment; every other row is unchanged. |
| TestService.TestService.constructor | backend/src/main/java/com/ptit/englishlearningsuite/service/TestService.java:27-37 | The service starts over the given accounts, tests, questions and progress. |
| TestService.TestService.SubmitTest | backend/src/main/java/com/ptit/englishlearningsuite/service/TestService.java:52-136 | Returns `SubmitOutcome`; progress is saved only for a success with graded questions, otherwise it is unchanged. |
| TestService.ToQuestionDto | backend/src/main/java/com/ptit/englishlearningsuite/service/TestService.java:154-165 | Missing options are a null-reference error; otherwise id and type are kept, no explanation, and the option views are sorted by id. |
| TestService.ToQuestionDtos | backend/src/main/java/com/ptit/englishlearningsuite/service/TestService.java:146-150 | Succeeds iff every question has options; one view per question, in order. |
| TestService.ToDetailDto | backend/src/main/java/com/ptit/englishlearningsuite/service/TestService.java:140-152 | A question with no type is a null-reference error; otherwise the view lists the supported questions sorted by id. |
| TestService.DetailViewSupportedSorted | backend/src/main/java/com/ptit/englishlearningsuite/service/TestService.java:146-150 | The detail view shows only multiple- and single-choice questions, in increasing id order. |
| TestService.QuestionOptionsSorted | backend/src/main/java/com/ptit/englishlearningsuite/service/TestService.java:160-163 | A question's options are shown in increasing id order, all of them and only them. |
| TestService.GetTestById | backend/src/main/java/com/ptit/englishlearningsuite/service/TestService.java:46-50 | An unknown id is an error naming it; otherwise that test's detail view. |
| UserProgress.Day | backend/src/main/java/com/ptit/englishlearningsuite/service/UserProgressService.java:137 | The calendar day of a moment contains it. |
| UserProgress.CompletedLessons | backend/src/main/java/com/ptit/englishlearningsuite/service/UserProgressService.java:85-87 | At most the number of rows; 0 iff none is completed; all iff all are. |
| UserProgress.SumPresent | backend/src/main/java/com/ptit/englishlearningsuite/service/UserProgressService.java:89-99 | Missing times count as 0; non-negative times give a non-negative total. |
| UserProgress.LessonTimes | backend/src/main/java/com/ptit/englishlearningsuite/service/UserProgressService.java:89-93 | The time spent of each lesson row, in order. |
| UserProgress.TestTimes | backend/src/main/java/com/ptit/englishlearningsuite/service/UserProgressService.java:95-99 | The time spent of each test row, in order. |
| UserProgress.AverageScore | backend/src/main/java/com/ptit/englishlearningsuite/service/UserProgressService.java:101-104 | No tests average 0; scores in [0, 100] average in [0, 100]. |
| UserProgress.Latest | backend/src/main/java/com/ptit/englishlearningsuite/service/UserProgressService.java:119-128 | None iff no moment is present; otherwise a present moment no earlier than any other. |
| UserProgress.LessonMoments | backend/src/main/java/com/ptit/englishlearningsuite/service/UserProgressService.java:119-123 | The completion moment of each lesson row, in order. |
| UserProgress.TestMoments | backend/src/main/java/com/ptit/englishlearningsuite/service/UserProgressService.java:124-128 | The completion moment of each test row, in order. |
| UserProgress.CompletionDays | backend/src/main/java/com/ptit/englishlearningsuite/service/UserProgressService.java:133-138 | Exactly the days on which some lesson row was completed with a moment. |
| UserProgress.CountBack | backend/src/main/java/com/ptit/englishlearningsuite/service/UserProgressService.java:169-172 | The days from p - n + 1 to p all have a completion, and day p - n has none. |
| UserProgress.CurrentStreak | backend/src/main/java/com/ptit/englishlearningsuite/service/UserProgressService.java:158-173 | 0 unless today or yesterday has a completion; otherwise the length of the unbroken run ending today, or yesterday if today is empty. |
| UserProgress.InsertDistinct | backend/src/main/java/com/ptit/englishlearningsuite/service/UserProgressService.java:144-146 | Inserting into a strictly increasing list keeps it strictly increasing and adds exactly x. |
| UserProgress.SortedDates | backend/src/main/java/com/ptit/englishlearningsuite/service/UserProgressService.java:144-146 | The completion days, distinct and in increasing order. |
| UserProgress.RunEnd | backend/src/main/java/com/ptit/englishlearningsuite/service/UserProgressService.java:148-153 | The run of consecutive days ending at index i has length between 1 and i + 1. |
| UserProgress.MaxRun | backend/src/main/java/com/ptit/englishlearningsuite/service/UserProgressService.java:148-156 | The longest run is 0 exactly for no days. |
| UserProgress.LongestRun | backend/src/main/java/com/ptit/englishlearningsuite/service/UserProgressService.java:140-156 | The loop computes `MaxRun` over all the days. |
| UserProgress.RunEndIsRun | backend/src/main/java/com/ptit/englishlearningsuite/service/UserProgressService.java:148-153 | The days counted by `RunEnd` are consecutive calendar days. |
| UserProgress.RunReachesEnd | backend/src/main/java/com/ptit/englishlearningsuite/service/UserProgressService.java:148-153 | Any run of present days ending at d[i] is no longer than `RunEnd`. |
| UserProgress.LongestIsLongestRun | backend/src/main/java/com/ptit/englishlearningsuite/service/UserProgressService.java:140-156 | Some run has the longest streak's length, and no run of completed days is longer. |
| UserProgress.ComputeStreak | backend/src/main/java/com/ptit/englishlearningsuite/service/UserProgressService.java:132-176 | Longest is 0 iff no days; it is achieved and never exceeded; current is the current streak and at most the longest. |
| UserProgress.CurrentRun | backend/src/main/java/com/ptit/englishlearningsuite/service/UserProgressService.java:158-173 | The loop computes `CurrentStreak`. |
| UserProgress.GetProgressSummary | backend/src/main/java/com/ptit/englishlearningsuite/service/UserProgressService.java:78-130 | An unknown account is an error; otherwise every counter, total, average and latest moment comes from that learner's own rows, and the longest streak is 0 exactly without completion days, is achieved, and bounds every run. |
| VocabularyProgressService.ToDto | backend/src/main/java/com/ptit/englishlearningsuite/service/VocabularyProgressService.java:66-74 | The view copies the id, flag, mastery, review count and last review. |
| VocabularyProgressService.FindProgress | backend/src/main/java/com/ptit/englishlearningsuite/service/VocabularyProgressService.java:55 | The index found is that learner's record for that word; none found means no such record. |
| VocabularyProgressService.Upserted | backend/src/main/java/com/ptit/englishlearningsuite/service/VocabularyProgressService.java:50-64 | The stored record, or a fresh one at mastery 0, 0 reviews, not remembered, never reviewed. |
| VocabularyProgressService.Reviewed | backend/src/main/java/com/ptit/englishlearningsuite/service/VocabularyProgressService.java:33-38 | Sets the flag and review time; mastery rises by 1 up to 5 only when remembered; the review count rises by 1. |
| VocabularyProgressService.ReviewKeepsMasteryInRange | backend/src/main/java/com/ptit/englishlearningsuite/service/VocabularyProgressService.java:35-37 | A review keeps mastery within [0, 5]. |
| VocabularyProgressService.Replay | backend/src/main/java/com/ptit/englishlearningsuite/service/VocabularyProgressService.java:31-41 | Replaying reviews keeps the learner and word. |
| VocabularyProgressService.ReplayMastery | backend/src/main/java/com/ptit/englishlearningsuite/service/VocabularyProgressService.java:35-37 | After any reviews, mastery is min(start + times remembered, 5). |
| VocabularyProgressService.ReplayReviewCount | backend/src/main/java/com/ptit/englishlearningsuite/service/VocabularyProgressService.java:38 | After any reviews, the count has grown by their number. |
| VocabularyProgressService.FreshRecordHistory | backend/src/main/java/com/ptit/englishlearningsuite/service/VocabularyProgressService.java:55-63 | A new record's state is a function of its history: mastery min(remembered, 5), count = reviews, flag and time from the last review. |
| VocabularyProgressService.ReplayLast | backend/src/main/java/com/ptit/englishlearningsuite/service/VocabularyProgressService.java:33-34 | The flag and review time come from the last review. |
| VocabularyProgressService.Saved | backend/src/main/java/com/ptit/englishlearningsuite/service/VocabularyProgressService.java:39 | Saving replaces the record for that learner and word, or appends it. |
| VocabularyProgressService.SavedKeepsInvariant | backend/src/main/java/com/ptit/englishlearningsuite/service/VocabularyProgressService.java:39 | Saving keeps mastery in range and one record per learner and word. |
| VocabularyProgressService.VocabularyProgressService.constructor | backend/src/main/java/com/ptit/englishlearningsuite/service/VocabularyProgressService.java:22-29 | The service starts with the given accounts and words and no progress. |
| VocabularyProgressService.VocabularyProgressService.ToggleRemembered | backend/src/main/java/com/ptit/englishlearningsuite/service/VocabularyProgressService.java:31-41 | Unknown user or word: that error, nothing saved; otherwise the reviewed record is saved and returned. |
| RecommendedLessonsView.EloBadgeColor | frontend/src/pages/RecommendedLessons.tsx:129-135 | Purple iff ≥ 1800, orange iff < 1200, with tiers at 1600, 1400 and 1200. |
| RecommendedLessonsView.BadgeMonotone | frontend/src/pages/RecommendedLessons.tsx:129-135 | A higher rating never gets a lower badge. |
| RecommendedLessonsView.BadgeStep | frontend/src/pages/RecommendedLessons.tsx:129-135 | Between 1200 and 1600, 200 more points is exactly one tier up. |
| RecommendedLessonsView.ShownRating | frontend/src/pages/RecommendedLessons.tsx:516-522 | A missing or zero rating is shown as 1500; the shown rating is never 0. |
| RecommendedLessonsView.DifficultyText | frontend/src/pages/RecommendedLessons.tsx:138-143 | "Harder" iff more than 100 above, "easier" iff more than 100 below, "suitable" otherwise. |
| RecommendedLessonsView.DifficultyAntisymmetric | frontend/src/pages/RecommendedLessons.tsx:138-143 | Swapping lesson and learner swaps "harder" and "easier" and keeps "suitable". |
| RecommendedLessonsView.DifficultyMonotone | frontend/src/pages/RecommendedLessons.tsx:138-143 | A harder lesson never reads easier. |
| RecommendedLessonsView.FocusTag | frontend/src/pages/RecommendedLessons.tsx:146-153 | No tag unless all three weights are truthy; the tag names a largest weight, ties going to grammar then vocabulary. |
| RecommendedLessonsView.FocusTagIsMaximal | frontend/src/pages/RecommendedLessons.tsx:146-153 | With non-zero weights, each tag is chosen exactly when its weight is largest under the tie rule. |
| RecommendedLessonsView.DigitRun | frontend/src/pages/RecommendedLessons.tsx:89 | `\d+` matches the longest run of digits. |
| RecommendedLessonsView.ParseEloDelta | frontend/src/pages/RecommendedLessons.tsx:89-90 | With no match anywhere the parsed delta is 0. |
| RecommendedLessonsView.RatingLine | backend/src/main/java/com/ptit/englishlearningsuite/controller/RecommendationController.java:208-210 | The server's rating line starts with the "Elo" label. |
| RecommendedLessonsView.RatingLineMatches | frontend/src/pages/RecommendedLessons.tsx:89 | The pattern matches at the start of every rating line and yields its delta. |
| RecommendedLessonsView.ParseRatingLine | frontend/src/pages/RecommendedLessons.tsx:89-90 | Round trip: the delta written into the server's response is the delta the page reads back. |
| Pagination.Range | frontend/src/components/Pagination.tsx:28-32 | The pages lo..hi in order. |
| Pagination.VisiblePages | frontend/src/components/Pagination.tsx:24-58 | The pushing loop produces the window. |
| Pagination.PushRange | frontend/src/components/Pagination.tsx:28-32 | The loop appends lo..hi. |
| Pagination.WindowShape | frontend/src/components/Pagination.tsx:24-58 | Shown pages increase, exist and include the current page; up to 5 pages all are shown; else 5 pages from 1 to the last. |
| Pagination.EllipsisMarksHiddenPages | frontend/src/components/Pagination.tsx:102-104 | An ellipsis appears exactly before a page whose predecessor exists and is hidden; never with 5 or fewer pages. |
| Pagination.EndItem | frontend/src/components/Pagination.tsx:62 | The last item is a full page's end or the last item, whichever is smaller. |
| Pagination.ItemRange | frontend/src/components/Pagination.tsx:61-62 | For a non-empty page, 1 ≤ start ≤ end ≤ total, spanning at most a page and exactly one when full. |
| Pagination.PreviousTarget | frontend/src/components/Pagination.tsx:78-83 | "Previous" moves to the page before, and only from page 2 on. |
| Pagination.NextTarget | frontend/src/components/Pagination.tsx:132-137 | "Next" moves to the page after, and only before the last page. |
| Pagination.ButtonsStayInRange | frontend/src/components/Pagination.tsx:78-137 | From a valid page both buttons stay within 1..totalPages and are disabled exactly at the ends. |
| Pagination.Render | frontend/src/components/Pagination.tsx:11-62 | Nothing is drawn unless there are at least 2 pages and a non-zero item count; otherwise the window and item range (page size 12 by default). |
| LessonList.LastIndexOf | frontend/src/components/LessonList.tsx:33-34 | The last occurrence of the character, or -1. |
| LessonList.AfterLastSeparator | frontend/src/components/LessonList.tsx:33-36 | The text after the last ':' or '-' holds neither; a name without one is kept whole. |
| LessonList.FormatLessonTitle | frontend/src/components/LessonList.tsx:31-37 | A missing or empty name is "Bài học"; otherwise the title holds no separator and a separator-free name is just trimmed. |
| LessonList.TitleAfterSeparator | frontend/src/components/LessonList.tsx:31-37 | "prefix: title" or "prefix - title" shows as the trimmed title. |
| LessonList.FormatDuration | frontend/src/components/LessonList.tsx:50-54 | No text for a missing or non-positive time; otherwise minutes rounded to nearest, at least 1. |
| LessonList.FormatDurationMonotone | frontend/src/components/LessonList.tsx:50-54 | More time never shows fewer minutes. |
| LessonList.EstimatedTime | frontend/src/components/LessonList.tsx:85 | A duration text when there is one, "30 phút" otherwise. |
| LessonList.BuildStatus | frontend/src/components/LessonList.tsx:67-97 | No progress is "not started", completed progress "done", any other "studying"; time texts follow. |
| LessonList.LevelConfig | frontend/src/components/LessonList.tsx:25-29 | Only levels 1, 2 and 3 are configured. |
| LessonList.CardLevel | frontend/src/components/LessonList.tsx:108 | An unknown level shows as level 1. |
| LessonList.LegacyCardLevel | frontend/src/components/LessonList.jsx:52 | The older list shows an unknown level as level 3. |
| LessonList.LevelVariantsAgree | frontend/src/components/LessonList.jsx:24-52 | The two list variants agree exactly on configured levels. |
| LessonList.ShownLessonNumber | frontend/src/components/LessonList.tsx:111 | Only a missing number falls back to the position + 1. |
| LessonList.LessonCards | frontend/src/components/LessonList.tsx:45-111 | No lessons shows nothing; otherwise one card per lesson, in order, built from that lesson's own progress. |
| GameCommon.BestOf | frontend/src/components/games/FlashcardMatchingGame.tsx:134-147 | The kept best is at least the old best and the latest score, and is one of them. |
| FlashcardMatchingGame.ClampPairs | frontend/src/components/games/FlashcardMatchingGame.tsx:19-22 | At most 6 words, the first ones, keeping distinct ids. |
| FlashcardMatchingGame.EffectiveVocabularies | frontend/src/components/games/FlashcardMatchingGame.tsx:86-87 | Fewer than 2 words fall back to the demo words. |
| FlashcardMatchingGame.AlwaysPlayable | frontend/src/components/games/FlashcardMatchingGame.tsx:25-87 | The game always deals 2 to 6 pairs; the demo words have distinct ids. |
| FlashcardMatchingGame.WordCard | frontend/src/components/games/FlashcardMatchingGame.tsx:152-158 | The word card carries the word's id and English text. |
| FlashcardMatchingGame.MeaningCard | frontend/src/components/games/FlashcardMatchingGame.tsx:159-165 | The meaning card carries the word's id and Vietnamese meaning. |
| FlashcardMatchingGame.Deck | frontend/src/components/games/FlashcardMatchingGame.tsx:149-166 | Two cards per word. |
| FlashcardMatchingGame.DeckPairs | frontend/src/components/games/FlashcardMatchingGame.tsx:149-166 | Each card's id is its (pair, side); the deck's pairs are exactly the chosen words. |
| FlashcardMatchingGame.DeckCardIdsDistinct | frontend/src/components/games/FlashcardMatchingGame.tsx:151-166 | No two cards share an id. |
| FlashcardMatchingGame.ShuffleIsDealt | frontend/src/components/games/FlashcardMatchingGame.tsx:167 | Any shuffle of the deck is a well-formed deal of the chosen words. |
| FlashcardMatchingGame.ReshuffleKeepsDealt | frontend/src/components/games/FlashcardMatchingGame.tsx:235 | Reshuffling on restart keeps a valid deal. |
| FlashcardMatchingGame.CompletionMeansAllMatched | frontend/src/components/games/FlashcardMatchingGame.tsx:188-193 | "Matched pairs = cards / 2" holds iff every pair is matched. |
| FlashcardMatchingGame.FindCard | frontend/src/components/games/FlashcardMatchingGame.tsx:211-212 | Finds a card with that id, or reports it absent. |
| FlashcardMatchingGame.FoundCardsMatch | frontend/src/components/games/FlashcardMatchingGame.tsx:211-215 | Two clicked cards match iff they share a pair and differ in side. |
| FlashcardMatchingGame.Penalized | frontend/src/components/games/FlashcardMatchingGame.tsx:225 | A miss costs 30 points but never goes below 0. |
| FlashcardMatchingGame.FlashcardGame.constructor | frontend/src/components/games/FlashcardMatchingGame.tsx:170-180 | A fresh, idle, empty game over a deal of the chosen words, best score loaded or 0. |
| FlashcardMatchingGame.FlashcardGame.StartGame | frontend/src/components/games/FlashcardMatchingGame.tsx:246-256 | Starts play and clears selection, matches, moves, score and time. |
| FlashcardMatchingGame.FlashcardGame.Restart | frontend/src/components/games/FlashcardMatchingGame.tsx:234-244 | Reshuffles, clears everything and waits for start. |
| FlashcardMatchingGame.FlashcardGame.Quit | frontend/src/components/games/FlashcardMatchingGame.tsx:262-267 | Stops play and clears selection and matches. |
| FlashcardMatchingGame.FlashcardGame.Tick | frontend/src/components/games/FlashcardMatchingGame.tsx:182-186 | The clock advances only during unfinished play. |
| FlashcardMatchingGame.FlashcardGame.HandleCardClick | frontend/src/components/games/FlashcardMatchingGame.tsx:201-232 | Ignored clicks change nothing; the second card of a pair counts a move, +150 and a matched pair for a match, otherwise the penalty. |
| FlashcardMatchingGame.FlashcardGame.ScoreAttempt | frontend/src/components/games/FlashcardMatchingGame.tsx:213-230 | One move; a match adds its pair and 150 points, a miss costs the penalty. |
| FlashcardMatchingGame.FlashcardGame.ClearSelection | frontend/src/components/games/FlashcardMatchingGame.tsx:220-229 | The selection is emptied. |
| FlashcardMatchingGame.FlashcardGame.UpdateBestScore | frontend/src/components/games/FlashcardMatchingGame.tsx:134-147 | The best score becomes the larger of the old best and the latest. |
| FlashcardMatchingGame.FlashcardGame.CheckCompletion | frontend/src/components/games/FlashcardMatchingGame.tsx:188-199 | Completes exactly when every pair is matched, stops play and settles the best score. |
| BlastGame.EffectiveVocabularies | frontend/src/components/games/BlastGame.tsx:91-92 | Fewer than 4 words fall back to the demo words. |
| BlastGame.AlwaysPlayable | frontend/src/components/games/BlastGame.tsx:60-92 | A round always has at least 4 words; the demo words have distinct ids. |
| BlastGame.Questions | frontend/src/components/games/BlastGame.tsx:50-56 | One question per word, in order. |
| BlastGame.PickQuestions | frontend/src/components/games/BlastGame.tsx:48-57 | The first min(12, n) shuffled words as questions. |
| BlastGame.Shuffled | frontend/src/components/games/BlastGame.tsx:49 | The words taken in a given permutation order. |
| BlastGame.ShuffleKeepsEntries | frontend/src/components/games/BlastGame.tsx:49 | Shuffling keeps the words, their number and distinct ids. |
| BlastGame.RoundQuestions | frontend/src/components/games/BlastGame.tsx:155-171 | A round has 4 to 12 questions with distinct ids, each from a real word. |
| BlastGame.Remaining | frontend/src/components/games/BlastGame.tsx:206 | Exactly the words other than the question's. |
| BlastGame.RemainingSize | frontend/src/components/games/BlastGame.tsx:206 | With distinct ids, exactly one word is removed. |
| BlastGame.RemainingNone | frontend/src/components/games/BlastGame.tsx:206 | A question with no matching word removes nothing. |
| BlastGame.Choices | frontend/src/components/games/BlastGame.tsx:204-227 | The right answer first, then up to 3 distractors. |
| BlastGame.OneRightChoice | frontend/src/components/games/BlastGame.tsx:204-227 | Only the first choice carries the question's id; with 4+ distinct words there are exactly 4 choices. |
| BlastGame.ProgressPercent | frontend/src/components/games/BlastGame.tsx:454 | `Math.round` of (index + 1) / count × 100. |
| BlastGame.ProgressBounds | frontend/src/components/games/BlastGame.tsx:454 | Progress is between 1 and 100, and 100 exactly on the last question. |
| BlastGame.Answered | frontend/src/components/games/BlastGame.tsx:423-451 | A hit adds 120 + 20 × combo and grows the combo; a miss resets it and costs 60, never below 0. |
| BlastGame.StreakScore | frontend/src/components/games/BlastGame.tsx:423-436 | n hits in a row add exactly 120n + 20·combo·n + 10n(n-1). |
| BlastGame.ScoreBound | frontend/src/components/games/BlastGame.tsx:423-451 | No mix of hits and misses beats an unbroken streak, and the score stays ≥ 0. |
| BlastGame.BestRound | frontend/src/components/games/BlastGame.tsx:423-451 | A 12-question round scores at most 2760, reached by hitting every question. |
| BlastGame.BlastRound.CurrentQuestion | frontend/src/components/games/BlastGame.tsx:195 | The question at the current index, if any. |
| BlastGame.BlastRound.constructor | frontend/src/components/games/BlastGame.tsx:71-87 | An idle round with 60 seconds on the clock and the saved best score (or 0). |
| BlastGame.BlastRound.StartGame | frontend/src/components/games/BlastGame.tsx:155-171 | Deals 4 to 12 questions from the shuffled words, resets score, combo and clock, and clears the shots. |
| BlastGame.BlastRound.StopGame | frontend/src/components/games/BlastGame.tsx:173-183 | Clears the round and the shots and stops play. |
| BlastGame.BlastRound.Tick | frontend/src/components/games/BlastGame.tsx:185-193 | The clock runs down only during play; play stops at 0. |
| BlastGame.BlastRound.HandleOptionClick | frontend/src/components/games/BlastGame.tsx:378-452 | Ignored clicks change nothing; otherwise hit iff the right word, scored as `Answered`, and the transition starts. |
| BlastGame.BlastRound.LaserDone | frontend/src/components/games/BlastGame.tsx:419-421 | The laser is cleared. |
| BlastGame.BlastRound.Advance | frontend/src/components/games/BlastGame.tsx:428-436 | After the last question play ends; otherwise the next question comes up. |
| BlastGame.BlastRound.EndTransition | frontend/src/components/games/BlastGame.tsx:434 | The transition ends. |
| BlastGame.BlastRound.SettleBestScore | frontend/src/components/games/BlastGame.tsx:197-201 | A finished round settles the best score; otherwise it is untouched. |

## Left out

- **Floating point.** `double` is modelled as `real`, with no IEEE rounding. `Math.pow(10, x)` and `Math.sqrt` are the two functions of a `MathLib` parameter. Only the laws in `Lawful` are assumed: pow10 is positive, pow10(x)·pow10(-x) = 1, sqrt is non-negative and is zero only at zero. No exact rating value (such as 1000 against 1500 giving 1031) is claimed.
- HybridMath.Round: it is `floor(x + 0.5)`. It leaves out the saturation of `Math.round` at the bounds of `long`, which no rating reachable through the `int` inputs can hit. The `(int)` narrowing after it is modelled with `Wrap32`.
- **Persistence.** Spring wiring, repositories, `@Transactional` and the two independent saves are replaced by sequences held by the service objects. A save replaces or appends a record. Concurrent requests are not modelled.
- **Caller identity and time.** The security context is an optional user name passed in. `LocalDateTime.now()` is an integer timestamp `now` (seconds), and "today" is a day number passed in. `UserProgress.Day` takes whole days since the epoch, so time zones are not modelled.
- **Randomness.** `Collections.shuffle` becomes a list of draws that drives an in-place swap loop. The front end's `sort(() => Math.random() - 0.5)` becomes a given permutation (`IsOrder`) or a shuffled deck that is a permutation of the dealt one.
- **Iteration order.** Answer options and other Hibernate collections are lists in a given order. `HashSet` iteration order is not modelled.
- **Test question order.** `findAllById` is modelled as the stored questions, in stored order, whose id was answered. Grading does not depend on that order.
- **Null-pointer paths.** A `NullPointerException` on a missing `answerOptions` or `questionType` becomes a `NullReference` error result. Other values the source may hold as null are `Option` fields, handled as the code's own null checks handle them.
- **Case folding.** `equalsIgnoreCase` and `toUpperCase` fold only ASCII letters. Unicode case mapping is not modelled.
- **Overflowing totals.** Time and score sums (`long` streams) are unbounded integers.
- TestService.Percentage: promises a result in [0, 100] only while score × 100 fits in a Java `int`. Past that, `score * 100` wraps in the source too, and the model wraps the same way.
- TestService.SubmitOutcome: the [0, 100] bound holds only while the number graded × 100 fits in a Java `int`, for the same reason.
- TestService.CorrectIds: its own contract states only a length bound. Its membership fact is the lemma `CorrectIdsMembers`.
- TestService.SelectedFor: its own contract states only a length bound. Its membership fact is the lemma `SelectedForMembers`.
- Recommendation.Recommend: its own contract states only the bound of 5. The content, order, top-5 and stability facts are the lemmas `RecommendFromCandidates`, `RecommendOrdered` and `RecommendInBand`.
- Recommendation.Candidates: its own contract states only that candidates are active lessons. The band rule is the lemma `CandidatesBand`.
- HybridMath.Normalized: its own contract states only the length. Its values are described by `Scaled`, `NormalizedZeroVector` and `NormalizedLength`.
- **Entity files.** The `Test`, `TestProgress`, `Conversation`, `Sentence`, `Vocabulary`, `Grammar` and `AnswerOption` entity classes are not part of this model. Their fields are taken from the getters and setters the services call.
- **Other operations.** These are outside the modelled core:
  - `getProgressForLesson` and the lesson and test progress listings of the progress services;
  - `createLesson`, `deleteLesson`, `createTest`, `updateTest` and `deleteTest`;
  - the controllers, except the format of the rating line (`RecommendationController.java:208-210`), which is modelled so the front end's parser can be checked against it;
  - the chatbot, translation, media, statistics and authentication services.
- **Front-end presentation.** Left out:
  - layout, animation, particles, the lasers' flight, bouncing options, sound and toasts;
  - the blast game's loading flag.
  `setTimeout` delays are the explicit methods `ClearSelection`, `LaserDone`, `Advance` and `EndTransition`. React effects are methods the caller invokes (`CheckCompletion`, `SettleBestScore`).
- **Local storage.** It is reduced to the saved best score, an optional integer given to the constructors. A missing or unparsable saved value reads as 0, as `parseInt(saved, 10) || 0` does.
- **Date formatting.** `formatDate` (locale date formatting) is a function parameter of `BuildStatus`.
- **JavaScript numbers.** `NaN` and JavaScript number precision are not modelled. Page numbers, scores and durations are integers.
- **Card ids.** The flashcard card id `` `${id}-word` `` is the pair (id, side). This is what the string encodes for integer ids.
- **Closures.** `BlastGame.BlastRound.Advance` takes the answered index and the question count as arguments. The delayed callback in the source uses the values it captured when the option was clicked.
- **Blast demo words.** The Vietnamese text of the blast game's demo words is mis-encoded in the source file. The model keeps the intended text; only the ids and the count matter to the properties.
- **Rating baselines.** The recommender reads a missing rating or difficulty as 1500 (`RecommendationService.java:51`, `:269-272`). A new account starts at 1000 (`Account.java:40`), and `LessonService` reads a missing rating as 1000 when reporting the change (`LessonService.java:373`, `:444`). The model keeps both constants. The service members (`Evaluate`, `Rate`, `Grade`, `SubmitAnswer`, `SubmitPractice`) report the change as the source does, against 1000. The mismatch is recorded under Findings, where `EloChange` is the corrected 1500-based change.
- **Active-lesson filter.** The class comment of `RecommendationService` (`RecommendationService.java:22-23`) describes the first stage as a rating-band filter only. The code also drops lessons that are not active, and the model follows the code.

## Findings

| source | as written | input that shows it | evidently intended | confidence | as-written member | corrected member |
|---|---|---|---|---|---|---|
| backend/src/main/java/com/ptit/englishlearningsuite/service/LessonService.java:373-383 | The change reported to the learner is `newElo - (oldRating ?? 1000)`. The rating engine updates a missing rating from 1500. | An account whose `eloRating` is null answers a question wrongly. The engine moves it from 1500 to at most 1500 and at least 1468, yet the response reports a change of at least +468. | Report `newElo - (oldRating ?? 1500)`: the true change, in [0, 32] after a right answer and in [-32, 0] after a wrong one. | not executed | LessonService.NullRatingFailureReportedAsGain | LessonService.EloChangeFollowsVerdict |
