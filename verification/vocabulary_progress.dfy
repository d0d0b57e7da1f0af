/**
 * A learner's memory of each vocabulary entry: whether they last marked it
 * remembered, a mastery level from 0 to 5, how many times they reviewed it,
 * and when. Marking an entry creates its record on first use.
 *
 * The signed-in learner's name and the current moment are parameters.
 */
module VocabularyProgressService {
  import opened Wrappers
  import opened HybridMath
  import opened Entities

  /** The highest mastery level. */
  const MAX_MASTERY: int := 5

  /** The stored record for one (learner, vocabulary entry) pair. */
  datatype VocabularyProgress = VocabularyProgress(
    accountId: int,
    vocabularyId: int,
    remembered: bool,
    masteryLevel: Int32,
    reviewCount: Int32,
    lastReviewedAt: Option<int>)

  /** What a review returns to the page. */
  datatype VocabularyProgressDto = VocabularyProgressDto(
    vocabularyId: int, remembered: bool, masteryLevel: Int32, reviewCount: Int32, lastReviewedAt: Option<int>)

  function ToDto(p: VocabularyProgress): (d: VocabularyProgressDto)
    ensures d.vocabularyId == p.vocabularyId && d.remembered == p.remembered
    ensures d.masteryLevel == p.masteryLevel && d.reviewCount == p.reviewCount
    ensures d.lastReviewedAt == p.lastReviewedAt
  {
    VocabularyProgressDto(p.vocabularyId, p.remembered, p.masteryLevel, p.reviewCount, p.lastReviewedAt)
  }

  /** `findByAccountAndVocabulary`: the first record of the pair. */
  function FindProgress(progress: seq<VocabularyProgress>, accountId: int, vocabularyId: int): (r: Option<nat>)
    ensures r.Some? ==> r.value < |progress|
    ensures r.Some? ==> progress[r.value].accountId == accountId && progress[r.value].vocabularyId == vocabularyId
    ensures r.None? ==> forall k :: 0 <= k < |progress| ==>
      !(progress[k].accountId == accountId && progress[k].vocabularyId == vocabularyId)
  {
    if |progress| == 0 then None
    else if progress[0].accountId == accountId && progress[0].vocabularyId == vocabularyId then Some(0)
    else match FindProgress(progress[1..], accountId, vocabularyId)
      case None => None
      case Some(k) => Some(k + 1)
  }

  /**
   * `upsertProgress` once the learner and the entry are known: the stored
   * record of the pair, or a new one with mastery 0 and no review yet.
   */
  function Upserted(progress: seq<VocabularyProgress>, accountId: int, vocabularyId: int): (p: VocabularyProgress)
    ensures p.accountId == accountId && p.vocabularyId == vocabularyId
    ensures FindProgress(progress, accountId, vocabularyId).Some? ==>
      p == progress[FindProgress(progress, accountId, vocabularyId).value]
    ensures FindProgress(progress, accountId, vocabularyId).None? ==>
      && p.masteryLevel == 0 && p.reviewCount == 0
      && !p.remembered && p.lastReviewedAt.None?
  {
    match FindProgress(progress, accountId, vocabularyId)
    case Some(k) => progress[k]
    case None => VocabularyProgress(accountId, vocabularyId, false, 0, 0, None)
  }

  /**
   * One review: `remembered` and the review moment are recorded, the review
   * count goes up by one, and a remembered entry gains one mastery level up
   * to 5 while a forgotten one keeps its level.
   */
  function Reviewed(p: VocabularyProgress, remembered: bool, now: int): (q: VocabularyProgress)
    ensures q.accountId == p.accountId && q.vocabularyId == p.vocabularyId
    ensures q.remembered == remembered && q.lastReviewedAt == Some(now)
    ensures !remembered ==> q.masteryLevel == p.masteryLevel
    ensures remembered && p.masteryLevel < MAX_MASTERY ==> q.masteryLevel == p.masteryLevel + 1
    ensures remembered && MAX_MASTERY <= p.masteryLevel < INT_MAX ==> q.masteryLevel == MAX_MASTERY
    ensures p.reviewCount < INT_MAX ==> q.reviewCount == p.reviewCount + 1
  {
    var raised := Wrap32(p.masteryLevel + 1);
    var mastery := if remembered then (if raised < MAX_MASTERY then raised else MAX_MASTERY) else p.masteryLevel;
    p.(remembered := remembered, lastReviewedAt := Some(now), masteryLevel := mastery,
       reviewCount := Wrap32(p.reviewCount + 1))
  }

  /** A review keeps the mastery level within [0, 5]. */
  lemma ReviewKeepsMasteryInRange(p: VocabularyProgress, remembered: bool, now: int)
    requires 0 <= p.masteryLevel <= MAX_MASTERY
    ensures 0 <= Reviewed(p, remembered, now).masteryLevel <= MAX_MASTERY
  {
  }

  /** One call of the toggle: whether the learner remembered the entry, and when. */
  datatype Review = Review(remembered: bool, at: int)

  /** A series of reviews of one record, in order. */
  function Replay(p: VocabularyProgress, reviews: seq<Review>): (q: VocabularyProgress)
    ensures q.accountId == p.accountId && q.vocabularyId == p.vocabularyId
    decreases |reviews|
  {
    if |reviews| == 0 then p
    else Replay(Reviewed(p, reviews[0].remembered, reviews[0].at), reviews[1..])
  }

  function CountRemembered(reviews: seq<Review>): (n: nat)
    ensures n <= |reviews|
  {
    if |reviews| == 0 then 0
    else (if reviews[0].remembered then 1 else 0) + CountRemembered(reviews[1..])
  }

  function Min(a: int, b: int): int { if a <= b then a else b }

  /**
   * From any record whose level is in [0, 5], a series of reviews leaves
   * the level in [0, 5]: the level plus the remembered reviews, capped at 5.
   */
  lemma {:induction false} ReplayMastery(p: VocabularyProgress, reviews: seq<Review>)
    requires 0 <= p.masteryLevel <= MAX_MASTERY
    ensures Replay(p, reviews).masteryLevel == Min(p.masteryLevel + CountRemembered(reviews), MAX_MASTERY)
    ensures 0 <= Replay(p, reviews).masteryLevel <= MAX_MASTERY
    decreases |reviews|
  {
    if |reviews| > 0 {
      ReplayMastery(Reviewed(p, reviews[0].remembered, reviews[0].at), reviews[1..]);
    }
  }

  /** Each review counts once: from a count `c`, `n` reviews give `c + n` while that fits in an int. */
  lemma {:induction false} ReplayReviewCount(p: VocabularyProgress, reviews: seq<Review>)
    requires 0 <= p.reviewCount && p.reviewCount + |reviews| <= INT_MAX
    ensures Replay(p, reviews).reviewCount == p.reviewCount + |reviews|
    decreases |reviews|
  {
    if |reviews| > 0 {
      ReplayReviewCount(Reviewed(p, reviews[0].remembered, reviews[0].at), reviews[1..]);
    }
  }

  /**
   * A new record reviewed `n` times (with `n` below the int range) has
   * mastery min(number remembered, 5), review count `n`, and the last
   * review's answer and moment.
   */
  lemma FreshRecordHistory(accountId: int, vocabularyId: int, reviews: seq<Review>)
    requires |reviews| <= INT_MAX
    ensures var q := Replay(VocabularyProgress(accountId, vocabularyId, false, 0, 0, None), reviews);
      && q.masteryLevel == Min(CountRemembered(reviews), MAX_MASTERY)
      && q.reviewCount == |reviews|
      && (|reviews| > 0 ==> q.remembered == reviews[|reviews| - 1].remembered)
      && (|reviews| > 0 ==> q.lastReviewedAt == Some(reviews[|reviews| - 1].at))
  {
    ReplayFromZero(VocabularyProgress(accountId, vocabularyId, false, 0, 0, None), reviews);
  }

  /** The history of any record that starts at level 0 with no reviews. */
  lemma ReplayFromZero(p: VocabularyProgress, reviews: seq<Review>)
    requires p.masteryLevel == 0 && p.reviewCount == 0 && |reviews| <= INT_MAX
    ensures var q := Replay(p, reviews);
      && q.masteryLevel == Min(CountRemembered(reviews), MAX_MASTERY)
      && q.reviewCount == |reviews|
      && (|reviews| > 0 ==> q.remembered == reviews[|reviews| - 1].remembered)
      && (|reviews| > 0 ==> q.lastReviewedAt == Some(reviews[|reviews| - 1].at))
  {
    ReplayMastery(p, reviews);
    ReplayReviewCount(p, reviews);
    if |reviews| > 0 {
      ReplayLast(p, reviews);
    }
  }

  lemma {:induction false} ReplayLast(p: VocabularyProgress, reviews: seq<Review>)
    requires |reviews| > 0
    ensures Replay(p, reviews).remembered == reviews[|reviews| - 1].remembered
    ensures Replay(p, reviews).lastReviewedAt == Some(reviews[|reviews| - 1].at)
    decreases |reviews|
  {
    if |reviews| > 1 {
      ReplayLast(Reviewed(p, reviews[0].remembered, reviews[0].at), reviews[1..]);
    }
  }

  /** `save`: the record replaces the stored one of its pair, or is appended. */
  function Saved(progress: seq<VocabularyProgress>, p: VocabularyProgress): (r: seq<VocabularyProgress>)
    ensures FindProgress(progress, p.accountId, p.vocabularyId).Some? ==>
      r == progress[FindProgress(progress, p.accountId, p.vocabularyId).value := p]
    ensures FindProgress(progress, p.accountId, p.vocabularyId).None? ==> r == progress + [p]
  {
    match FindProgress(progress, p.accountId, p.vocabularyId)
    case Some(k) => progress[k := p]
    case None => progress + [p]
  }

  /** Every stored level is in [0, 5]. */
  ghost predicate MasteryInRange(progress: seq<VocabularyProgress>) {
    forall k :: 0 <= k < |progress| ==> 0 <= progress[k].masteryLevel <= MAX_MASTERY
  }

  /** At most one record per (learner, entry) pair. */
  ghost predicate OneRecordPerPair(progress: seq<VocabularyProgress>) {
    forall i, j :: 0 <= i < j < |progress| ==>
      !(progress[i].accountId == progress[j].accountId && progress[i].vocabularyId == progress[j].vocabularyId)
  }

  /** Saving a reviewed record keeps every level in [0, 5] and one record per pair. */
  lemma SavedKeepsInvariant(progress: seq<VocabularyProgress>, p: VocabularyProgress)
    requires MasteryInRange(progress) && OneRecordPerPair(progress)
    requires 0 <= p.masteryLevel <= MAX_MASTERY
    ensures MasteryInRange(Saved(progress, p)) && OneRecordPerPair(Saved(progress, p))
  {
  }

  class VocabularyProgressService {
    var accounts: seq<Account>
    var vocabularyIds: seq<int>
    var progress: seq<VocabularyProgress>

    ghost predicate Valid()
      reads this
    {
      MasteryInRange(progress) && OneRecordPerPair(progress)
    }

    constructor(accounts: seq<Account>, vocabularyIds: seq<int>)
      ensures Valid()
      ensures this.accounts == accounts && this.vocabularyIds == vocabularyIds && progress == []
    {
      this.accounts := accounts;
      this.vocabularyIds := vocabularyIds;
      progress := [];
    }

    /**
     * `toggleRemembered`: an unknown learner or entry fails and stores
     * nothing; otherwise the pair's record (new if need be) is reviewed and
     * saved, and returned.
     */
    method ToggleRemembered(username: string, vocabularyId: int, remembered: bool, now: int)
      returns (r: Result<VocabularyProgressDto, ServiceError>)
      requires Valid()
      modifies this`progress
      ensures Valid()
      ensures FindByUsername(accounts, username).None? ==>
        r == Failure(UserNotFound(username)) && progress == old(progress)
      ensures FindByUsername(accounts, username).Some? && vocabularyId !in vocabularyIds ==>
        r == Failure(VocabularyNotFound(vocabularyId)) && progress == old(progress)
      ensures FindByUsername(accounts, username).Some? && vocabularyId in vocabularyIds ==>
        var accountId := accounts[FindByUsername(accounts, username).value].id;
        var after := Reviewed(Upserted(old(progress), accountId, vocabularyId), remembered, now);
        && progress == Saved(old(progress), after)
        && r == Success(ToDto(after))
    {
      var i := FindByUsername(accounts, username);
      if i.None? {
        return Failure(UserNotFound(username));
      }
      if vocabularyId !in vocabularyIds {
        return Failure(VocabularyNotFound(vocabularyId));
      }
      var record := Upserted(progress, accounts[i.value].id, vocabularyId);
      assert 0 <= record.masteryLevel <= MAX_MASTERY;
      record := Reviewed(record, remembered, now);
      SavedKeepsInvariant(progress, record);
      progress := Saved(progress, record);
      r := Success(ToDto(record));
    }
  }
}
