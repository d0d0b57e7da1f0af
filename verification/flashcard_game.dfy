/**
 * The card-matching game: up to six vocabulary entries become a shuffled
 * deck of word cards and meaning cards; the player turns two cards at a
 * time, a word with its own meaning is a matched pair (+150 points), any
 * other pair costs 30 points (never below zero), and the game ends when
 * every pair is matched. The best score is kept across games.
 *
 * The shuffle's random order, the clock's ticks and the stored best score
 * are parameters or method calls; sound, animation and storage are not
 * part of this model.
 */
module FlashcardMatchingGame {
  import opened Wrappers
  import opened GameCommon

  /** The most pairs on the table. */
  const MAX_PAIRS: int := 6

  /** The points a matched pair earns. */
  const MATCH_POINTS: int := 150

  /** The points a wrong pair costs. */
  const MISS_PENALTY: int := 30

  datatype Side = Word | Meaning

  /**
   * A card's identity, rendered as "<id>-word" or "<id>-meaning": it is
   * determined by the entry's id and the side.
   */
  datatype CardId = CardId(pairId: int, side: Side)

  datatype Card = Card(cardId: CardId, pairId: int, side: Side, text: string)

  /** The entries shown when the page gives fewer than two. */
  const DEMO_VOCABULARIES: seq<GameVocabulary> := [
    GameVocabulary(1, "Painting a house", "Sơn nhà"),
    GameVocabulary(2, "Department", "Bộ phận, phòng ban"),
    GameVocabulary(3, "Conference", "Hội nghị"),
    GameVocabulary(4, "Post office", "Bưu điện"),
    GameVocabulary(5, "Delivery time", "Thời gian giao hàng"),
    GameVocabulary(6, "One-bedroom apartment", "Căn hộ một phòng ngủ")
  ]

  // ---------------------------------------------------------------------------
  // The deck
  // ---------------------------------------------------------------------------

  /** `clampPairs`: the first six entries at most. */
  function ClampPairs(vs: seq<GameVocabulary>): (r: seq<GameVocabulary>)
    ensures |r| == Min(|vs|, MAX_PAIRS)
    ensures r == vs[..|r|]
    ensures DistinctIds(vs) ==> DistinctIds(r)
  {
    if |vs| <= MAX_PAIRS then vs else vs[..MAX_PAIRS]
  }

  /** The entries played: the page's own when it gives two or more, else the demo set. */
  function EffectiveVocabularies(vs: seq<GameVocabulary>): (r: seq<GameVocabulary>)
    ensures |vs| >= 2 ==> r == vs
    ensures |vs| < 2 ==> r == DEMO_VOCABULARIES
    ensures |r| >= 2
  {
    if |vs| >= 2 then vs else DEMO_VOCABULARIES
  }

  /**
   * The game can always be played, with two to six pairs on the table, and
   * the demo set's ids are distinct.
   */
  lemma AlwaysPlayable(vs: seq<GameVocabulary>)
    ensures 2 <= |ClampPairs(EffectiveVocabularies(vs))| <= MAX_PAIRS
    ensures DistinctIds(DEMO_VOCABULARIES)
    ensures DistinctIds(vs) ==> DistinctIds(ClampPairs(EffectiveVocabularies(vs)))
  {
  }

  function WordCard(v: GameVocabulary): (c: Card)
    ensures c.pairId == v.id && c.side == Word && c.text == v.wordEnglish
  {
    Card(CardId(v.id, Word), v.id, Word, v.wordEnglish)
  }

  function MeaningCard(v: GameVocabulary): (c: Card)
    ensures c.pairId == v.id && c.side == Meaning && c.text == v.vietnameseMeaning
  {
    Card(CardId(v.id, Meaning), v.id, Meaning, v.vietnameseMeaning)
  }

  /** The card at position `k` of the unshuffled deck: entry k/2's word card or meaning card. */
  function CardAt(selected: seq<GameVocabulary>, k: nat): Card
    requires k < 2 * |selected|
  {
    if k % 2 == 0 then WordCard(selected[k / 2]) else MeaningCard(selected[k / 2])
  }

  /** The unshuffled deck: each entry's word card followed by its meaning card. */
  function Deck(selected: seq<GameVocabulary>): (deck: seq<Card>)
    ensures |deck| == 2 * |selected|
  {
    seq(2 * |selected|, k requires 0 <= k < 2 * |selected| => CardAt(selected, k))
  }

  /** A card's id names its own entry and side. */
  ghost predicate WellFormed(cards: seq<Card>) {
    forall c :: c in cards ==> c.cardId == CardId(c.pairId, c.side)
  }

  ghost function PairIds(cards: seq<Card>): set<int> {
    set c | c in cards :: c.pairId
  }

  ghost function CardIds(cards: seq<Card>): set<CardId> {
    set c | c in cards :: c.cardId
  }

  ghost function IdSet(vs: seq<GameVocabulary>): set<int> {
    set v | v in vs :: v.id
  }

  /** Every card of the deck is well formed, and its pairs are the entries' ids. */
  lemma DeckPairs(selected: seq<GameVocabulary>)
    ensures WellFormed(Deck(selected))
    ensures PairIds(Deck(selected)) == IdSet(selected)
  {
    var deck := Deck(selected);
    forall id | id in IdSet(selected) ensures id in PairIds(deck) {
      var i :| 0 <= i < |selected| && selected[i].id == id;
      assert deck[2 * i] == WordCard(selected[i]);
    }
    forall id | id in PairIds(deck) ensures id in IdSet(selected) {
      var k :| 0 <= k < |deck| && deck[k].pairId == id;
      assert selected[k / 2] in selected;
    }
  }

  /** Distinct entries give as many pair ids as entries. */
  lemma {:induction false} IdSetSize(vs: seq<GameVocabulary>)
    requires DistinctIds(vs)
    ensures |IdSet(vs)| == |vs|
    decreases |vs|
  {
    if |vs| > 0 {
      DistinctTail(vs);
      IdSetSize(vs[1..]);
      IdSetCons(vs);
    } else {
      assert IdSet(vs) == {};
    }
  }

  /**
   * Dropping the first of distinct entries leaves distinct entries, none
   * with the first one's id.
   */
  lemma DistinctTail(vs: seq<GameVocabulary>)
    requires |vs| > 0 && DistinctIds(vs)
    ensures DistinctIds(vs[1..])
    ensures vs[0].id !in IdSet(vs[1..])
  {
    var tail := vs[1..];
    forall i, j | 0 <= i < j < |tail| ensures tail[i].id != tail[j].id {
      assert tail[i] == vs[i + 1] && tail[j] == vs[j + 1];
    }
    forall v | v in tail ensures v.id != vs[0].id {
      var j :| 0 <= j < |tail| && tail[j] == v;
      assert vs[j + 1] == v;
    }
  }

  /** The ids of a non-empty list: the first one's and those of the rest. */
  lemma IdSetCons(vs: seq<GameVocabulary>)
    requires |vs| > 0
    ensures IdSet(vs) == {vs[0].id} + IdSet(vs[1..])
  {
    var tail := vs[1..];
    forall id | id in IdSet(vs) ensures id == vs[0].id || id in IdSet(tail) {
      var v :| v in vs && v.id == id;
      var i :| 0 <= i < |vs| && vs[i] == v;
      if i > 0 {
        assert tail[i - 1] == v;
      }
    }
    forall id | id in IdSet(tail) ensures id in IdSet(vs) {
      var v :| v in tail && v.id == id;
      assert v in vs;
    }
    assert vs[0] in vs;
  }

  /** Distinct entries give a deck with no two cards sharing an id. */
  lemma DeckCardIdsDistinct(selected: seq<GameVocabulary>)
    requires DistinctIds(selected)
    ensures forall i, j :: 0 <= i < j < |Deck(selected)| ==> Deck(selected)[i].cardId != Deck(selected)[j].cardId
  {
    var deck := Deck(selected);
    forall i, j | 0 <= i < j < |deck| ensures deck[i].cardId != deck[j].cardId {
      var a, b := i / 2, j / 2;
      assert deck[i] == CardAt(selected, i) && deck[j] == CardAt(selected, j);
      if a == b {
        assert i % 2 == 0 && j % 2 == 1;
      } else {
        assert a < b;
      }
    }
  }

  /**
   * A table dealt from `selected`: well-formed cards, two per entry, whose
   * pairs are exactly the entries' ids.
   */
  ghost predicate DealtFrom(cards: seq<Card>, selected: seq<GameVocabulary>) {
    WellFormed(cards) && PairIds(cards) == IdSet(selected) && |cards| == 2 * |selected|
  }

  /** Any shuffle of the deck is a table dealt from its entries. */
  lemma ShuffleIsDealt(cards: seq<Card>, selected: seq<GameVocabulary>)
    requires multiset(cards) == multiset(Deck(selected))
    ensures DealtFrom(cards, selected)
  {
    DeckPairs(selected);
    ReshuffleKeepsDealt(Deck(selected), cards, selected);
  }

  /** Shuffling a dealt table again keeps it dealt from the same entries. */
  lemma ReshuffleKeepsDealt(cards: seq<Card>, reshuffled: seq<Card>, selected: seq<GameVocabulary>)
    requires DealtFrom(cards, selected)
    requires multiset(reshuffled) == multiset(cards)
    ensures DealtFrom(reshuffled, selected)
  {
    forall c ensures c in reshuffled <==> c in cards {
      assert c in multiset(reshuffled) <==> c in multiset(cards);
    }
    assert |multiset(reshuffled)| == |multiset(cards)|;
    assert PairIds(reshuffled) == PairIds(cards);
  }

  /**
   * On a table dealt from distinct entries, with the matched pairs among the
   * table's pairs, "matched pairs are half the cards" (the completion test)
   * holds exactly when every pair of the table is matched.
   */
  lemma CompletionMeansAllMatched(cards: seq<Card>, selected: seq<GameVocabulary>, matched: set<int>)
    requires DealtFrom(cards, selected)
    requires DistinctIds(selected)
    requires matched <= PairIds(cards)
    ensures 2 * |matched| == |cards| <==> matched == PairIds(cards)
  {
    IdSetSize(selected);
    var all := PairIds(cards);
    assert all == matched + (all - matched);
    assert |all| == |matched| + |all - matched|;
  }

  /** `cards.find` by id: the first card with that id. */
  function FindCard(cards: seq<Card>, id: CardId): (r: Option<Card>)
    ensures r.Some? ==> r.value in cards && r.value.cardId == id
    ensures r.None? ==> id !in CardIds(cards)
  {
    if |cards| == 0 then None
    else if cards[0].cardId == id then Some(cards[0])
    else
      var r := FindCard(cards[1..], id);
      assert CardIds(cards) == {cards[0].cardId} + CardIds(cards[1..]) by {
        assert cards == [cards[0]] + cards[1..];
      }
      r
  }

  /** Two turned cards match: the same entry, one word and one meaning. */
  predicate IsPair(first: CardId, second: CardId) {
    first.pairId == second.pairId && first.side != second.side
  }

  /**
   * On a well-formed table, looking both turned cards up by id finds them,
   * and the looked-up cards match exactly when their ids form a pair.
   */
  lemma FoundCardsMatch(cards: seq<Card>, a: CardId, b: CardId)
    requires WellFormed(cards) && a in CardIds(cards) && b in CardIds(cards)
    ensures FindCard(cards, a).Some? && FindCard(cards, b).Some?
    ensures FindCard(cards, a).value.pairId == a.pairId
    ensures (FindCard(cards, a).value.pairId == FindCard(cards, b).value.pairId
             && FindCard(cards, a).value.side != FindCard(cards, b).value.side) <==> IsPair(a, b)
  {
  }

  /** Adding one element grows a set by one at most. */
  lemma AddOneBound(s: set<int>, x: int)
    ensures |s + {x}| <= |s| + 1
  {
    if x !in s {
      assert |s + {x}| == |s| + 1;
    } else {
      assert s + {x} == s;
    }
  }

  /** The score after a wrong pair: 30 points less, never below zero. */
  function Penalized(score: int): (r: int)
    ensures r >= 0 && r <= Max(score, 0)
    ensures score >= MISS_PENALTY ==> r == score - MISS_PENALTY
    ensures score < MISS_PENALTY ==> r == 0
  {
    Max(0, score - MISS_PENALTY)
  }

  // ---------------------------------------------------------------------------
  // The game
  // ---------------------------------------------------------------------------

  class FlashcardGame {
    ghost var pairs: seq<GameVocabulary>
    var cards: seq<Card>
    var selected: seq<CardId>
    var matched: set<int>
    var moves: nat
    var score: int
    var seconds: nat
    var active: bool
    var completed: bool
    var bestScore: int

    /**
     * The game's invariant: the table holds the cards of the entries played,
     * at most two distinct cards of the table are turned, every matched pair
     * is on the table, each match took a move, the score is never negative
     * and never above 150 per move, and a completed game is not running.
     */
    ghost predicate Valid()
      reads this
    {
      && DealtFrom(cards, pairs)
      && |selected| <= 2
      && (|selected| == 2 ==> selected[0] != selected[1])
      && (forall k :: 0 <= k < |selected| ==> selected[k] in CardIds(cards))
      && matched <= PairIds(cards)
      && |matched| <= moves
      && 0 <= score <= MATCH_POINTS * moves
      && (completed ==> !active)
    }

    /** A click on `card` that the game ignores. */
    predicate Ignores(card: Card)
      reads this
    {
      !active || completed || card.cardId in selected || card.pairId in matched || |selected| >= 2
    }

    /**
     * A new game on the given entries, dealt in the order `shuffled` (a
     * shuffle of the deck), waiting to start; `saved` is the stored best
     * score, if there is a readable one.
     */
    constructor(vocabularies: seq<GameVocabulary>, shuffled: seq<Card>, saved: Option<int>)
      requires multiset(shuffled) == multiset(Deck(ClampPairs(EffectiveVocabularies(vocabularies))))
      ensures Valid()
      ensures pairs == ClampPairs(EffectiveVocabularies(vocabularies)) && cards == shuffled
      ensures selected == [] && matched == {} && moves == 0 && score == 0 && seconds == 0
      ensures !active && !completed
      ensures bestScore == saved.GetOr(0)
    {
      ghost var played := ClampPairs(EffectiveVocabularies(vocabularies));
      ShuffleIsDealt(shuffled, played);
      pairs := played;
      cards := shuffled;
      selected := [];
      matched := {};
      moves := 0;
      score := 0;
      seconds := 0;
      active := false;
      completed := false;
      bestScore := saved.GetOr(0);
    }

    /** `startGame`: the clock and the score start again from zero and the game runs. */
    method StartGame()
      requires Valid()
      modifies this
      ensures Valid()
      ensures active && !completed
      ensures selected == [] && matched == {} && moves == 0 && score == 0 && seconds == 0
      ensures cards == old(cards) && pairs == old(pairs) && bestScore == old(bestScore)
    {
      active := true;
      selected := [];
      matched := {};
      moves := 0;
      score := 0;
      seconds := 0;
      completed := false;
    }

    /** `handleRestart`: the table is dealt again in the order `reshuffled` and waits to start. */
    method Restart(reshuffled: seq<Card>)
      requires Valid()
      requires multiset(reshuffled) == multiset(cards)
      modifies this
      ensures Valid()
      ensures !active && !completed
      ensures cards == reshuffled
      ensures selected == [] && matched == {} && moves == 0 && score == 0 && seconds == 0
      ensures pairs == old(pairs) && bestScore == old(bestScore)
    {
      ReshuffleKeepsDealt(cards, reshuffled, pairs);
      cards := reshuffled;
      selected := [];
      matched := {};
      moves := 0;
      score := 0;
      seconds := 0;
      completed := false;
      active := false;
    }

    /** `handleQuit`: the game stops and its turned and matched cards are cleared. */
    method Quit()
      requires Valid()
      modifies this`active, this`selected, this`matched
      ensures Valid()
      ensures !active && selected == [] && matched == {}
    {
      active := false;
      selected := [];
      matched := {};
    }

    /** One second of the clock: it counts only while the game runs. */
    method Tick()
      modifies this`seconds
      ensures active && !completed ==> seconds == old(seconds) + 1
      ensures !(active && !completed) ==> seconds == old(seconds)
    {
      if active && !completed {
        seconds := seconds + 1;
      }
    }

    /**
     * `handleCardClick`. An ignored click changes nothing. Otherwise the card
     * is turned; when it is the second card, the attempt costs a move, and a
     * word with its own meaning is matched for 150 points while any other
     * pair costs 30 points, never going below zero.
     */
    method HandleCardClick(card: Card)
      requires Valid()
      requires card in cards
      modifies this`selected, this`matched, this`moves, this`score
      ensures Valid()
      ensures old(Ignores(card)) ==>
        selected == old(selected) && matched == old(matched) && moves == old(moves) && score == old(score)
      ensures !old(Ignores(card)) ==> selected == old(selected) + [card.cardId]
      ensures !old(Ignores(card)) && |old(selected)| == 0 ==>
        matched == old(matched) && moves == old(moves) && score == old(score)
      ensures !old(Ignores(card)) && |old(selected)| == 1 ==> moves == old(moves) + 1
      ensures !old(Ignores(card)) && |old(selected)| == 1 && IsPair(old(selected)[0], card.cardId) ==>
        matched == old(matched) + {card.pairId} && score == old(score) + MATCH_POINTS
      ensures !old(Ignores(card)) && |old(selected)| == 1 && !IsPair(old(selected)[0], card.cardId) ==>
        matched == old(matched) && score == Penalized(old(score))
    {
      if !active || completed || card.cardId in selected || card.pairId in matched || |selected| >= 2 {
        return;
      }
      var newSelected := selected + [card.cardId];
      assert card.cardId in CardIds(cards);
      selected := newSelected;
      if |newSelected| == 2 {
        ScoreAttempt(newSelected[0], newSelected[1]);
      }
    }

    /**
     * The second card of an attempt: the move is counted, and the two cards
     * are looked up and either matched for 150 points or penalized.
     */
    method ScoreAttempt(firstId: CardId, secondId: CardId)
      requires Valid()
      requires firstId in CardIds(cards) && secondId in CardIds(cards)
      modifies this`matched, this`moves, this`score
      ensures Valid()
      ensures moves == old(moves) + 1
      ensures IsPair(firstId, secondId) ==> matched == old(matched) + {secondId.pairId} && score == old(score) + MATCH_POINTS
      ensures !IsPair(firstId, secondId) ==> matched == old(matched) && score == Penalized(old(score))
    {
      FoundCardsMatch(cards, firstId, secondId);
      FoundCardsMatch(cards, secondId, firstId);
      var first := FindCard(cards, firstId);
      var second := FindCard(cards, secondId);
      moves := moves + 1;
      if first.Some? && second.Some? && first.value.pairId == second.value.pairId && first.value.side != second.value.side {
        assert first.value.pairId in PairIds(cards);
        AddOneBound(matched, first.value.pairId);
        matched := matched + {first.value.pairId};
        score := score + MATCH_POINTS;
      } else {
        score := Max(0, score - MISS_PENALTY);
      }
    }

    /** The delayed clearing of the turned cards after an attempt. */
    method ClearSelection()
      requires Valid()
      modifies this`selected
      ensures Valid()
      ensures selected == []
    {
      selected := [];
    }

    /** `updateBestScore`: the best score only ever rises, to the latest when it is higher. */
    method UpdateBestScore(latest: int)
      modifies this`bestScore
      ensures bestScore == BestOf(old(bestScore), latest)
    {
      if latest > bestScore {
        bestScore := latest;
      }
    }

    /**
     * The completion check that follows every change of the matched pairs:
     * when they are half the table the game is completed and stops, and a
     * completed game's score is offered as the best score. With distinct
     * entries, the game completes exactly when every pair is matched.
     */
    method CheckCompletion()
      requires Valid()
      modifies this`completed, this`active, this`bestScore
      ensures Valid()
      ensures completed == (old(completed) || (2 * |matched| == |cards| && |cards| > 0))
      ensures completed && !old(completed) ==> !active
      ensures !completed ==> active == old(active)
      ensures completed ==> bestScore == BestOf(old(bestScore), score)
      ensures !completed ==> bestScore == old(bestScore)
      ensures DistinctIds(pairs) && !old(completed) ==>
        (completed <==> matched == PairIds(cards) && |cards| > 0)
    {
      if DistinctIds(pairs) {
        CompletionMeansAllMatched(cards, pairs, matched);
      }
      if 2 * |matched| == |cards| && |cards| > 0 {
        completed := true;
        active := false;
      }
      if completed {
        UpdateBestScore(score);
      }
    }
  }
}
