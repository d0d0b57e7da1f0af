/**
 * What the two vocabulary games share: the vocabulary entry as they read
 * it, and the rule that keeps each game's best score.
 */
module GameCommon {
  /** A vocabulary entry: its id, the English word and its Vietnamese meaning. */
  datatype GameVocabulary = GameVocabulary(id: int, wordEnglish: string, vietnameseMeaning: string)

  ghost predicate DistinctIds(vs: seq<GameVocabulary>) {
    forall i, j :: 0 <= i < j < |vs| ==> vs[i].id != vs[j].id
  }

  function Min(a: int, b: int): int { if a <= b then a else b }

  function Max(a: int, b: int): int { if a >= b then a else b }

  /**
   * `updateBestScore`: the stored best score is replaced only by a higher
   * one, so it never falls and is at least the latest score.
   */
  function BestOf(best: int, latest: int): (r: int)
    ensures r >= best && r >= latest
    ensures r == best || r == latest
  {
    if latest > best then latest else best
  }
}
