/**
 * How the recommendations page presents a learner and their lessons: the
 * colour tier of a rating badge, the difficulty label of a lesson relative
 * to the learner, the skill a lesson focuses on, the 1500 shown for a
 * missing rating, and the rating change read back from the text the
 * simulation endpoint returns.
 */
module RecommendedLessonsView {
  import opened Wrappers
  import opened Text

  // ---------------------------------------------------------------------------
  // Badge colour
  // ---------------------------------------------------------------------------

  /** The five badge colours, from the highest tier down. */
  datatype BadgeColor = Purple | Blue | Green | Yellow | Orange

  /** The tier of a colour: 4 for the top tier, 0 for the bottom one. */
  function Tier(c: BadgeColor): (t: nat)
    ensures t <= 4
  {
    match c
    case Purple => 4
    case Blue => 3
    case Green => 2
    case Yellow => 1
    case Orange => 0
  }

  /** `getEloBadgeColor`: thresholds at 1800, 1600, 1400 and 1200. */
  function EloBadgeColor(elo: int): (c: BadgeColor)
    ensures c == Purple <==> elo >= 1800
    ensures c == Orange <==> elo < 1200
    ensures Tier(c) == (if elo >= 1800 then 4 else if elo >= 1600 then 3 else if elo >= 1400 then 2
                        else if elo >= 1200 then 1 else 0)
  {
    if elo >= 1800 then Purple
    else if elo >= 1600 then Blue
    else if elo >= 1400 then Green
    else if elo >= 1200 then Yellow
    else Orange
  }

  /** A higher rating never gets a lower badge tier. */
  lemma BadgeMonotone(a: int, b: int)
    requires a <= b
    ensures Tier(EloBadgeColor(a)) <= Tier(EloBadgeColor(b))
  {
  }

  /** Each tier spans 200 points: adding 200 to a rating in [1200, 1600) moves it up exactly one tier. */
  lemma BadgeStep(elo: int)
    requires 1200 <= elo < 1600
    ensures Tier(EloBadgeColor(elo + 200)) == Tier(EloBadgeColor(elo)) + 1
  {
  }

  /**
   * `value || 1500`: a missing rating is shown and compared as 1500, and so
   * is a rating of 0, which JavaScript treats as false.
   */
  function ShownRating(rating: Option<int>): (r: int)
    ensures rating.Some? && rating.value != 0 ==> r == rating.value
    ensures rating.None? || rating.value == 0 ==> r == 1500
    ensures r != 0
  {
    if rating.None? || rating.value == 0 then 1500 else rating.value
  }

  // ---------------------------------------------------------------------------
  // Difficulty label
  // ---------------------------------------------------------------------------

  datatype DifficultyLabel = Harder | Easier | Suitable

  /** `getDifficultyText`: more than 100 points apart in either direction. */
  function DifficultyText(lessonDifficulty: int, userElo: int): (d: DifficultyLabel)
    ensures d == Harder <==> lessonDifficulty - userElo > 100
    ensures d == Easier <==> lessonDifficulty - userElo < -100
    ensures d == Suitable <==> -100 <= lessonDifficulty - userElo <= 100
  {
    var diff := lessonDifficulty - userElo;
    if diff > 100 then Harder
    else if diff < -100 then Easier
    else Suitable
  }

  /** Swapping the lesson and the learner swaps "harder" and "easier" and keeps "suitable". */
  lemma DifficultyAntisymmetric(a: int, b: int)
    ensures DifficultyText(a, b) == Harder <==> DifficultyText(b, a) == Easier
    ensures DifficultyText(a, b) == Suitable <==> DifficultyText(b, a) == Suitable
  {
  }

  /** Raising the lesson's difficulty never makes it look easier. */
  lemma DifficultyMonotone(a: int, a': int, elo: int)
    requires a <= a'
    ensures DifficultyText(a, elo) == Harder ==> DifficultyText(a', elo) == Harder
    ensures DifficultyText(a', elo) == Easier ==> DifficultyText(a, elo) == Easier
  {
  }

  // ---------------------------------------------------------------------------
  // Focus tag
  // ---------------------------------------------------------------------------

  datatype Focus = GrammarFocus | VocabFocus | ListeningFocus

  /** A weight JavaScript treats as true: present and non-zero. */
  predicate Truthy(w: Option<real>) {
    w.Some? && w.value != 0.0
  }

  /**
   * `getFocusTag`: no tag unless all three weights are present and non-zero;
   * otherwise the largest weight, ties going to grammar, then vocabulary,
   * then listening.
   */
  function FocusTag(grammar: Option<real>, vocab: Option<real>, listening: Option<real>): (f: Option<Focus>)
    ensures f.None? <==> !Truthy(grammar) || !Truthy(vocab) || !Truthy(listening)
    ensures f == Some(GrammarFocus) ==> grammar.value >= vocab.value && grammar.value >= listening.value
    ensures f == Some(VocabFocus) ==> vocab.value > grammar.value && vocab.value >= listening.value
    ensures f == Some(ListeningFocus) ==> listening.value > grammar.value && listening.value > vocab.value
  {
    if !Truthy(grammar) || !Truthy(vocab) || !Truthy(listening) then None
    else
      var g, v, l := grammar.value, vocab.value, listening.value;
      var maxWeight := Max(g, Max(v, l));
      if maxWeight == g then Some(GrammarFocus)
      else if maxWeight == v then Some(VocabFocus)
      else Some(ListeningFocus)
  }

  /** `Math.max` of two weights. */
  function Max(a: real, b: real): (m: real)
    ensures m >= a && m >= b && (m == a || m == b)
  {
    if a >= b then a else b
  }

  /** When all weights are present and non-zero, the tag names a largest weight. */
  lemma FocusTagIsMaximal(g: real, v: real, l: real)
    requires g != 0.0 && v != 0.0 && l != 0.0
    ensures var f := FocusTag(Some(g), Some(v), Some(l));
      && f.Some?
      && (f.value == GrammarFocus <==> g >= v && g >= l)
      && (f.value == VocabFocus <==> v > g && v >= l)
      && (f.value == ListeningFocus <==> l > g && l > v)
  {
  }

  // ---------------------------------------------------------------------------
  // Reading the rating change back
  // ---------------------------------------------------------------------------

  /** The text before the new rating, and the text between it and the change. */
  const ELO_LABEL: string := "Elo Rating: "
  const DELTA_OPEN: string := " (Δ"

  /** The end of the longest run of decimal digits that starts at `i`. */
  function DigitRun(s: string, i: nat): (j: nat)
    requires i <= |s|
    ensures i <= j <= |s|
    ensures forall k :: i <= k < j ==> IsDigit(s[k])
    ensures j == |s| || !IsDigit(s[j])
    decreases |s| - i
  {
    if i < |s| && IsDigit(s[i]) then DigitRun(s, i + 1) else i
  }

  /** `t` starts with `w`. */
  predicate StartsWith(t: string, w: string) {
    |w| <= |t| && t[..|w|] == w
  }

  /**
   * The pattern `Elo Rating: (\d+) \(Δ(-?\d+)\)` matched at the start of
   * `t`: the value of its second group, or none when it does not match
   * there. Both digit groups take every digit they can, as the character
   * after each is not a digit.
   */
  function MatchPrefix(t: string): (r: Option<int>) {
    if !StartsWith(t, ELO_LABEL) then None else AfterLabel(t[|ELO_LABEL|..])
  }

  /** The rest of the pattern after `Elo Rating: `. */
  function AfterLabel(r: string): (d: Option<int>) {
    var j := DigitRun(r, 0);
    if j == 0 || !StartsWith(r[j..], DELTA_OPEN) then None else SignedGroup(r[j + |DELTA_OPEN|..])
  }

  /** The second group `-?\d+` and the closing parenthesis. */
  function SignedGroup(u: string): (d: Option<int>) {
    var negative := |u| > 0 && u[0] == '-';
    var v := if negative then u[1..] else u;
    var e := DigitRun(v, 0);
    if e == 0 || e == |v| || v[e] != ')' then None
    else
      var magnitude: int := DigitsValue(v[..e]);
      Some(if negative then -magnitude else magnitude)
  }

  /** The pattern matched at position `i` of `s`. */
  function MatchAt(s: string, i: nat): (r: Option<int>)
    requires i <= |s|
  {
    MatchPrefix(s[i..])
  }

  /** The first match at or after position `i`, or 0 when there is none. */
  function FirstMatch(s: string, i: nat): (d: int)
    requires i <= |s|
    decreases |s| - i
  {
    match MatchAt(s, i)
    case Some(d) => d
    case None => if i == |s| then 0 else FirstMatch(s, i + 1)
  }

  /** The rating change the page shows: the second group of the first match, else 0. */
  function ParseEloDelta(response: string): (d: int)
    ensures (forall i :: 0 <= i <= |response| ==> MatchAt(response, i).None?) ==> d == 0
  {
    NoMatchGivesZero(response, 0);
    FirstMatch(response, 0)
  }

  lemma {:induction false} NoMatchGivesZero(s: string, i: nat)
    requires i <= |s|
    ensures (forall k :: i <= k <= |s| ==> MatchAt(s, k).None?) ==> FirstMatch(s, i) == 0
    decreases |s| - i
  {
    if i < |s| {
      NoMatchGivesZero(s, i + 1);
    }
  }

  /** The line the simulation endpoint writes after the update: `Elo Rating: %d (Δ%d)`. */
  function RatingLine(newElo: nat, delta: int): (line: string)
    ensures StartsWith(line, ELO_LABEL)
  {
    ELO_LABEL + Digits(newElo) + DELTA_OPEN + FormatInt(delta) + ")"
  }

  /** After the label, a match holds a 'Δ' with no 'E' up to it. */
  lemma AfterLabelShape(r: string)
    ensures AfterLabel(r).Some? ==> exists p :: 0 <= p < |r| && r[p] == 'Δ' && forall q :: 0 <= q <= p ==> r[q] != 'E'
  {
    var j := DigitRun(r, 0);
    if j > 0 && StartsWith(r[j..], DELTA_OPEN) {
      var w := r[j..][..|DELTA_OPEN|];
      assert w == DELTA_OPEN;
      assert r[j] == w[0] && r[j + 1] == w[1] && r[j + 2] == w[2];
      NoLetterE(r, j + 2);
    }
  }

  /** No 'E' among digits, ' ' and '('. */
  lemma NoLetterE(r: string, p: nat)
    requires p < |r|
    requires forall q :: 0 <= q < p - 2 ==> IsDigit(r[q])
    requires p >= 2 && r[p - 2] == ' ' && r[p - 1] == '(' && r[p] == 'Δ'
    ensures forall q :: 0 <= q <= p ==> r[q] != 'E'
  {
  }

  /** A match always holds a 'Δ', with no 'E' after its first character up to it. */
  lemma MatchShape(t: string)
    ensures MatchPrefix(t).Some? ==> exists p :: 0 < p < |t| && t[p] == 'Δ' && forall q :: 0 < q <= p ==> t[q] != 'E'
  {
    var a := |ELO_LABEL|;
    if StartsWith(t, ELO_LABEL) && AfterLabel(t[a..]).Some? {
      var r := t[a..];
      AfterLabelShape(r);
      var p :| 0 <= p < |r| && r[p] == 'Δ' && forall q :: 0 <= q <= p ==> r[q] != 'E';
      LabelThenRest(t, r, p);
    }
  }

  lemma LabelThenRest(t: string, r: string, p: nat)
    requires StartsWith(t, ELO_LABEL) && r == t[|ELO_LABEL|..]
    requires p < |r| && r[p] == 'Δ' && forall q :: 0 <= q <= p ==> r[q] != 'E'
    ensures forall q :: 0 < q <= |ELO_LABEL| + p ==> t[q] != 'E'
    ensures t[|ELO_LABEL| + p] == 'Δ'
  {
    var a := |ELO_LABEL|;
    forall q | 0 < q <= a + p ensures t[q] != 'E' {
      if q < a {
        assert t[q] == t[..a][q] == ELO_LABEL[q];
      } else {
        assert t[q] == r[q - a];
      }
    }
  }

  /** No match can start inside a prefix free of 'Δ' that is followed by an 'E'. */
  lemma NoEarlyMatch(pre: string, rest: string, p: nat)
    requires 'Δ' !in pre && |rest| > 0 && rest[0] == 'E' && p < |pre|
    ensures MatchPrefix((pre + rest)[p..]).None?
  {
    var t := (pre + rest)[p..];
    assert forall q :: 0 <= q < |pre| - p ==> t[q] == pre[p + q];
    assert t[|pre| - p] == 'E';
    MatchShape(t);
  }

  /** A run of digits followed by a non-digit is what `DigitRun` finds. */
  lemma {:induction false} DigitRunOf(s: string, i: nat, j: nat)
    requires i <= j <= |s|
    requires forall k :: i <= k < j ==> IsDigit(s[k])
    requires j == |s| || !IsDigit(s[j])
    ensures DigitRun(s, i) == j
    decreases j - i
  {
    if i < j {
      DigitRunOf(s, i + 1, j);
    }
  }

  /** Positions before `k` that do not match are skipped. */
  lemma {:induction false} FirstMatchSkips(s: string, i: nat, k: nat)
    requires i <= k <= |s|
    requires forall p :: i <= p < k ==> MatchAt(s, p).None?
    ensures FirstMatch(s, i) == FirstMatch(s, k)
    decreases k - i
  {
    if i < k {
      FirstMatchSkips(s, i + 1, k);
    }
  }

  /** A number's digits followed by `)` are read back as that number. */
  lemma UnsignedGroupOf(mag: nat, post: string)
    ensures var v := Digits(mag) + ")" + post;
      var e := |Digits(mag)|;
      && DigitRun(v, 0) == e && e < |v| && v[e] == ')' && DigitsValue(v[..e]) == mag
  {
    var v := Digits(mag) + ")" + post;
    var e := |Digits(mag)|;
    assert v[e] == ')';
    DigitRunOf(v, 0, e);
    assert v[..e] == Digits(mag);
    DigitsRoundTrip(mag);
  }

  /** The change after `(Δ`, then `)`, is read back. */
  lemma SignedGroupOf(delta: int, post: string)
    ensures SignedGroup(FormatInt(delta) + ")" + post) == Some(delta)
  {
    if delta < 0 {
      NegativeGroupOf(-delta, post);
    } else {
      NonNegativeGroupOf(delta, post);
    }
  }

  lemma NegativeGroupOf(mag: nat, post: string)
    requires mag > 0
    ensures SignedGroup("-" + Digits(mag) + ")" + post) == Some(-(mag as int))
  {
    var v := Digits(mag) + ")" + post;
    var u := "-" + Digits(mag) + ")" + post;
    assert u == "-" + v;
    assert u[0] == '-' && u[1..] == v;
    UnsignedGroupOf(mag, post);
  }

  lemma NonNegativeGroupOf(mag: nat, post: string)
    ensures SignedGroup(Digits(mag) + ")" + post) == Some(mag)
  {
    var v := Digits(mag) + ")" + post;
    assert v[0] == Digits(mag)[0];
    UnsignedGroupOf(mag, post);
  }

  /** After the label, the pattern reads on from the rest of the text. */
  lemma LabelThenAfter(r: string)
    ensures MatchPrefix(ELO_LABEL + r) == AfterLabel(r)
  {
    var t := ELO_LABEL + r;
    assert t[..|ELO_LABEL|] == ELO_LABEL;
    assert t[|ELO_LABEL|..] == r;
  }

  /** After the new rating's digits and ` (Δ`, the pattern reads the change group. */
  lemma AfterLabelOf(newElo: nat, u: string)
    ensures AfterLabel(Digits(newElo) + DELTA_OPEN + u) == SignedGroup(u)
  {
    var r := Digits(newElo) + DELTA_OPEN + u;
    var j := |Digits(newElo)|;
    assert r[j] == ' ';
    DigitRunOf(r, 0, j);
    assert r[j..] == DELTA_OPEN + u;
    assert r[j..][..|DELTA_OPEN|] == DELTA_OPEN;
    assert r[j + |DELTA_OPEN|..] == u;
  }

  /** The rating line and what follows it, grouped as the pattern reads them. */
  lemma RatingLineParts(newElo: nat, delta: int, post: string)
    ensures RatingLine(newElo, delta) + post == ELO_LABEL + (Digits(newElo) + DELTA_OPEN + (FormatInt(delta) + ")" + post))
  {
    var a, b, c := ELO_LABEL, Digits(newElo), DELTA_OPEN;
    var d := FormatInt(delta);
    assert a + b + c + d + ")" + post == a + (b + c + (d + ")" + post));
  }

  /** The rating line matches where it starts, and its second group is the change. */
  lemma RatingLineMatches(newElo: nat, delta: int, post: string)
    ensures MatchPrefix(RatingLine(newElo, delta) + post) == Some(delta)
  {
    var u := FormatInt(delta) + ")" + post;
    var r := Digits(newElo) + DELTA_OPEN + u;
    RatingLineParts(newElo, delta, post);
    LabelThenAfter(r);
    AfterLabelOf(newElo, u);
    SignedGroupOf(delta, post);
  }

  /**
   * Reading back what the simulation endpoint wrote: when the text before
   * the rating line has no 'Δ' (as its "before" section has none), the page
   * reads exactly the change the server computed.
   */
  lemma ParseRatingLine(pre: string, newElo: nat, delta: int, post: string)
    requires 'Δ' !in pre
    ensures ParseEloDelta(pre + RatingLine(newElo, delta) + post) == delta
  {
    var rest := RatingLine(newElo, delta) + post;
    var s := pre + rest;
    assert pre + RatingLine(newElo, delta) + post == s;
    assert rest[0] == 'E';
    forall p | 0 <= p < |pre| ensures MatchAt(s, p).None? {
      NoEarlyMatch(pre, rest, p);
    }
    FirstMatchSkips(s, 0, |pre|);
    assert s[|pre|..] == rest;
    RatingLineMatches(newElo, delta, post);
  }
}
