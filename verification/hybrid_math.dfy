/**
 * The numeric primitives of the hybrid recommender: Elo expected score and
 * rating update, cosine similarity and vector normalisation.
 *
 * Doubles are modelled by `real`. The two transcendental operations the code
 * calls, `Math.pow(10, x)` and `Math.sqrt`, are not computable over `real`;
 * they are supplied as a `MathLib` value whose laws are stated by `Lawful`.
 * Every guarantee below follows from those laws and from the structure of the
 * code (guards, clamps, floors), never from exact floating-point values.
 */
module HybridMath {
  import opened Wrappers

  // ---------------------------------------------------------------------------
  // Java int arithmetic
  // ---------------------------------------------------------------------------

  const INT_MIN: int := -0x8000_0000
  const INT_MAX: int := 0x7fff_ffff

  /** A Java `int`. */
  type Int32 = x: int | INT_MIN <= x <= INT_MAX

  /** Two's-complement wrap-around of a mathematical integer into a Java `int`. */
  function Wrap32(x: int): (r: Int32)
    ensures INT_MIN <= x <= INT_MAX ==> r == x
    ensures (x - r) % 0x1_0000_0000 == 0
  {
    (x - INT_MIN) % 0x1_0000_0000 + INT_MIN
  }

  /** `Math.round(double)`: the nearest integer, halves rounded up. */
  function Round(x: real): (r: int)
    ensures x - 0.5 < r as real <= x + 0.5
  {
    (x + 0.5).Floor
  }

  /** `Math.max(lo, Math.min(hi, x))`. */
  function Clamp(x: real, lo: real, hi: real): (r: real)
    requires lo <= hi
    ensures lo <= r <= hi
    ensures lo <= x <= hi ==> r == x
    ensures x > hi ==> r == hi
    ensures x < lo ==> r == lo
  {
    if hi < x then hi else if x < lo then lo else x
  }

  // ---------------------------------------------------------------------------
  // The transcendental library
  // ---------------------------------------------------------------------------

  /** `Math.pow(10, x)` and `Math.sqrt(x)`. */
  datatype MathLib = MathLib(pow10: real -> real, sqrt: real -> real)

  /** The laws every property below relies on. */
  ghost predicate Lawful(lib: MathLib) {
    && (forall x :: lib.pow10(x) > 0.0)
    && (forall x, y :: x + y == 0.0 ==> lib.pow10(x) * lib.pow10(y) == 1.0)
    && (forall x :: x >= 0.0 ==> lib.sqrt(x) >= 0.0)
    && (forall x :: x >= 0.0 ==> (lib.sqrt(x) == 0.0 <==> x == 0.0))
  }

  // ---------------------------------------------------------------------------
  // Elo rating
  // ---------------------------------------------------------------------------

  /** The K-factor of the rating update. */
  const K_FACTOR: int := 32

  /**
   * `calculateExpectedScore`: 1 / (1 + 10^((opponent - current) / 400)), the
   * subtraction done in Java `int` arithmetic before widening.
   */
  function ExpectedScore(lib: MathLib, current: Int32, opponent: Int32): (e: real)
    requires Lawful(lib)
    ensures 0.0 < e < 1.0
  {
    var ratingDiff := Wrap32(opponent - current);
    var denominator := 1.0 + lib.pow10(ratingDiff as real / 400.0);
    1.0 / denominator
  }

  /** `calculateNewElo`: round(current + K * (actual - expected)), cast to int, floored at 0. */
  function NewElo(lib: MathLib, current: Int32, opponent: Int32, actualScore: real): (r: Int32)
    requires Lawful(lib)
    ensures r >= 0
  {
    var expected := ExpectedScore(lib, current, opponent);
    var newRating := current as real + K_FACTOR as real * (actualScore - expected);
    var rounded := Wrap32(Round(newRating));
    if rounded < 0 then 0 else rounded
  }

  /** The two expected scores of one match sum to 1, when the rating gap fits an `int`. */
  lemma ExpectedScoresComplement(lib: MathLib, a: Int32, b: Int32)
    requires Lawful(lib)
    requires INT_MIN <= b - a <= INT_MAX && INT_MIN <= a - b <= INT_MAX
    ensures ExpectedScore(lib, a, b) + ExpectedScore(lib, b, a) == 1.0
  {
    var x := (b - a) as real / 400.0;
    assert (a - b) as real / 400.0 == -x;
    var q, p := lib.pow10(x), lib.pow10(-x);
    assert p * q == 1.0 && q > 0.0 && p > 0.0;
    assert ExpectedScore(lib, a, b) == 1.0 / (1.0 + q);
    assert ExpectedScore(lib, b, a) == 1.0 / (1.0 + p);
    SumOfReciprocals(p, q);
  }

  lemma SumOfReciprocals(p: real, q: real)
    requires p > 0.0 && q > 0.0 && p * q == 1.0
    ensures 1.0 / (1.0 + q) + 1.0 / (1.0 + p) == 1.0
  {
    assert (1.0 + q) * (1.0 + p) == 2.0 + p + q;
    assert 1.0 / (1.0 + q) == (1.0 + p) / ((1.0 + q) * (1.0 + p));
    assert 1.0 / (1.0 + p) == (1.0 + q) / ((1.0 + q) * (1.0 + p));
  }

  /** Equal ratings give an expected score of exactly one half. */
  lemma ExpectedScoreEven(lib: MathLib, a: Int32)
    requires Lawful(lib)
    ensures ExpectedScore(lib, a, a) == 0.5
  {
    var one := lib.pow10(0.0);
    assert -0.0 == 0.0;
    assert one * one == 1.0 && one > 0.0;
    if one != 1.0 {
      assert false;
    }
  }

  /**
   * A win never lowers the rating and raises it by at most K; a loss never
   * raises a non-negative rating and lowers it by at most K (before the floor at 0).
   */
  lemma NewEloDirection(lib: MathLib, current: Int32, opponent: Int32)
    requires Lawful(lib)
    requires current + K_FACTOR <= INT_MAX && current - K_FACTOR >= INT_MIN
    ensures current <= NewElo(lib, current, opponent, 1.0)
    ensures NewElo(lib, current, opponent, 1.0) <= if current + K_FACTOR < 0 then 0 else current + K_FACTOR
    ensures current >= 0 ==> NewElo(lib, current, opponent, 0.0) <= current
    ensures current - K_FACTOR <= NewElo(lib, current, opponent, 0.0)
  {
    var e := ExpectedScore(lib, current, opponent);
    var win := current as real + 32.0 * (1.0 - e);
    var loss := current as real + 32.0 * (0.0 - e);
    assert current as real < win < current as real + 32.0;
    assert current as real - 32.0 < loss < current as real;
    assert current <= Round(win) <= current + 32;
    assert current - 32 <= Round(loss) <= current;
  }

  /** Between equal ratings a win is worth exactly +16 and a loss -16, floored at 0. */
  lemma NewEloEvenMatch(lib: MathLib, current: Int32)
    requires Lawful(lib)
    requires current + 16 <= INT_MAX && current - 16 >= INT_MIN
    ensures NewElo(lib, current, current, 1.0) == if current + 16 < 0 then 0 else current + 16
    ensures NewElo(lib, current, current, 0.0) == if current - 16 < 0 then 0 else current - 16
  {
    ExpectedScoreEven(lib, current);
    assert Round(current as real + 16.0) == current + 16;
    assert Round(current as real - 16.0) == current - 16;
  }

  // ---------------------------------------------------------------------------
  // Vectors
  // ---------------------------------------------------------------------------

  /** The dot product, accumulated front to back as the Java loop does. */
  function Dot(u: seq<real>, v: seq<real>): real
    requires |u| == |v|
  {
    if |u| == 0 then 0.0 else Dot(u[..|u| - 1], v[..|v| - 1]) + u[|u| - 1] * v[|v| - 1]
  }

  /** `x * x`, kept as a named term so that the facts below are stated about it once. */
  function Sq(x: real): real {
    x * x
  }

  /** The sum of squares, i.e. the squared Euclidean norm before `Math.sqrt`. */
  function SumSq(u: seq<real>): (s: real)
    ensures s >= 0.0
  {
    if |u| == 0 then 0.0
    else
      SqNonNegative(u[|u| - 1]);
      SumSq(u[..|u| - 1]) + Sq(u[|u| - 1])
  }

  lemma {:induction false} DotSymmetric(u: seq<real>, v: seq<real>)
    requires |u| == |v|
    ensures Dot(u, v) == Dot(v, u)
  {
    if |u| > 0 {
      DotSymmetric(u[..|u| - 1], v[..|v| - 1]);
    }
  }

  lemma {:induction false} DotSelf(u: seq<real>)
    ensures Dot(u, u) == SumSq(u)
  {
    if |u| > 0 {
      DotSelf(u[..|u| - 1]);
    }
  }

  lemma MulPositive(a: real, b: real)
    requires a > 0.0 && b > 0.0
    ensures a * b > 0.0
  {
  }

  lemma MulNegative(a: real, b: real)
    requires a < 0.0 && b < 0.0
    ensures a * b > 0.0
  {
  }

  lemma SqSign(a: real, b: real)
    requires a != 0.0
    ensures Sq(a) > 0.0 || a != b
  {
    if a == b {
      if a > 0.0 {
        MulPositive(a, b);
      } else {
        MulNegative(a, b);
      }
      assert Sq(a) == a * b;
    }
  }

  /** A square is never negative, and is 0 only for 0. */
  lemma SqNonNegative(x: real)
    ensures Sq(x) >= 0.0
    ensures Sq(x) == 0.0 <==> x == 0.0
  {
    if x != 0.0 {
      SqSign(x, x);
    }
  }

  lemma SqScale(a: real, n: real, b: real)
    requires a * n == b
    ensures Sq(a) * Sq(n) == Sq(b)
  {
  }

  lemma Distribute(x: real, y: real, c: real)
    ensures (x + y) * c == x * c + y * c
  {
  }

  lemma MulCancel(t: real, q: real, s: real)
    requires t * q == s && q == s && s != 0.0
    ensures t == 1.0
  {
    assert (t - 1.0) * s == 0.0;
  }

  lemma DivSelf(a: real, b: real)
    requires a == b && b != 0.0
    ensures a / b == 1.0
  {
  }

  lemma CosineOfSelf(d: real, a: real, b: real)
    requires a == b && a != 0.0 && Sq(a) == d
    ensures CosineOf(d, a, b) == 1.0
  {
    DivSelf(d, a * b);
  }

  /** The squared norm is 0 exactly for the zero vector. */
  lemma {:induction false} SumSqZero(u: seq<real>)
    ensures SumSq(u) == 0.0 <==> forall i :: 0 <= i < |u| ==> u[i] == 0.0
  {
    if |u| > 0 {
      var init := u[..|u| - 1];
      SumSqZero(init);
      var last := u[|u| - 1];
      SqNonNegative(last);
      if SumSq(u) == 0.0 {
        assert SumSq(init) == 0.0 && Sq(last) == 0.0;
        forall i | 0 <= i < |u| ensures u[i] == 0.0 {
          if i < |u| - 1 { assert u[i] == init[i]; }
        }
      }
      if forall i :: 0 <= i < |u| ==> u[i] == 0.0 {
        assert forall i :: 0 <= i < |init| ==> init[i] == u[i];
      }
    }
  }

  datatype VectorError = LengthMismatch(lengthA: nat, lengthB: nat)

  /**
   * `calculateCosineSimilarity` as a value: a length-mismatch failure, exactly
   * 0 when either norm is 0, otherwise the quotient clamped to [-1, 1].
   */
  function Cosine(lib: MathLib, u: seq<real>, v: seq<real>): (r: Result<real, VectorError>)
    ensures r.Failure? <==> |u| != |v|
    ensures r.Failure? ==> r.error == LengthMismatch(|u|, |v|)
    ensures r.Success? ==> -1.0 <= r.value <= 1.0
  {
    if |u| != |v| then Failure(LengthMismatch(|u|, |v|))
    else Success(CosineOf(Dot(u, v), lib.sqrt(SumSq(u)), lib.sqrt(SumSq(v))))
  }

  /** The guard and the clamp applied to a dot product and two norms. */
  function CosineOf(dot: real, normA: real, normB: real): (c: real)
    ensures -1.0 <= c <= 1.0
    ensures normA == 0.0 || normB == 0.0 ==> c == 0.0
  {
    if normA == 0.0 || normB == 0.0 then 0.0
    else Clamp(dot / (normA * normB), -1.0, 1.0)
  }

  /** Either vector being all zeros yields exactly 0, the division never taken. */
  lemma CosineZeroVector(lib: MathLib, u: seq<real>, v: seq<real>)
    requires Lawful(lib)
    requires |u| == |v|
    requires (forall i :: 0 <= i < |u| ==> u[i] == 0.0) || (forall i :: 0 <= i < |v| ==> v[i] == 0.0)
    ensures Cosine(lib, u, v) == Success(0.0)
  {
    SumSqZero(u);
    SumSqZero(v);
  }

  /** A non-zero result needs both vectors to be non-zero somewhere. */
  lemma CosineNonZeroNeedsNonZeroVectors(lib: MathLib, u: seq<real>, v: seq<real>)
    requires Lawful(lib)
    requires Cosine(lib, u, v).Success? && Cosine(lib, u, v).value != 0.0
    ensures exists i :: 0 <= i < |u| && u[i] != 0.0
    ensures exists j :: 0 <= j < |v| && v[j] != 0.0
  {
    SumSqZero(u);
    SumSqZero(v);
  }

  /** Swapping the arguments gives the same result. */
  lemma CosineSymmetric(lib: MathLib, u: seq<real>, v: seq<real>)
    requires |u| == |v|
    ensures Cosine(lib, u, v) == Cosine(lib, v, u)
  {
    DotSymmetric(u, v);
    var normA, normB := lib.sqrt(SumSq(u)), lib.sqrt(SumSq(v));
    assert normA * normB == normB * normA;
  }

  /** A non-zero vector is at cosine 1 from itself wherever `sqrt` is exact on its squared norm. */
  lemma CosineSelf(lib: MathLib, u: seq<real>)
    requires Lawful(lib)
    requires exists i :: 0 <= i < |u| && u[i] != 0.0
    requires Sq(lib.sqrt(SumSq(u))) == SumSq(u)
    ensures Cosine(lib, u, u) == Success(1.0)
  {
    SumSqZero(u);
    DotSelf(u);
    var s := SumSq(u);
    var n := lib.sqrt(s);
    assert n != 0.0;
    CosineOfSelf(Dot(u, u), n, n);
  }

  /** The first loop of `calculateCosineSimilarity`: Σ a[i] * b[i]. */
  method DotProduct(a: array<real>, b: array<real>) returns (dot: real)
    requires a.Length == b.Length
    ensures dot == Dot(a[..], b[..])
  {
    dot := 0.0;
    for i := 0 to a.Length
      invariant dot == Dot(a[..i], b[..i])
    {
      assert a[..i + 1][..i] == a[..i] && b[..i + 1][..i] == b[..i];
      dot := dot + a[i] * b[i];
    }
    assert a[..a.Length] == a[..] && b[..b.Length] == b[..];
  }

  /** The norm loops of `calculateCosineSimilarity` and `normalizeVector`, before `Math.sqrt`. */
  method SumOfSquares(a: array<real>) returns (sum: real)
    ensures sum == SumSq(a[..])
  {
    sum := 0.0;
    for i := 0 to a.Length
      invariant sum == SumSq(a[..i])
    {
      assert a[..i + 1][..i] == a[..i];
      sum := sum + a[i] * a[i];
    }
    assert a[..a.Length] == a[..];
  }

  /** `calculateCosineSimilarity`: three accumulation loops, then the guard and the clamp. */
  method CosineSimilarity(lib: MathLib, vectorA: array<real>, vectorB: array<real>)
    returns (r: Result<real, VectorError>)
    ensures r == Cosine(lib, vectorA[..], vectorB[..])
  {
    if vectorA.Length != vectorB.Length {
      return Failure(LengthMismatch(vectorA.Length, vectorB.Length));
    }
    var dotProduct := DotProduct(vectorA, vectorB);
    var normA := SumOfSquares(vectorA);
    normA := lib.sqrt(normA);
    var normB := SumOfSquares(vectorB);
    normB := lib.sqrt(normB);
    r := Success(CosineOf(dotProduct, normA, normB));
  }

  /** `normalizeVector` as a value: each component divided by the norm, or all zeros. */
  function Normalized(lib: MathLib, u: seq<real>): (r: seq<real>)
    ensures |r| == |u|
  {
    var norm := lib.sqrt(SumSq(u));
    if norm == 0.0 then seq(|u|, _ => 0.0)
    else Scaled(u, norm)
  }

  /** Every component of `u` divided by `n`. */
  function Scaled(u: seq<real>, n: real): (w: seq<real>)
    requires n != 0.0
    ensures |w| == |u|
    ensures forall i :: 0 <= i < |u| ==> w[i] * n == u[i]
  {
    seq(|u|, i requires 0 <= i < |u| => u[i] / n)
  }

  lemma {:induction false} SumSqScaled(u: seq<real>, n: real)
    requires n != 0.0
    ensures SumSq(Scaled(u, n)) * Sq(n) == SumSq(u)
  {
    var w := Scaled(u, n);
    if |u| > 0 {
      var init := u[..|u| - 1];
      SumSqScaled(init, n);
      assert w[..|w| - 1] == Scaled(init, n);
      var a, b := w[|w| - 1], u[|u| - 1];
      SqScale(a, n, b);
      Distribute(SumSq(w[..|w| - 1]), Sq(a), Sq(n));
    }
  }

  /** The zero vector normalises to zeros. */
  lemma NormalizedZeroVector(lib: MathLib, u: seq<real>)
    ensures (forall i :: 0 <= i < |u| ==> u[i] == 0.0) ==> forall i :: 0 <= i < |u| ==> Normalized(lib, u)[i] == 0.0
  {
    var n := lib.sqrt(SumSq(u));
    if n != 0.0 {
      var w := Scaled(u, n);
      assert forall i :: 0 <= i < |u| ==> w[i] * n == u[i];
    }
  }

  /** Any other vector has unit squared length where `sqrt` is exact. */
  lemma NormalizedLength(lib: MathLib, u: seq<real>)
    requires Lawful(lib)
    ensures Sq(lib.sqrt(SumSq(u))) == SumSq(u) && (exists i :: 0 <= i < |u| && u[i] != 0.0)
            ==> SumSq(Normalized(lib, u)) == 1.0
  {
    var s := SumSq(u);
    var n := lib.sqrt(s);
    if Sq(n) == s && exists i :: 0 <= i < |u| && u[i] != 0.0 {
      SumSqZero(u);
      assert s != 0.0;
      assert n != 0.0;
      SumSqScaled(u, n);
      assert Normalized(lib, u) == Scaled(u, n);
      MulCancel(SumSq(Normalized(lib, u)), Sq(n), s);
    }
  }

  /** `normalizeVector`: a fresh array of the input's length; the input is only read. */
  method NormalizeVector(lib: MathLib, vector: array<real>) returns (normalized: array<real>)
    ensures fresh(normalized)
    ensures normalized.Length == vector.Length
    ensures normalized[..] == Normalized(lib, vector[..])
  {
    var norm := SumOfSquares(vector);
    norm := lib.sqrt(norm);
    normalized := new real[vector.Length](_ => 0.0);
    if norm == 0.0 {
      return;
    }
    for i := 0 to vector.Length
      invariant forall j :: 0 <= j < i ==> normalized[j] == vector[j] / norm
    {
      normalized[i] := vector[i] / norm;
    }
    assert normalized[..] == Scaled(vector[..], norm);
  }
}
