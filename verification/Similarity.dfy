/** Cosine similarity of embeddings over the reals, and the top-k search built on it. */
module Similarity {
  import Sorting

  type Vector = seq<real>

  function Dot(a: Vector, b: Vector): real
    requires |a| == |b|
  {
    if a == [] then 0.0 else Dot(a[..|a| - 1], b[..|b| - 1]) + Times(a[|a| - 1], b[|b| - 1])
  }

  function Times(x: real, y: real): real {
    x * y
  }

  function Square(x: real): real {
    Times(x, x)
  }

  /** r is the non-negative square root of x. */
  predicate IsRoot(r: real, x: real) {
    0.0 <= r && Square(r) == x
  }

  ghost predicate IsSquareRoot(sqrt: real -> real) {
    forall x :: 0.0 <= x ==> IsRoot(sqrt(x), x)
  }

  function Cosine(sqrt: real -> real, a: Vector, b: Vector): real {
    if |a| != |b| || a == [] then 0.0
    else
      var normA, normB := sqrt(Dot(a, a)), sqrt(Dot(b, b));
      if normA == 0.0 || normB == 0.0 then 0.0
      else
        var norms := normA * normB;
        assert norms != 0.0;
        Dot(a, b) / norms
  }

  // --- Cauchy-Schwarz ---

  /** The squared length of t * a - b. */
  function Residual(t: real, a: Vector, b: Vector): real
    requires |a| == |b|
  {
    if a == [] then 0.0
    else Residual(t, a[..|a| - 1], b[..|b| - 1]) + Square(t * a[|a| - 1] - b[|b| - 1])
  }

  function Quadratic(t: real, aa: real, ab: real, bb: real): real {
    t * t * aa - 2.0 * t * ab + bb
  }

  lemma {:induction false} ResidualIsQuadratic(t: real, a: Vector, b: Vector)
    requires |a| == |b|
    ensures Residual(t, a, b) == Quadratic(t, Dot(a, a), Dot(a, b), Dot(b, b))
    ensures 0.0 <= Residual(t, a, b)
  {
    if a == [] {
      assert Quadratic(t, 0.0, 0.0, 0.0) == 0.0;
    } else {
      var a', b', x, y := a[..|a| - 1], b[..|b| - 1], a[|a| - 1], b[|b| - 1];
      ResidualIsQuadratic(t, a', b');
      OneMoreTerm(t, Dot(a', a'), Dot(a', b'), Dot(b', b'), x, y, Dot(a, a), Dot(a, b), Dot(b, b));
      SquareIsNonNegative(t * x - y);
    }
  }

  lemma OneMoreTerm(
    t: real, aa: real, ab: real, bb: real, x: real, y: real, aa': real, ab': real, bb': real)
    requires aa' == aa + Times(x, x) && ab' == ab + Times(x, y) && bb' == bb + Times(y, y)
    ensures Quadratic(t, aa', ab', bb') == Quadratic(t, aa, ab, bb) + Square(t * x - y)
  {
    var tt, s := t * t, 2.0 * t;
    assert tt * (aa + x * x) == tt * aa + tt * (x * x);
    assert s * (ab + x * y) == s * ab + s * (x * y);
    SquareOfDifference(t, x, y);
  }

  lemma SquareOfDifference(t: real, x: real, y: real)
    ensures Square(t * x - y) == t * t * (x * x) - 2.0 * t * (x * y) + y * y
  {
    var p := t * x;
    assert (p - y) * (p - y) == p * p - 2.0 * (p * y) + y * y;
    assert p * p == t * t * (x * x);
    assert p * y == t * (x * y);
  }

  lemma SquareIsNonNegative(x: real)
    ensures 0.0 <= Square(x)
    ensures x != 0.0 ==> 0.0 < Square(x)
  {
    if x != 0.0 {
      SameSigns(x, x);
    }
  }

  lemma SameSigns(x: real, y: real)
    requires (0.0 < x && 0.0 < y) || (x < 0.0 && y < 0.0)
    ensures 0.0 < Times(x, y)
  {
  }

  lemma {:induction false} DotIsNonNegative(a: Vector)
    ensures 0.0 <= Dot(a, a)
  {
    if a != [] {
      DotIsNonNegative(a[..|a| - 1]);
      SquareIsNonNegative(a[|a| - 1]);
    }
  }

  /** If the quadratic t*t*aa - 2*t*ab + bb is never negative, its discriminant is not positive. */
  lemma Discriminant(aa: real, ab: real, bb: real)
    requires 0.0 < aa
    requires 0.0 <= Quadratic(ab / aa, aa, ab, bb)
    ensures Square(ab) <= aa * bb
  {
    var t := ab / aa;
    assert t * aa == ab;
    assert t * t * aa == t * (t * aa) == t * ab;
    assert 0.0 <= bb - t * ab;
    assert 0.0 <= aa * (bb - t * ab);
    assert aa * (bb - t * ab) == aa * bb - (t * aa) * ab;
  }

  lemma {:induction false} NothingAlongZero(a: Vector, b: Vector)
    requires |a| == |b| && Dot(a, a) == 0.0
    ensures Dot(a, b) == 0.0
  {
    if a != [] {
      var init, x := a[..|a| - 1], a[|a| - 1];
      DotIsNonNegative(init);
      SquareIsNonNegative(x);
      assert x == 0.0;
      NothingAlongZero(init, b[..|b| - 1]);
    }
  }

  lemma CauchySchwarz(a: Vector, b: Vector)
    requires |a| == |b|
    ensures Square(Dot(a, b)) <= Dot(a, a) * Dot(b, b)
  {
    DotIsNonNegative(a);
    if Dot(a, a) == 0.0 {
      NothingAlongZero(a, b);
    } else {
      ResidualIsQuadratic(Dot(a, b) / Dot(a, a), a, b);
      Discriminant(Dot(a, a), Dot(a, b), Dot(b, b));
    }
  }

  lemma SquareBound(d: real, n: real)
    requires 0.0 < n && Square(d) <= Square(n)
    ensures -1.0 <= d / n <= 1.0
  {
    LargerSquare(d, n);
    LargerSquare(-d, n);
    assert Square(-d) == Square(d);
    QuotientBound(d, n);
  }

  lemma LargerSquare(d: real, n: real)
    ensures 0.0 < n < d ==> Square(d) > Square(n)
  {
    if 0.0 < n < d {
      assert d * d > d * n;
      assert d * n > n * n;
    }
  }

  lemma QuotientBound(d: real, n: real)
    requires 0.0 < n && -n <= d <= n
    ensures -1.0 <= d / n <= 1.0
  {
  }

  lemma RootIsPositive(r: real, x: real)
    requires IsRoot(r, x) && r != 0.0
    ensures 0.0 < r && 0.0 < x
  {
    SquareIsNonNegative(r);
  }

  lemma ProductOfSquares(p: real, q: real)
    ensures Square(p * q) == Square(p) * Square(q)
  {
    assert (p * q) * (p * q) == p * (q * p) * q;
  }

  lemma ScoreIsBounded(a: Vector, b: Vector, normA: real, normB: real)
    requires |a| == |b|
    requires IsRoot(normA, Dot(a, a)) && normA != 0.0 && IsRoot(normB, Dot(b, b)) && normB != 0.0
    ensures 0.0 < normA * normB
    ensures -1.0 <= Dot(a, b) / (normA * normB) <= 1.0
  {
    RootIsPositive(normA, Dot(a, a));
    RootIsPositive(normB, Dot(b, b));
    CauchySchwarz(a, b);
    ProductOfSquares(normA, normB);
    SquareBound(Dot(a, b), normA * normB);
  }

  /** For all vectors, of any and even different lengths, the score lies in [-1, 1]. */
  lemma CosineIsBounded(sqrt: real -> real, a: Vector, b: Vector)
    requires IsSquareRoot(sqrt)
    ensures -1.0 <= Cosine(sqrt, a, b) <= 1.0
  {
    if |a| == |b| && a != [] {
      DotIsNonNegative(a);
      DotIsNonNegative(b);
      var normA, normB := sqrt(Dot(a, a)), sqrt(Dot(b, b));
      if normA != 0.0 && normB != 0.0 {
        ScoreIsBounded(a, b, normA, normB);
        assert Cosine(sqrt, a, b) == Dot(a, b) / (normA * normB);
      }
    }
  }

  lemma QuotientOfEquals(x: real)
    requires x != 0.0
    ensures x / x == 1.0
  {
  }

  /** A vector of non-zero norm is as similar to itself as anything can be. */
  lemma SelfSimilarityIsOne(sqrt: real -> real, a: Vector)
    requires IsSquareRoot(sqrt) && a != [] && sqrt(Dot(a, a)) != 0.0
    ensures Cosine(sqrt, a, a) == 1.0
  {
    DotIsNonNegative(a);
    RootIsPositive(sqrt(Dot(a, a)), Dot(a, a));
    QuotientOfEquals(Dot(a, a));
  }

  lemma {:induction false} DotIsSymmetric(a: Vector, b: Vector)
    requires |a| == |b|
    ensures Dot(a, b) == Dot(b, a)
  {
    if a != [] {
      DotIsSymmetric(a[..|a| - 1], b[..|b| - 1]);
    }
  }

  lemma CosineIsSymmetric(sqrt: real -> real, a: Vector, b: Vector)
    ensures Cosine(sqrt, a, b) == Cosine(sqrt, b, a)
  {
    if |a| == |b| {
      DotIsSymmetric(a, b);
    }
  }

  // --- what the score measures ---

  /** Running totals of the products of corresponding components. */
  ghost predicate AreRunningTotals(totals: seq<real>, a: Vector, b: Vector)
    requires |a| == |b|
  {
    && |totals| == |a| + 1 && totals[0] == 0.0
    && forall i :: 0 <= i < |a| ==> totals[i + 1] == totals[i] + Times(a[i], b[i])
  }

  lemma {:induction false} DotIsTheTotal(a: Vector, b: Vector) returns (totals: seq<real>)
    requires |a| == |b|
    ensures AreRunningTotals(totals, a, b) && totals[|a|] == Dot(a, b)
  {
    if a == [] {
      totals := [0.0];
    } else {
      var a', b' := a[..|a| - 1], b[..|b| - 1];
      var before := DotIsTheTotal(a', b');
      totals := before + [before[|a'|] + Times(a[|a| - 1], b[|b| - 1])];
      assert forall i :: 0 <= i < |a'| ==> a'[i] == a[i] && b'[i] == b[i];
    }
  }

  lemma {:induction false} DotOfOpposite(a: Vector, b: Vector, b': Vector)
    requires |a| == |b| == |b'| && forall i :: 0 <= i < |b| ==> b'[i] == -b[i]
    ensures Dot(a, b') == -Dot(a, b) && Dot(b', b') == Dot(b, b)
  {
    if a != [] {
      var last := |a| - 1;
      DotOfOpposite(a[..last], b[..last], b'[..last]);
      OppositeTerms(a[last], b[last]);
    }
  }

  lemma OppositeTerms(x: real, y: real)
    ensures Times(x, -y) == -Times(x, y) && Times(-y, -y) == Times(y, y)
  {
  }

  lemma OppositeQuotient(x: real, n: real)
    requires n != 0.0
    ensures -x / n == -(x / n)
  {
  }

  /** A vector and its opposite have opposite scores with any other. */
  lemma CosineOfOpposite(sqrt: real -> real, a: Vector, b: Vector, b': Vector)
    requires |b| == |b'| && forall i :: 0 <= i < |b| ==> b'[i] == -b[i]
    ensures Cosine(sqrt, a, b') == -Cosine(sqrt, a, b)
  {
    if |a| == |b| && a != [] {
      DotOfOpposite(a, b, b');
      var norms := sqrt(Dot(a, a)) * sqrt(Dot(b, b));
      if sqrt(Dot(a, a)) != 0.0 && sqrt(Dot(b, b)) != 0.0 {
        OppositeQuotient(Dot(a, b), norms);
      }
    }
  }

  lemma {:induction false} DotOfScaled(t: real, a: Vector, b: Vector, b': Vector)
    requires |a| == |b| == |b'| && forall i :: 0 <= i < |b| ==> b'[i] == Times(t, b[i])
    ensures Dot(a, b') == Times(t, Dot(a, b)) && Dot(b', b') == Times(Square(t), Dot(b, b))
  {
    if a != [] {
      var last := |a| - 1;
      DotOfScaled(t, a[..last], b[..last], b'[..last]);
      ScaledTerms(t, a[last], b[last], Dot(a[..last], b[..last]), Dot(b[..last], b[..last]));
    }
  }

  lemma ScaledTerms(t: real, x: real, y: real, ab: real, bb: real)
    ensures Times(t, ab) + Times(x, Times(t, y)) == Times(t, ab + Times(x, y))
    ensures Times(Square(t), bb) + Times(Times(t, y), Times(t, y)) == Times(Square(t), bb + Times(y, y))
  {
    assert x * (t * y) == t * (x * y);
    assert (t * y) * (t * y) == (t * t) * (y * y);
    assert (t * t) * (bb + y * y) == (t * t) * bb + (t * t) * (y * y);
  }

  /** Roots are unique, so scaling a vector scales its norm. */
  lemma RootOfScaled(t: real, r: real, s: real, x: real)
    requires 0.0 < t && IsRoot(r, x) && IsRoot(s, Times(Square(t), x))
    ensures s == Times(t, r)
  {
    var q := t * r;
    ProductOfSquares(t, r);
    assert 0.0 <= q;
    assert Square(q) == Square(s);
    LargerRoot(q, s);
    LargerRoot(s, q);
  }

  lemma LargerRoot(q: real, s: real)
    requires 0.0 <= q && 0.0 <= s && Square(q) == Square(s)
    ensures q <= s
  {
    if s < q {
      SquareIsNonNegative(s);
      assert q * q > q * s || s == 0.0;
      assert q * s >= s * s;
      SquareIsNonNegative(q);
    }
  }

  lemma ScaledQuotient(t: real, d: real, p: real, q: real)
    requires 0.0 < t && p * q != 0.0
    ensures p * Times(t, q) != 0.0 && Times(t, d) / (p * Times(t, q)) == d / (p * q)
  {
    var n := p * q;
    assert p * (t * q) == t * n;
    assert (d / n) * (t * n) == t * d;
  }

  /** Length does not matter: a positive multiple of a vector scores the same. */
  lemma CosineOfScaled(sqrt: real -> real, t: real, a: Vector, b: Vector, b': Vector)
    requires IsSquareRoot(sqrt) && 0.0 < t
    requires |b| == |b'| && forall i :: 0 <= i < |b| ==> b'[i] == Times(t, b[i])
    ensures Cosine(sqrt, a, b') == Cosine(sqrt, a, b)
  {
    if |a| == |b| && a != [] {
      DotOfScaled(t, a, b, b');
      DotIsNonNegative(b);
      DotIsNonNegative(b');
      var p, q := sqrt(Dot(a, a)), sqrt(Dot(b, b));
      RootOfScaled(t, q, sqrt(Dot(b', b')), Dot(b, b));
      if p != 0.0 && q != 0.0 {
        NonZero(p, q);
        NonZero(t, q);
        ScaledQuotient(t, Dot(a, b), p, q);
      }
    }
  }

  lemma NonZero(p: real, q: real)
    requires p != 0.0 && q != 0.0
    ensures p * q != 0.0 && Times(p, q) != 0.0
  {
  }

  /** The score is the sum of the products over both norms; without a direction to compare it is 0. */
  lemma ScoreIsExact(sqrt: real -> real, a: Vector, b: Vector) returns (totals: seq<real>)
    requires |a| == |b|
    ensures AreRunningTotals(totals, a, b)
    ensures sqrt(Dot(a, a)) != 0.0 && sqrt(Dot(b, b)) != 0.0 && a != [] ==>
      Cosine(sqrt, a, b) * (sqrt(Dot(a, a)) * sqrt(Dot(b, b))) == totals[|a|]
    ensures sqrt(Dot(a, a)) == 0.0 || sqrt(Dot(b, b)) == 0.0 || a == [] ==> Cosine(sqrt, a, b) == 0.0
  {
    totals := DotIsTheTotal(a, b);
    var p, q := sqrt(Dot(a, a)), sqrt(Dot(b, b));
    if p != 0.0 && q != 0.0 && a != [] {
      NonZero(p, q);
      QuotientTimes(Dot(a, b), p * q);
    }
  }

  lemma QuotientTimes(d: real, n: real)
    requires n != 0.0
    ensures (d / n) * n == d
  {
  }

  // --- search ---

  datatype Row = Row(patternId: int, embedding: Vector)

  datatype Scored = Scored(patternId: int, score: real)

  /** pattern_id is the table's primary key. */
  predicate DistinctRows(rows: seq<Row>) {
    forall i, j :: 0 <= i < j < |rows| ==> rows[i].patternId != rows[j].patternId
  }

  predicate NotBelow(a: Scored, b: Scored) {
    a.score >= b.score
  }

  function ScoreAll(sqrt: real -> real, rows: seq<Row>, query: Vector): seq<Scored> {
    seq(|rows|, i requires 0 <= i < |rows| => Scored(rows[i].patternId, Cosine(sqrt, query, rows[i].embedding)))
  }

  ghost predicate IsScoreOf(sqrt: real -> real, rows: seq<Row>, query: Vector, s: Scored) {
    exists i :: 0 <= i < |rows| && s == Scored(rows[i].patternId, Cosine(sqrt, query, rows[i].embedding))
  }

  /**
   The best k rows: as many as there are, each a different pattern with its own score,
   best first, and no row left out scores above one that is returned.
   */
  method FindSimilarPatterns(sqrt: real -> real, rows: seq<Row>, query: Vector, topK: nat) returns (r: seq<Scored>)
    requires DistinctRows(rows)
    ensures |r| == if topK < |rows| then topK else |rows|
    ensures forall i :: 0 <= i < |r| ==> IsScoreOf(sqrt, rows, query, r[i])
    ensures forall i, j :: 0 <= i < j < |r| ==> r[i].patternId != r[j].patternId && r[i].score >= r[j].score
    ensures forall s, i :: IsScoreOf(sqrt, rows, query, s) && s !in r && 0 <= i < |r| ==> s.score <= r[i].score
  {
    var scored := ScoreAll(sqrt, rows, query);
    Sorting.FirstOfIsBest(NotBelow, scored, topK);
    r := Sorting.FirstOf(NotBelow, scored, topK);
    forall i | 0 <= i < |r| ensures IsScoreOf(sqrt, rows, query, r[i]) {
      assert r[i] in scored;
      var k :| 0 <= k < |scored| && scored[k] == r[i];
    }
    forall i, j | 0 <= i < j < |r| ensures r[i].patternId != r[j].patternId && r[i].score >= r[j].score {
      assert NotBelow(r[i], r[j]) && r[i] in scored && r[j] in scored;
    }
    forall s, i | IsScoreOf(sqrt, rows, query, s) && s !in r && 0 <= i < |r| ensures s.score <= r[i].score {
      var k :| 0 <= k < |rows| && s == Scored(rows[k].patternId, Cosine(sqrt, query, rows[k].embedding));
      assert s == scored[k] && r[i] in r;
      assert NotBelow(r[i], s);
    }
  }
}
