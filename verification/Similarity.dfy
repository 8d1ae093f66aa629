/** Cosine similarity of vectors, over the reals. */
module Similarities {

  type Vector = seq<real>

  function Dot(a: Vector, b: Vector): real {
    if a == [] || b == [] then 0.0 else a[0] * b[0] + Dot(a[1..], b[1..])
  }

  // ----- products of reals -----

  lemma PositiveProduct(x: real, y: real, product: real)
    requires product == x * y && ((x > 0.0 && y > 0.0) || (x < 0.0 && y < 0.0))
    ensures product > 0.0
  {}

  lemma NonzeroProduct(x: real, y: real, product: real)
    requires product == x * y && x != 0.0 && y != 0.0
    ensures product != 0.0
  {}

  lemma TimesEqual(t: real, x: real, y: real)
    requires x == y
    ensures t * x == t * y
  {}

  lemma Distribute(x: real, y: real, z: real)
    ensures x * (y + z) == x * y + x * z
  {}

  lemma Reassociate(x: real, t: real, y: real)
    ensures x * (t * y) == t * (x * y)
  {}

  lemma SameFactor(x: real, y: real, factor: real)
    requires factor != 0.0 && x * factor == y * factor
    ensures x == y
  {
    if x != y {
      NonzeroProduct(x - y, factor, (x - y) * factor);
    }
  }

  lemma LargerSquare(x: real, y: real, xx: real, yy: real)
    requires 0.0 <= x < y && xx == x * x && yy == y * y
    ensures xx < yy
  {
    var xy := x * y;
    assert yy - xy == y * (y - x);
    PositiveProduct(y, y - x, yy - xy);
    assert xy - xx == x * (y - x);
    if x > 0.0 {
      PositiveProduct(x, y - x, xy - xx);
    } else {
      assert xy == 0.0 && xx == 0.0;
    }
  }

  /** A square has one root that is not negative. */
  lemma OneRoot(x: real, y: real, square: real)
    requires x >= 0.0 && y >= 0.0 && x * x == square && y * y == square
    ensures x == y
  {
    if x < y {
      LargerSquare(x, y, square, square);
    } else if y < x {
      LargerSquare(y, x, square, square);
    }
  }

  function Abs(t: real): (u: real)
    ensures u >= 0.0 && (u == t || u == -t) && (t != 0.0 ==> u > 0.0)
  {
    if t < 0.0 then -t else t
  }

  // ----- the product of two vectors -----

  function Add(a: Vector, b: Vector): (c: Vector)
    requires |a| == |b|
    ensures |c| == |a|
  {
    if a == [] then [] else [a[0] + b[0]] + Add(a[1..], b[1..])
  }

  function Scale(t: real, a: Vector): (c: Vector)
    ensures |c| == |a|
  {
    if a == [] then [] else [t * a[0]] + Scale(t, a[1..])
  }

  /** The i-th unit vector. */
  function Unit(n: nat, i: nat): (c: Vector)
    ensures |c| == n
  {
    seq(n, j => if j == i then 1.0 else 0.0)
  }

  predicate IsNull(a: Vector) { forall i :: 0 <= i < |a| ==> a[i] == 0.0 }

  lemma {:induction false} DotSymmetric(a: Vector, b: Vector)
    ensures Dot(a, b) == Dot(b, a)
  {
    if a != [] && b != [] {
      DotSymmetric(a[1..], b[1..]);
    }
  }

  lemma {:induction false} SelfProduct(a: Vector)
    ensures if IsNull(a) then Dot(a, a) == 0.0 else Dot(a, a) > 0.0
  {
    if a != [] {
      SelfProduct(a[1..]);
      assert IsNull(a) <==> a[0] == 0.0 && IsNull(a[1..]);
      var square := a[0] * a[0];
      assert Dot(a, a) == square + Dot(a[1..], a[1..]);
      if a[0] == 0.0 {
        assert square == 0.0;
      } else {
        PositiveProduct(a[0], a[0], square);
      }
    }
  }

  lemma {:induction false} DotAdds(a: Vector, b: Vector, c: Vector)
    requires |a| == |b| == |c|
    ensures Dot(a, Add(b, c)) == Dot(a, b) + Dot(a, c)
  {
    if a != [] {
      var tail := Add(b[1..], c[1..]);
      DotAdds(a[1..], b[1..], c[1..]);
      assert Add(b, c)[0] == b[0] + c[0] && Add(b, c)[1..] == tail;
      Distribute(a[0], b[0], c[0]);
    }
  }

  lemma {:induction false} DotScales(a: Vector, t: real, b: Vector)
    requires |a| == |b|
    ensures Dot(a, Scale(t, b)) == t * Dot(a, b)
  {
    if a != [] {
      var rest := Dot(a[1..], b[1..]);
      DotScales(a[1..], t, b[1..]);
      assert Scale(t, b)[0] == t * b[0] && Scale(t, b)[1..] == Scale(t, b[1..]);
      Reassociate(a[0], t, b[0]);
      Distribute(t, a[0] * b[0], rest);
    }
  }

  lemma {:induction false} DotWithNull(a: Vector, b: Vector)
    requires IsNull(b)
    ensures Dot(a, b) == 0.0
  {
    if a != [] && b != [] {
      DotWithNull(a[1..], b[1..]);
      assert b[0] == 0.0;
    }
  }

  /** The product with a unit vector picks out a component. */
  lemma {:induction false} DotPicks(a: Vector, i: nat)
    requires i < |a|
    ensures Dot(a, Unit(|a|, i)) == a[i]
  {
    var unit := Unit(|a|, i);
    if i == 0 {
      assert IsNull(unit[1..]);
      DotWithNull(a[1..], unit[1..]);
    } else {
      assert unit[1..] == Unit(|a| - 1, i - 1);
      DotPicks(a[1..], i - 1);
    }
  }

  /** There is only one product like it: symmetric, linear in its second factor, and with unit vectors the component. */
  lemma ProductLaws(a: Vector, b: Vector, c: Vector, t: real, i: nat)
    requires |a| == |b| == |c| && i < |a|
    ensures Dot(a, b) == Dot(b, a)
    ensures Dot(a, Add(b, c)) == Dot(a, b) + Dot(a, c)
    ensures Dot(a, Scale(t, b)) == t * Dot(a, b)
    ensures Dot(a, Unit(|a|, i)) == a[i]
  {
    DotSymmetric(a, b);
    DotAdds(a, b, c);
    DotScales(a, t, b);
    DotPicks(a, i);
  }

  // ----- the cosine -----

  lemma Undivided(dot: real, norms: real, score: real)
    requires norms != 0.0 && score == dot / norms
    ensures score * norms == dot
  {}

  /** The number that, times both norms, gives the product of the vectors; zero when a norm vanishes. */
  predicate IsScore(score: real, dot: real, normA: real, normB: real) {
    if normA == 0.0 || normB == 0.0 then score == 0.0 else score * (normA * normB) == dot
  }

  function Normalized(dot: real, normA: real, normB: real): (score: real)
    ensures IsScore(score, dot, normA, normB)
  {
    if normA == 0.0 || normB == 0.0 then 0.0
    else
      var norms := normA * normB;
      NonzeroProduct(normA, normB, norms);
      Undivided(dot, norms, dot / norms);
      dot / norms
  }

  /** The cosine of the angle, zero when a norm vanishes. The square root is that of the float library. */
  function CosineSimilarity(root: real -> real, a: Vector, b: Vector): real {
    Normalized(Dot(a, b), root(Dot(a, a)), root(Dot(b, b)))
  }

  lemma ScoreIsUnique(x: real, y: real, dot: real, normA: real, normB: real)
    requires IsScore(x, dot, normA, normB) && IsScore(y, dot, normA, normB)
    ensures x == y
  {
    if normA != 0.0 && normB != 0.0 {
      NonzeroProduct(normA, normB, normA * normB);
      SameFactor(x, y, normA * normB);
    }
  }

  /** The cosine is the one number that, times both norms, gives the product of the vectors, sign and all. */
  lemma CosineIsNormalizedDot(root: real -> real, a: Vector, b: Vector, x: real)
    ensures x == CosineSimilarity(root, a, b) <==> IsScore(x, Dot(a, b), root(Dot(a, a)), root(Dot(b, b)))
  {
    var score := CosineSimilarity(root, a, b);
    if IsScore(x, Dot(a, b), root(Dot(a, a)), root(Dot(b, b))) {
      ScoreIsUnique(x, score, Dot(a, b), root(Dot(a, a)), root(Dot(b, b)));
    }
  }

  /** What the float library promises of a norm. */
  ghost predicate IsRoot(norm: real, square: real) { norm >= 0.0 && norm * norm == square }

  lemma RootVanishesExactly(norm: real, square: real)
    requires IsRoot(norm, square)
    ensures norm == 0.0 <==> square == 0.0
  {
    if norm != 0.0 {
      PositiveProduct(norm, norm, square);
    }
  }

  lemma SelfScore(square: real, norm: real)
    requires IsRoot(norm, square)
    ensures Normalized(square, norm, norm) == if square == 0.0 then 0.0 else 1.0
  {
    RootVanishesExactly(norm, square);
    if norm != 0.0 {
      SameFactor(Normalized(square, norm, norm), 1.0, square);
    }
  }

  lemma SwappedScore(dot: real, n: real, m: real)
    ensures Normalized(dot, n, m) == Normalized(dot, m, n)
  {
    if n != 0.0 && m != 0.0 {
      var norms := n * m;
      NonzeroProduct(n, m, norms);
      assert norms == m * n;
      SameFactor(Normalized(dot, n, m), Normalized(dot, m, n), norms);
    }
  }

  /** Similarity does not depend on the order of its arguments, and a vector is most similar to itself, unless all
      its components are zero. */
  lemma CosineLaws(root: real -> real, a: Vector, b: Vector)
    requires IsRoot(root(Dot(a, a)), Dot(a, a))
    ensures CosineSimilarity(root, a, b) == CosineSimilarity(root, b, a)
    ensures CosineSimilarity(root, a, a) == if IsNull(a) then 0.0 else 1.0
  {
    DotSymmetric(a, b);
    SwappedScore(Dot(a, b), root(Dot(a, a)), root(Dot(b, b)));
    SelfProduct(a);
    SelfScore(Dot(a, a), root(Dot(a, a)));
  }

  lemma ScaledSquare(a: Vector, t: real)
    ensures Dot(a, Scale(t, a)) == t * Dot(a, a)
    ensures Dot(Scale(t, a), Scale(t, a)) == t * (t * Dot(a, a))
  {
    var b := Scale(t, a);
    DotScales(b, t, a);
    DotSymmetric(b, a);
    DotScales(a, t, a);
    TimesEqual(t, Dot(b, a), t * Dot(a, a));
  }

  lemma SquareOfMultiple(t: real, n: real, d: real, m: real)
    requires n * n == d && m == Abs(t) * n
    ensures m * m == t * (t * d)
  {
    var u := Abs(t);
    assert m * m == (u * n) * (u * n) == (u * u) * (n * n);
    assert u * u == t * t;
    TimesEqual(n * n, u * u, t * t);
    assert (t * t) * (n * n) == t * (t * (n * n));
    TimesEqual(t * t, n * n, d);
  }

  lemma ScaledRoot(t: real, n: real, d: real, m: real)
    requires t != 0.0 && n > 0.0 && n * n == d && IsRoot(m, t * (t * d))
    ensures m == Abs(t) * n
  {
    var scaled := Abs(t) * n;
    PositiveProduct(Abs(t), n, scaled);
    SquareOfMultiple(t, n, d, scaled);
    OneRoot(m, scaled, t * (t * d));
  }

  lemma SignedQuotient(score: real, t: real, n: real, m: real, d: real)
    requires t != 0.0 && n > 0.0 && n * n == d && m == Abs(t) * n && score * (n * m) == t * d
    ensures score == if t > 0.0 then 1.0 else -1.0
  {
    var u := Abs(t);
    PositiveProduct(n, n, d);
    var norms := u * d;
    PositiveProduct(u, d, norms);
    assert n * m == n * (u * n) == u * (n * n);
    TimesEqual(u, n * n, d);
    TimesEqual(score, n * m, norms);
    SameFactor(score, if t > 0.0 then 1.0 else -1.0, norms);
  }

  lemma ScoreOfMultiple(t: real, d: real, dot: real, square: real, n: real, m: real)
    requires t != 0.0 && d > 0.0 && dot == t * d && square == t * (t * d)
    requires IsRoot(n, d) && IsRoot(m, square)
    ensures Normalized(dot, n, m) == if t > 0.0 then 1.0 else -1.0
  {
    RootVanishesExactly(n, d);
    ScaledRoot(t, n, d, m);
    PositiveProduct(Abs(t), n, m);
    SignedQuotient(Normalized(dot, n, m), t, n, m, d);
  }

  /** Vectors in the same direction score one, vectors in opposite directions minus one. */
  lemma CosineOfMultiple(root: real -> real, a: Vector, t: real)
    requires !IsNull(a) && t != 0.0
    requires IsRoot(root(Dot(a, a)), Dot(a, a))
    requires IsRoot(root(Dot(Scale(t, a), Scale(t, a))), Dot(Scale(t, a), Scale(t, a)))
    ensures CosineSimilarity(root, a, Scale(t, a)) == if t > 0.0 then 1.0 else -1.0
  {
    ScaledSquare(a, t);
    SelfProduct(a);
    var b := Scale(t, a);
    ScoreOfMultiple(t, Dot(a, a), Dot(a, b), Dot(b, b), root(Dot(a, a)), root(Dot(b, b)));
  }

  // ----- no score exceeds one -----

  /** Stands for x times p less y times q. */
  predicate IsDifference(value: real, x: real, p: real, y: real, q: real) { value == x * p - y * q }

  lemma DifferenceOfParts(value: real, x: real, p: real, y: real, q: real, first: real, second: real)
    requires first == x * p && second == -y * q && value == first + second
    ensures IsDifference(value, x, p, y, q)
  {
    assert -y * q == -(y * q);
  }

  predicate IsProduct(value: real, x: real, p: real) { value == x * p }

  lemma ScaledPart(v: Vector, x: real, a: Vector)
    requires |a| == |v|
    ensures IsProduct(Dot(v, Scale(x, a)), x, Dot(v, a))
  {
    DotScales(v, x, a);
  }

  lemma SumOfParts(v: Vector, s: Vector, t: Vector, x: real, p: real, y: real, q: real)
    requires |v| == |s| == |t| && IsProduct(Dot(v, s), x, p) && IsProduct(Dot(v, t), -y, q)
    ensures IsDifference(Dot(v, Add(s, t)), x, p, y, q)
  {
    DotAdds(v, s, t);
    DifferenceOfParts(Dot(v, Add(s, t)), x, p, y, q, Dot(v, s), Dot(v, t));
  }

  /** The vector x times a less y times b, known by its products. */
  lemma Minus(x: real, a: Vector, y: real, b: Vector) returns (v: Vector)
    requires |a| == |b|
    ensures |v| == |a|
    ensures forall u: Vector :: |u| == |a| ==> IsDifference(Dot(u, v), x, Dot(u, a), y, Dot(u, b))
  {
    var s, t := Scale(x, a), Scale(-y, b);
    v := Add(s, t);
    forall u: Vector | |u| == |a| ensures IsDifference(Dot(u, v), x, Dot(u, a), y, Dot(u, b)) {
      ScaledPart(u, x, a);
      ScaledPart(u, -y, b);
      SumOfParts(u, s, t, x, Dot(u, a), y, Dot(u, b));
    }
  }

  lemma BoundedBySquare(d: real, e: real, p: real, va: real, vb: real, vv: real)
    requires IsDifference(va, e, d, p, p) && IsDifference(vb, e, p, p, e) && IsDifference(vv, e, va, p, vb)
    requires vv >= 0.0 && e > 0.0
    ensures p * p <= e * d
  {
    assert vb == 0.0;
    TimesEqual(p, vb, 0.0);
    if va < 0.0 {
      PositiveProduct(e, -va, -vv);
    }
  }

  predicate IsBounded(p: real, d: real, e: real) { p * p <= e * d }

  /** The inequality of Cauchy and Schwarz. */
  lemma DotBounded(a: Vector, b: Vector)
    requires |a| == |b| && !IsNull(b)
    ensures IsBounded(Dot(a, b), Dot(a, a), Dot(b, b))
  {
    var d, e, p := Dot(a, a), Dot(b, b), Dot(a, b);
    var v := Minus(e, a, p, b);
    DotSymmetric(v, a);
    DotSymmetric(v, b);
    DotSymmetric(b, a);
    SelfProduct(v);
    SelfProduct(b);
    BoundedBySquare(d, e, p, Dot(v, a), Dot(v, b), Dot(v, v));
  }

  lemma ScoreBounded(score: real, dot: real, d: real, e: real, n: real, m: real)
    requires IsScore(score, dot, n, m) && IsRoot(n, d) && IsRoot(m, e) && IsBounded(dot, d, e)
    ensures -1.0 <= score <= 1.0
  {
    if n != 0.0 && m != 0.0 {
      var norms := n * m;
      PositiveProduct(n, m, norms);
      assert norms * norms == (m * m) * (n * n);
      TimesEqual(m * m, n * n, d);
      TimesEqual(d, m * m, e);
      QuotientBounded(score, norms, dot);
    }
  }

  lemma QuotientBounded(score: real, norms: real, dot: real)
    requires norms > 0.0 && score * norms == dot && dot * dot <= norms * norms
    ensures -1.0 <= score <= 1.0
  {
    var size := Abs(score);
    if size > 1.0 {
      var above := (size - 1.0) * norms;
      var larger := size * norms;
      PositiveProduct(size - 1.0, norms, above);
      assert larger == above + norms;
      assert larger == dot || larger == -dot;
      assert larger * larger == dot * dot;
      LargerSquare(norms, larger, norms * norms, dot * dot);
    }
  }

  /** Every score lies between that of opposite and that of equal directions. */
  lemma ScoresStayWithinOne(root: real -> real, a: Vector, b: Vector)
    requires |a| == |b| && IsRoot(root(Dot(a, a)), Dot(a, a)) && IsRoot(root(Dot(b, b)), Dot(b, b))
    ensures -1.0 <= CosineSimilarity(root, a, b) <= 1.0
  {
    SelfProduct(b);
    RootVanishesExactly(root(Dot(b, b)), Dot(b, b));
    if !IsNull(b) {
      DotBounded(a, b);
      ScoreBounded(CosineSimilarity(root, a, b), Dot(a, b), Dot(a, a), Dot(b, b), root(Dot(a, a)), root(Dot(b, b)));
    }
  }
}
