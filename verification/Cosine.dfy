/** Cosine similarity over vectors of reals, with the square root as a parameter. */
module Cosine {

  /** A non-negative root for every non-negative number. */
  ghost predicate IsRoot(root: real -> real) {
    forall x {:trigger root(x)} :: x >= 0.0 ==> root(x) >= 0.0 && root(x) * root(x) == x
  }

  function Dot(a: seq<real>, b: seq<real>): real
    requires |a| == |b|
  {
    if a == [] then 0.0 else a[0] * b[0] + Dot(a[1..], b[1..])
  }

  function Similarity(root: real -> real, a: seq<real>, b: seq<real>): real {
    if |a| != |b| || a == [] then 0.0
    else Quotient(Dot(a, b), root(Dot(a, a)), root(Dot(b, b)))
  }

  /** `d / (na * nb)`, and 0 when a norm is 0. */
  function Quotient(d: real, na: real, nb: real): real {
    if na == 0.0 || nb == 0.0 then 0.0 else d / (na * nb)
  }

  function Scale(c: real, a: seq<real>): (r: seq<real>)
    ensures |r| == |a|
  {
    if a == [] then [] else [c * a[0]] + Scale(c, a[1..])
  }

  lemma {:induction false} SquaresNonNegative(a: seq<real>)
    ensures Dot(a, a) >= 0.0
  {
    if a != [] { SquaresNonNegative(a[1..]); }
  }

  /** The step of Cauchy–Schwarz: one more coordinate on either side. */
  lemma AddCoordinate(d: real, p: real, q: real, x: real, y: real, d': real, p': real, q': real)
    requires p >= 0.0 && q >= 0.0 && d * d <= p * q
    requires d' == d + x * y && p' == p + x * x && q' == q + y * y
    ensures d' * d' <= p' * q'
  {
    var u, v := p * (y * y), q * (x * x);
    var t := d * (x * y);
    assert u >= 0.0 && v >= 0.0;
    assert t * t <= u * v by {
      var xy := (x * y) * (x * y);
      SquareOfProduct(d, x * y);
      CrossProducts(p, q, x, y);
      MonotoneTimes(d * d, p * q, xy);
    }
    TwiceBelowSum(t, u, v);
    assert (d + x * y) * (d + x * y) == d * d + 2.0 * t + (x * y) * (x * y);
    assert (p + x * x) * (q + y * y) == p * q + u + v + (x * x) * (y * y);
    assert (x * y) * (x * y) == (x * x) * (y * y);
  }

  lemma SquareOfProduct(d: real, w: real)
    ensures (d * w) * (d * w) == (d * d) * (w * w)
  {
    assert (d * w) * (d * w) == d * (w * (d * w));
    assert w * (d * w) == d * (w * w);
  }

  lemma CrossProducts(p: real, q: real, x: real, y: real)
    ensures (p * (y * y)) * (q * (x * x)) == (p * q) * ((x * y) * (x * y))
  {
    SquareOfProduct(x, y);
    var xx, yy := x * x, y * y;
    assert (p * yy) * (q * xx) == p * (q * (yy * xx));
  }

  lemma MonotoneTimes(a: real, b: real, c: real)
    requires a <= b && c >= 0.0
    ensures a * c <= b * c
  {
  }

  /** The inequality of the means: what squares below a product lies below half the sum. */
  lemma TwiceBelowSum(t: real, u: real, v: real)
    requires u >= 0.0 && v >= 0.0 && t * t <= u * v
    ensures 2.0 * t <= u + v
  {
    assert (u - v) * (u - v) >= 0.0;
    assert (u + v) * (u + v) == (u - v) * (u - v) + 4.0 * (u * v);
    SquareOrder(2.0 * t, u + v);
  }

  lemma SquareOrder(a: real, b: real)
    requires b >= 0.0 && a * a <= b * b
    ensures a <= b && -b <= a
  {
    assert (b - a) * (b + a) == b * b - a * a;
    if a > b { NegativeTimes(b - a, b + a); }
    if -a > b { NegativeTimes(b + a, b - a); }
  }

  lemma NegativeTimes(x: real, y: real)
    requires x < 0.0 && y > 0.0
    ensures x * y < 0.0
  {
  }

  lemma PositiveTimes(x: real, y: real)
    requires x > 0.0 && y > 0.0
    ensures x * y > 0.0
  {
  }

  lemma {:induction false} CauchySchwarz(a: seq<real>, b: seq<real>)
    requires |a| == |b|
    ensures Dot(a, b) * Dot(a, b) <= Dot(a, a) * Dot(b, b)
  {
    if a != [] {
      CauchySchwarz(a[1..], b[1..]);
      SquaresNonNegative(a[1..]);
      SquaresNonNegative(b[1..]);
      AddCoordinate(Dot(a[1..], b[1..]), Dot(a[1..], a[1..]), Dot(b[1..], b[1..]), a[0], b[0], Dot(a, b), Dot(a, a),
                    Dot(b, b));
    }
  }

  lemma QuotientBound(d: real, na: real, nb: real)
    requires na > 0.0 && nb > 0.0 && d <= na * nb && -(na * nb) <= d
    ensures -1.0 <= Quotient(d, na, nb) <= 1.0
  {
    PositiveTimes(na, nb);
    UnitBound(d, na * nb);
  }

  lemma UnitBound(d: real, n: real)
    requires n > 0.0 && d <= n && -n <= d
    ensures -1.0 <= d / n <= 1.0
  {
  }

  /** A similarity never leaves [-1, 1]. */
  lemma SimilarityBounded(root: real -> real, a: seq<real>, b: seq<real>)
    requires IsRoot(root)
    ensures -1.0 <= Similarity(root, a, b) <= 1.0
  {
    if |a| == |b| && a != [] {
      var na, nb := root(Dot(a, a)), root(Dot(b, b));
      SquaresNonNegative(a);
      SquaresNonNegative(b);
      if na != 0.0 && nb != 0.0 {
        CauchySchwarz(a, b);
        assert (na * nb) * (na * nb) == (na * na) * (nb * nb);
        PositiveTimes(na, nb);
        SquareOrder(Dot(a, b), na * nb);
        QuotientBound(Dot(a, b), na, nb);
      }
    }
  }

  lemma {:induction false} DotSymmetric(a: seq<real>, b: seq<real>)
    requires |a| == |b|
    ensures Dot(a, b) == Dot(b, a)
  {
    if a != [] { DotSymmetric(a[1..], b[1..]); }
  }

  lemma SimilaritySymmetric(root: real -> real, a: seq<real>, b: seq<real>)
    ensures Similarity(root, a, b) == Similarity(root, b, a)
  {
    if |a| == |b| { DotSymmetric(a, b); }
  }

  lemma {:induction false} DotScale(c: real, a: seq<real>, b: seq<real>)
    requires |a| == |b|
    ensures Dot(Scale(c, a), b) == c * Dot(a, b)
  {
    if a != [] {
      DotScale(c, a[1..], b[1..]);
      assert Scale(c, a)[1..] == Scale(c, a[1..]);
      assert (c * a[0]) * b[0] == c * (a[0] * b[0]);
    }
  }

  /** The root of a number scaled by a square. */
  lemma RootOfScaled(root: real -> real, c: real, x: real, y: real)
    requires IsRoot(root) && c > 0.0 && x >= 0.0 && y == c * (c * x)
    ensures root(y) == c * root(x)
  {
    var r, p := root(y), root(x);
    var q := c * p;
    assert c * x >= 0.0;
    assert y >= 0.0;
    assert q * q == c * (c * (p * p));
    assert q * q == y && r * r == y;
    SquareOrder(r, q);
    SquareOrder(q, r);
  }

  lemma QuotientScale(c: real, d: real, na: real, nb: real, d': real, na': real)
    requires c > 0.0 && na > 0.0 && nb > 0.0 && d' == c * d && na' == c * na
    ensures Quotient(d', na', nb) == Quotient(d, na, nb)
  {
    PositiveTimes(c, na);
    PositiveTimes(na, nb);
    PositiveTimes(na', nb);
    var n, q := na * nb, d / (na * nb);
    assert q * n == d;
    assert na' * nb == c * n;
    assert q * (c * n) == d';
    DivideBack(q, na' * nb, d');
  }

  lemma DivideBack(q: real, n: real, d: real)
    requires n != 0.0 && q * n == d
    ensures d / n == q
  {
  }

  // ----- Which similarity it is -----

  /** A dot product is the sum of the products, coordinate by coordinate. */
  lemma {:induction false} DotAppend(a: seq<real>, b: seq<real>, a': seq<real>, b': seq<real>)
    requires |a| == |b| && |a'| == |b'|
    ensures Dot(a + a', b + b') == Dot(a, b) + Dot(a', b')
  {
    if a == [] {
      assert a + a' == a' && b + b' == b';
    } else {
      assert (a + a')[1..] == a[1..] + a' && (b + b')[1..] == b[1..] + b';
      DotAppend(a[1..], b[1..], a', b');
    }
  }

  lemma DotOne(x: real, y: real)
    ensures Dot([x], [y]) == x * y
  {
    assert Dot([x], [y]) == x * y + Dot([x][1..], [y][1..]);
    assert [x][1..] == [] && [y][1..] == [];
  }

  /** A similarity times the two lengths is the dot product. */
  lemma SimilarityTimesLengths(root: real -> real, a: seq<real>, b: seq<real>)
    requires IsRoot(root) && |a| == |b|
    ensures Similarity(root, a, b) * root(Dot(a, a)) * root(Dot(b, b)) == Dot(a, b)
  {
    var na, nb := root(Dot(a, a)), root(Dot(b, b));
    SquaresNonNegative(a);
    SquaresNonNegative(b);
    CauchySchwarz(a, b);
    if a != [] {
      if na == 0.0 || nb == 0.0 {
        ZeroSquare(Dot(a, b), Dot(a, a), Dot(b, b));
      } else {
        PositiveTimes(na, nb);
        QuotientTimes(Dot(a, b), na, nb);
      }
    }
  }

  lemma ZeroSquare(d: real, p: real, q: real)
    requires d * d <= p * q && (p == 0.0 || q == 0.0)
    ensures d == 0.0
  {
    assert p * q == 0.0;
    SquareOrder(d, 0.0);
  }

  lemma QuotientTimes(d: real, na: real, nb: real)
    requires na > 0.0 && nb > 0.0
    ensures Quotient(d, na, nb) * na * nb == d
  {
    PositiveTimes(na, nb);
    var q := d / (na * nb);
    assert q * na * nb == q * (na * nb);
  }

  /** A vector is as similar to itself as any can be, and so is every positive multiple of it. */
  lemma SimilarToItself(root: real -> real, a: seq<real>)
    requires IsRoot(root) && a != [] && Dot(a, a) > 0.0
    ensures Similarity(root, a, a) == 1.0
  {
    var n := root(Dot(a, a));
    assert n * n == Dot(a, a);
    DivideBack(1.0, n * n, Dot(a, a));
  }

  lemma SimilarToMultiple(root: real -> real, c: real, a: seq<real>)
    requires IsRoot(root) && c > 0.0 && a != [] && Dot(a, a) > 0.0
    ensures Similarity(root, a, Scale(c, a)) == 1.0
  {
    SimilaritySymmetric(root, a, Scale(c, a));
    SimilarityScale(root, c, a, a);
    SimilarToItself(root, a);
  }

  /** Vectors of different lengths, empty ones and ones of length zero are similar to nothing. */
  lemma SimilarToNothing(root: real -> real, a: seq<real>, b: seq<real>)
    requires IsRoot(root) && (|a| != |b| || a == [] || Dot(a, a) == 0.0 || Dot(b, b) == 0.0)
    ensures Similarity(root, a, b) == 0.0
  {
    if |a| == |b| && Dot(a, a) == 0.0 { RootOfZero(root, Dot(a, a)); }
    if |a| == |b| && Dot(b, b) == 0.0 { RootOfZero(root, Dot(b, b)); }
  }

  lemma RootOfZero(root: real -> real, x: real)
    requires IsRoot(root) && x == 0.0
    ensures root(x) == 0.0
  {
    SquareOrder(root(x), 0.0);
  }

  /** Making a vector longer without turning it changes no similarity. */
  lemma SimilarityScale(root: real -> real, c: real, a: seq<real>, b: seq<real>)
    requires IsRoot(root) && c > 0.0
    ensures Similarity(root, Scale(c, a), b) == Similarity(root, a, b)
  {
    if |a| == |b| && a != [] {
      var s := Scale(c, a);
      DotScale(c, a, b);
      DotScale(c, a, s);
      DotSymmetric(a, s);
      DotScale(c, a, a);
      assert Dot(s, s) == c * (c * Dot(a, a));
      SquaresNonNegative(a);
      SquaresNonNegative(b);
      RootOfScaled(root, c, Dot(a, a), Dot(s, s));
      var na, nb := root(Dot(a, a)), root(Dot(b, b));
      if na != 0.0 && nb != 0.0 {
        QuotientScale(c, Dot(a, b), na, nb, Dot(s, b), root(Dot(s, s)));
      }
    }
  }
}
