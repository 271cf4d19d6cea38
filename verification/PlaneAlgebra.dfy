// Vectors and matrices of dimension two over the reals, named so that nonlinear terms are handled one at a time.
// The lemmas are the identities and sign rules that the least-squares recursion and the trend filter build on,
// and no more.
module PlaneAlgebra {
  datatype Vec = Vec(x: real, y: real)

  /** Rows `(a, b)` and `(c, d)`. */
  datatype Mat = Mat(a: real, b: real, c: real, d: real)

  const IDENTITY := Mat(1.0, 0.0, 0.0, 1.0)

  function Plus(u: Vec, v: Vec): Vec { Vec(u.x + v.x, u.y + v.y) }

  function Minus(u: Vec, v: Vec): Vec { Vec(u.x - v.x, u.y - v.y) }

  function Times(s: real, v: Vec): Vec { Vec(s * v.x, s * v.y) }

  function Dot(u: Vec, v: Vec): real { u.x * v.x + u.y * v.y }

  function Sum(m: Mat, n: Mat): Mat { Mat(m.a + n.a, m.b + n.b, m.c + n.c, m.d + n.d) }

  function Difference(m: Mat, n: Mat): Mat { Mat(m.a - n.a, m.b - n.b, m.c - n.c, m.d - n.d) }

  function Scale(s: real, m: Mat): Mat { Mat(s * m.a, s * m.b, s * m.c, s * m.d) }

  function Apply(m: Mat, v: Vec): Vec { Vec(m.a * v.x + m.b * v.y, m.c * v.x + m.d * v.y) }

  function Mul(m: Mat, n: Mat): Mat {
    Mat(m.a * n.a + m.b * n.c, m.a * n.b + m.b * n.d, m.c * n.a + m.d * n.c, m.c * n.b + m.d * n.d)
  }

  function Outer(u: Vec, v: Vec): Mat { Mat(u.x * v.x, u.x * v.y, u.y * v.x, u.y * v.y) }

  /** The quadratic form of `m` at `v`. */
  function Quad(m: Mat, v: Vec): real { Dot(v, Apply(m, v)) }

  predicate Symmetric(m: Mat) { m.b == m.c }

  /** Symmetric, with a positive form at every nonzero vector. */
  ghost predicate PositiveDefinite(m: Mat) {
    Symmetric(m) && forall v: Vec | v != Vec(0.0, 0.0) :: Quad(m, v) > 0.0
  }

  function Det(m: Mat): real { m.a * m.d - m.b * m.c }

  lemma Squares(x: real)
    ensures x * x >= 0.0 && (x != 0.0 ==> x * x > 0.0)
  {
  }

  lemma ProductPositive(x: real, y: real)
    requires x > 0.0
    ensures x * y > 0.0 <==> y > 0.0
  {
  }

  lemma ProductNonzero(x: real, y: real)
    requires x != 0.0 && y != 0.0
    ensures x * y != 0.0
  {
  }

  lemma QuadAtUnit(m: Mat)
    ensures Quad(m, Vec(1.0, 0.0)) == m.a
  {
  }

  lemma QuadAtKernel(m: Mat)
    requires Symmetric(m)
    ensures Quad(m, Vec(-m.b, m.a)) == m.a * Det(m)
  {
  }

  lemma SquareIdentity(m: Mat, v: Vec)
    requires Symmetric(m)
    ensures m.a * Quad(m, v) == (m.a * v.x + m.b * v.y) * (m.a * v.x + m.b * v.y) + Det(m) * (v.y * v.y)
  {
  }

  lemma SquareSign(x: real) returns (square: real)
    ensures square == x * x && square >= 0.0 && (x != 0.0 ==> square > 0.0)
  {
    square := x * x;
    if x != 0.0 {
      calc {
        square;
        x * x;
      > { Squares(x); }
        0.0;
      }
    }
  }

  lemma ScaledSquareSign(d: real, x: real) returns (rest: real)
    requires d > 0.0
    ensures rest == d * (x * x) && rest >= 0.0 && (x != 0.0 ==> rest > 0.0)
  {
    var square := SquareSign(x);
    rest := d * square;
    ProductPositive(d, square);
  }

  lemma LeadNonzero(a: real, b: real, x: real, y: real)
    requires a != 0.0 && y == 0.0 && x != 0.0
    ensures a * x + b * y != 0.0
  {
    ProductNonzero(a, x);
  }

  /** The form as two squares, one of which is positive. */
  lemma TwoSquares(m: Mat, v: Vec) returns (square: real, rest: real)
    requires Symmetric(m) && m.a > 0.0 && Det(m) > 0.0 && v != Vec(0.0, 0.0)
    ensures m.a * Quad(m, v) == square + rest && square >= 0.0 && rest >= 0.0 && (square > 0.0 || rest > 0.0)
  {
    hide Quad, Det;
    SquareIdentity(m, v);
    square := SquareSign(m.a * v.x + m.b * v.y);
    rest := ScaledSquareSign(Det(m), v.y);
    if v.y == 0.0 {
      assert v == Vec(v.x, v.y);
      LeadNonzero(m.a, m.b, v.x, v.y);
    }
  }

  /** Sylvester's criterion, from the minors to the form. */
  lemma MinorsMakePositive(m: Mat)
    requires Symmetric(m) && m.a > 0.0 && Det(m) > 0.0
    ensures PositiveDefinite(m)
  {
    hide Quad, Det;
    forall v: Vec | v != Vec(0.0, 0.0) ensures Quad(m, v) > 0.0 {
      var square, rest := TwoSquares(m, v);
      ProductPositive(m.a, Quad(m, v));
    }
  }

  /** Sylvester's criterion, from the form to the minors. */
  lemma PositiveMakesMinors(m: Mat)
    requires PositiveDefinite(m)
    ensures m.a > 0.0 && Det(m) > 0.0
  {
    hide Quad, Det;
    QuadAtUnit(m);
    assert Vec(1.0, 0.0) != Vec(0.0, 0.0);
    assert Vec(-m.b, m.a) != Vec(0.0, 0.0);
    QuadAtKernel(m);
    ProductPositive(m.a, Det(m));
  }

  // ----- Identities -----

  function DivideVec(v: Vec, s: real): Vec
    requires s != 0.0
  {
    Vec(v.x / s, v.y / s)
  }

  function DivideMat(m: Mat, s: real): Mat
    requires s != 0.0
  {
    Mat(m.a / s, m.b / s, m.c / s, m.d / s)
  }

  lemma DivideVecBack(v: Vec, s: real)
    requires s != 0.0
    ensures Times(s, DivideVec(v, s)) == v
  {
  }

  lemma DivideMatBack(m: Mat, s: real)
    requires s != 0.0
    ensures Scale(s, DivideMat(m, s)) == m
  {
  }

  lemma Cancel(s: real, x: real, y: real)
    requires s != 0.0 && s * x == s * y
    ensures x == y
  {
  }

  lemma CancelVec(s: real, u: Vec, v: Vec)
    requires s != 0.0 && Times(s, u) == Times(s, v)
    ensures u == v
  {
    Cancel(s, u.x, v.x);
    Cancel(s, u.y, v.y);
  }

  lemma CancelMat(s: real, m: Mat, n: Mat)
    requires s != 0.0 && Scale(s, m) == Scale(s, n)
    ensures m == n
  {
    Cancel(s, m.a, n.a);
    Cancel(s, m.b, n.b);
    Cancel(s, m.c, n.c);
    Cancel(s, m.d, n.d);
  }

  lemma ApplyRow(a: real, b: real, n: Mat, v: Vec)
    ensures a * (n.a * v.x + n.b * v.y) + b * (n.c * v.x + n.d * v.y) == (a * n.a + b * n.c) * v.x +
            (a * n.b + b * n.d) * v.y
  {
    Factor(a, n.a, v.x, n.b, v.y);
    Factor(b, n.c, v.x, n.d, v.y);
    Distribute(a * n.a, b * n.c, v.x);
    Distribute(a * n.b, b * n.d, v.y);
  }

  lemma ApplyMul(m: Mat, n: Mat, v: Vec)
    ensures Apply(m, Apply(n, v)) == Apply(Mul(m, n), v)
  {
    ApplyRow(m.a, m.b, n, v);
    ApplyRow(m.c, m.d, n, v);
  }

  lemma ApplyIdentity(v: Vec)
    ensures Apply(IDENTITY, v) == v
  {
  }

  lemma ApplyTimes(m: Mat, s: real, v: Vec)
    ensures Apply(m, Times(s, v)) == Times(s, Apply(m, v))
  {
    PullFactor(s, m.a, v.x, m.b, v.y);
    PullFactor(s, m.c, v.x, m.d, v.y);
  }

  lemma ApplyPlus(m: Mat, u: Vec, v: Vec)
    ensures Apply(m, Plus(u, v)) == Plus(Apply(m, u), Apply(m, v))
  {
    Distribute(u.x, v.x, m.a);
    Distribute(u.y, v.y, m.b);
    Distribute(u.x, v.x, m.c);
    Distribute(u.y, v.y, m.d);
  }

  /** `s A + f fT`, the way information is updated. */
  function Updated(m: Mat, s: real, f: Vec): Mat {
    Sum(Scale(s, m), Outer(f, f))
  }

  lemma Distribute(x: real, y: real, z: real)
    ensures (x + y) * z == x * z + y * z && z * (x + y) == z * x + z * y
  {
  }

  lemma Associate(x: real, y: real, z: real)
    ensures (x * y) * z == x * (y * z)
  {
  }

  /** A common factor of two products. */
  lemma Factor(s: real, a: real, x: real, b: real, y: real)
    ensures (s * a) * x + (s * b) * y == s * (a * x + b * y)
  {
    Associate(s, a, x);
    Associate(s, b, y);
    Distribute(a * x, b * y, s);
  }

  lemma Commute(x: real, y: real)
    ensures x * y == y * x
  {
  }

  lemma ApplySum(m: Mat, n: Mat, v: Vec)
    ensures Apply(Sum(m, n), v) == Plus(Apply(m, v), Apply(n, v))
  {
    Distribute(m.a, n.a, v.x);
    Distribute(m.b, n.b, v.y);
    Distribute(m.c, n.c, v.x);
    Distribute(m.d, n.d, v.y);
  }

  lemma ApplyScale(s: real, m: Mat, v: Vec)
    ensures Apply(Scale(s, m), v) == Times(s, Apply(m, v))
  {
    Factor(s, m.a, v.x, m.b, v.y);
    Factor(s, m.c, v.x, m.d, v.y);
  }

  lemma ApplyOuter(g: Vec, f: Vec, v: Vec)
    ensures Apply(Outer(g, f), v) == Times(Dot(f, v), g)
  {
    Factor(g.x, f.x, v.x, f.y, v.y);
    Factor(g.y, f.x, v.x, f.y, v.y);
    Commute(g.x, Dot(f, v));
    Commute(g.y, Dot(f, v));
  }

  lemma ApplyUpdated(m: Mat, s: real, f: Vec, v: Vec)
    ensures Apply(Updated(m, s, f), v) == Plus(Times(s, Apply(m, v)), Times(Dot(f, v), f))
  {
    ApplySum(Scale(s, m), Outer(f, f), v);
    ApplyScale(s, m, v);
    ApplyOuter(f, f, v);
    hide Apply, Sum, Scale, Outer, Dot, Times;
  }

  // Columns: a product of matrices is an application to each column.

  function Left(m: Mat): Vec { Vec(m.a, m.c) }

  function Right(m: Mat): Vec { Vec(m.b, m.d) }

  lemma MulColumns(m: Mat, n: Mat)
    ensures Left(Mul(m, n)) == Apply(m, Left(n)) && Right(Mul(m, n)) == Apply(m, Right(n))
  {
  }

  lemma ByColumns(m: Mat, n: Mat)
    requires Left(m) == Left(n) && Right(m) == Right(n)
    ensures m == n
  {
  }

  lemma SumColumns(m: Mat, n: Mat)
    ensures Left(Sum(m, n)) == Plus(Left(m), Left(n)) && Right(Sum(m, n)) == Plus(Right(m), Right(n))
    ensures Left(Difference(m, n)) == Minus(Left(m), Left(n)) && Right(Difference(m, n)) == Minus(Right(m), Right(n))
  {
  }

  lemma ScaleColumns(s: real, m: Mat)
    ensures Left(Scale(s, m)) == Times(s, Left(m)) && Right(Scale(s, m)) == Times(s, Right(m))
  {
  }

  lemma MulUpdated(m: Mat, s: real, f: Vec, n: Mat)
    ensures Mul(Updated(m, s, f), n) == Sum(Scale(s, Mul(m, n)), Mul(Outer(f, f), n))
  {
    var u := Updated(m, s, f);
    MulColumns(u, n);
    MulColumns(m, n);
    MulColumns(Outer(f, f), n);
    SumColumns(Scale(s, Mul(m, n)), Mul(Outer(f, f), n));
    ScaleColumns(s, Mul(m, n));
    ApplyUpdated(m, s, f, Left(n));
    ApplyUpdated(m, s, f, Right(n));
    ApplyOuter(f, f, Left(n));
    ApplyOuter(f, f, Right(n));
    hide *;
    ByColumns(Mul(u, n), Sum(Scale(s, Mul(m, n)), Mul(Outer(f, f), n)));
  }

  lemma RowDifference(a: real, x: real, u: real, b: real, y: real, w: real)
    ensures a * (x - u) + b * (y - w) == (a * x + b * y) - (a * u + b * w)
  {
    assert a * (x - u) == a * x - a * u;
    assert b * (y - w) == b * y - b * w;
  }

  lemma MulDifference(m: Mat, n: Mat, k: Mat)
    ensures Mul(m, Difference(n, k)) == Difference(Mul(m, n), Mul(m, k))
  {
    RowDifference(m.a, n.a, k.a, m.b, n.c, k.c);
    RowDifference(m.a, n.b, k.b, m.b, n.d, k.d);
    RowDifference(m.c, n.a, k.a, m.d, n.c, k.c);
    RowDifference(m.c, n.b, k.b, m.d, n.d, k.d);
  }

  lemma MulOuter(m: Mat, g: Vec, f: Vec, n: Mat)
    ensures Mul(m, Mul(Outer(g, f), n)) == Mul(Outer(Apply(m, g), f), n)
  {
    var o, h := Mul(Outer(g, f), n), Apply(m, g);
    MulColumns(m, o);
    MulColumns(Outer(g, f), n);
    MulColumns(Outer(h, f), n);
    ApplyOuter(g, f, Left(n));
    ApplyOuter(g, f, Right(n));
    ApplyOuter(h, f, Left(n));
    ApplyOuter(h, f, Right(n));
    ApplyTimes(m, Dot(f, Left(n)), g);
    ApplyTimes(m, Dot(f, Right(n)), g);
    hide *;
    ByColumns(Mul(m, o), Mul(Outer(h, f), n));
  }

  lemma PullFactor(s: real, a: real, x: real, b: real, y: real)
    ensures a * (s * x) + b * (s * y) == s * (a * x + b * y)
  {
    assert a * (s * x) == s * (a * x);
    assert b * (s * y) == s * (b * y);
    Distribute(a * x, b * y, s);
  }

  lemma MulScale(m: Mat, s: real, n: Mat)
    ensures Mul(m, Scale(s, n)) == Scale(s, Mul(m, n))
  {
    MulColumns(m, Scale(s, n));
    MulColumns(m, n);
    ScaleColumns(s, n);
    ScaleColumns(s, Mul(m, n));
    ApplyTimes(m, s, Left(n));
    ApplyTimes(m, s, Right(n));
    hide *;
    ByColumns(Mul(m, Scale(s, n)), Scale(s, Mul(m, n)));
  }

  lemma SumDifference(m: Mat, n: Mat)
    ensures Difference(Sum(m, n), n) == m
  {
  }

  lemma DotPlus(v: Vec, u: Vec, w: Vec)
    ensures Dot(v, Plus(u, w)) == Dot(v, u) + Dot(v, w)
  {
    Distribute(u.x, w.x, v.x);
    Distribute(u.y, w.y, v.y);
  }

  lemma DotTimes(v: Vec, s: real, u: Vec)
    ensures Dot(v, Times(s, u)) == s * Dot(v, u)
  {
    PullFactor(s, v.x, u.x, v.y, u.y);
  }

  lemma DotCommutes(u: Vec, v: Vec)
    ensures Dot(u, v) == Dot(v, u)
  {
  }

  lemma QuadUpdated(m: Mat, s: real, f: Vec, v: Vec)
    ensures Quad(Updated(m, s, f), v) == s * Quad(m, v) + Dot(f, v) * Dot(f, v)
  {
    ApplyUpdated(m, s, f, v);
    hide Apply, Updated, Dot, Times, Plus;
    DotPlus(v, Times(s, Apply(m, v)), Times(Dot(f, v), f));
    DotTimes(v, s, Apply(m, v));
    DotTimes(v, Dot(f, v), f);
    DotCommutes(v, f);
  }

  // ----- Inverses -----

  function Inverse(m: Mat): Mat
    requires Det(m) != 0.0
  {
    Mat(m.d / Det(m), -m.b / Det(m), -m.c / Det(m), m.a / Det(m))
  }

  lemma QuotientTimes(x: real, y: real, s: real)
    requires s != 0.0
    ensures s * ((x / s) * y) == x * y && s * (y * (x / s)) == x * y
  {
    var q := x / s;
    assert s * q == x;
    Associate(s, q, y);
    Commute(q, y);
  }

  lemma QuotientEntry(x: real, y: real, z: real, w: real, s: real, t: real)
    requires s != 0.0 && x * y + z * w == s * t
    ensures (x / s) * y + (z / s) * w == t && y * (x / s) + w * (z / s) == t
  {
    QuotientTimes(x, y, s);
    QuotientTimes(z, w, s);
    Distribute((x / s) * y, (z / s) * w, s);
    Distribute(y * (x / s), w * (z / s), s);
    Cancel(s, (x / s) * y + (z / s) * w, t);
    Cancel(s, y * (x / s) + w * (z / s), t);
  }

  lemma InverseOnLeft(m: Mat, s: real)
    requires s == m.a * m.d - m.b * m.c && s != 0.0
    ensures Mul(Mat(m.d / s, -m.b / s, -m.c / s, m.a / s), m) == IDENTITY
  {
    QuotientEntry(m.d, m.a, -m.b, m.c, s, 1.0);
    QuotientEntry(m.d, m.b, -m.b, m.d, s, 0.0);
    QuotientEntry(-m.c, m.a, m.a, m.c, s, 0.0);
    QuotientEntry(-m.c, m.b, m.a, m.d, s, 1.0);
  }

  lemma InverseOnRight(m: Mat, s: real)
    requires s == m.a * m.d - m.b * m.c && s != 0.0
    ensures Mul(m, Mat(m.d / s, -m.b / s, -m.c / s, m.a / s)) == IDENTITY
  {
    QuotientEntry(m.d, m.a, -m.c, m.b, s, 1.0);
    QuotientEntry(-m.b, m.a, m.a, m.b, s, 0.0);
    QuotientEntry(m.d, m.c, -m.c, m.d, s, 0.0);
    QuotientEntry(-m.b, m.c, m.a, m.d, s, 1.0);
  }

  lemma InverseUndoes(m: Mat)
    requires Det(m) != 0.0
    ensures Mul(Inverse(m), m) == IDENTITY && Mul(m, Inverse(m)) == IDENTITY
  {
    InverseOnLeft(m, Det(m));
    InverseOnRight(m, Det(m));
    hide Mul;
  }

  lemma MulAssociates(m: Mat, n: Mat, k: Mat)
    ensures Mul(m, Mul(n, k)) == Mul(Mul(m, n), k)
  {
    MulColumns(n, k);
    MulColumns(m, Mul(n, k));
    MulColumns(Mul(m, n), k);
    ApplyMul(m, n, Left(k));
    ApplyMul(m, n, Right(k));
    hide *;
    ByColumns(Mul(m, Mul(n, k)), Mul(Mul(m, n), k));
  }

  lemma InverseIsUnique(m: Mat, n: Mat)
    requires Det(m) != 0.0 && Mul(m, n) == IDENTITY
    ensures n == Inverse(m)
  {
    InverseUndoes(m);
    MulAssociates(Inverse(m), m, n);
    MulIdentity(n);
    MulIdentity(Inverse(m));
    hide *;
  }

  lemma MulIdentity(m: Mat)
    ensures Mul(IDENTITY, m) == m && Mul(m, IDENTITY) == m
  {
  }
}
