/** The numeric primitives the engine takes from JavaScript's `Math` object.

    Sine, cosine, atan2 and the square root cannot be defined in Dafny, and the
    exact value of pi is not a rational number. The model therefore keeps them
    abstract: a `Math` value carries four real functions and a positive constant
    pi, and the laws those functions obey are stated as hypotheses (`Lawful`,
    `Circular`) that a lemma takes as a precondition. Real trigonometry satisfies
    every one of them. */
module JsMath {

  type Positive = x: real | x > 0.0 witness 1.0

  /** JavaScript's `v ** 2`. */
  function Square(v: real): real {
    v * v
  }

  /** Stand-in for `Math.sin`, `Math.cos`, `Math.atan2`, `Math.sqrt` and `Math.PI`. */
  datatype Math = Math(
    sin: real -> real,
    cos: real -> real,
    atan2: (real, real) -> real,
    sqrt: real -> real,
    pi: Positive)

  /** Sine and cosine lie in [-1, 1] and sin^2 + cos^2 = 1. */
  ghost predicate TrigAt(m: Math, x: real) {
    && -1.0 <= m.cos(x) <= 1.0
    && -1.0 <= m.sin(x) <= 1.0
    && Square(m.sin(x)) + Square(m.cos(x)) == 1.0
  }

  /** The square root of a non-negative number is non-negative and squares back to it. */
  ghost predicate SqrtAt(m: Math, x: real) {
    0.0 <= x ==> 0.0 <= m.sqrt(x) && Square(m.sqrt(x)) == x
  }

  /** atan2 lies in (-pi, pi]. */
  ghost predicate Atan2At(m: Math, y: real, x: real) {
    -(m.pi as real) < m.atan2(y, x) <= m.pi
  }

  /** The basic laws, together with cos 0 = 1. Each law is wrapped in a
      predicate so that it is used only where a proof names it. */
  ghost predicate Lawful(m: Math) {
    && (forall x: real :: TrigAt(m, x))
    && m.cos(0.0) == 1.0
    && (forall x: real :: SqrtAt(m, x))
    && (forall y: real, x: real :: Atan2At(m, y, x))
  }

  /** The laws of `Lawful` at one point, for use inside function bodies. */
  lemma TrigLaws(m: Math, x: real)
    ensures Lawful(m) ==> TrigAt(m, x)
  {
  }

  lemma SqrtLaws(m: Math, x: real)
    ensures Lawful(m) ==> SqrtAt(m, x)
  {
  }

  lemma Atan2Laws(m: Math, y: real, x: real)
    ensures Lawful(m) ==> Atan2At(m, y, x)
  {
  }

  /** Sine and cosine repeat after 2 pi. */
  ghost predicate PeriodicAt(m: Math, a: real) {
    m.cos(a + 2.0 * m.pi) == m.cos(a) && m.sin(a + 2.0 * m.pi) == m.sin(a)
  }

  /** Cosine is even. */
  ghost predicate CosEvenAt(m: Math, a: real) {
    m.cos(-a) == m.cos(a)
  }

  /** The cosine of a difference. */
  ghost predicate CosOfDifference(m: Math, a: real, b: real) {
    m.cos(a - b) == m.cos(a) * m.cos(b) + m.sin(a) * m.sin(b)
  }

  /** Cosine does not increase on [0, pi]. */
  ghost predicate CosDecreasingOn(m: Math, a: real, b: real) {
    0.0 <= a <= b <= m.pi ==> m.cos(b) <= m.cos(a)
  }

  /** atan2 gives the polar angle of a non-zero vector. */
  ghost predicate PolarAt(m: Math, y: real, x: real) {
    Square(x) + Square(y) > 0.0 ==>
      m.sqrt(Square(x) + Square(y)) * m.cos(m.atan2(y, x)) == x &&
      m.sqrt(Square(x) + Square(y)) * m.sin(m.atan2(y, x)) == y
  }

  /** The basic laws together with periodicity, evenness, the difference
      formula and monotonicity of cosine, cos(pi/2) = 0, and the polar reading
      of atan2. */
  ghost predicate Circular(m: Math) {
    && Lawful(m)
    && m.cos(m.pi / 2.0) == 0.0
    && (forall a: real :: PeriodicAt(m, a))
    && (forall a: real :: CosEvenAt(m, a))
    && (forall a: real, b: real :: CosOfDifference(m, a, b))
    && (forall a: real, b: real :: CosDecreasingOn(m, a, b))
    && (forall y: real, x: real :: PolarAt(m, y, x))
  }

  /** Squaring is strictly increasing on the non-negative reals. */
  lemma SquareStrictlyMonotone(a: real, b: real)
    requires 0.0 <= a < b
    ensures Square(a) < Square(b)
  {
    var d := b - a;
    assert b == a + d;
    assert Square(b) == Square(a) + 2.0 * a * d + d * d;
  }

  /** x^2 + y^2 = r^2 for the point at angle a on the circle of radius r. */
  lemma OnCircle(m: Math, r: real, a: real)
    ensures Lawful(m) ==> Square(r * m.cos(a)) + Square(r * m.sin(a)) == Square(r)
  {
    if Lawful(m) {
      var c, s := m.cos(a), m.sin(a);
      assert TrigAt(m, a);
      calc {
        Square(r * c) + Square(r * s);
        Square(r) * (Square(s) + Square(c));
        Square(r);
      }
    }
  }

  /** A square is never negative, and it is zero only at zero. */
  lemma SquareSign(v: real)
    ensures Square(v) >= 0.0
    ensures Square(v) == 0.0 <==> v == 0.0
  {
    if v > 0.0 {
      SquareStrictlyMonotone(0.0, v);
    } else if v < 0.0 {
      SquareStrictlyMonotone(0.0, -v);
      SquareOfNegation(v);
    }
  }

  lemma SquareOfNegation(v: real)
    ensures Square(-v) == Square(v)
  {
  }

  /** The square root of a positive number is positive. */
  lemma SqrtPositive(m: Math, x: real)
    ensures Lawful(m) && x > 0.0 ==> m.sqrt(x) > 0.0
  {
    if Lawful(m) && x > 0.0 {
      assert SqrtAt(m, x);
      SquareSign(m.sqrt(x));
    }
  }

  /** The dot product of two vectors given in polar form. */
  lemma DotOfPolar(px: real, py: real, qx: real, qy: real,
                   rp: real, cp: real, sp: real, rq: real, cq: real, sq: real)
    requires px == rp * cp && py == rp * sp && qx == rq * cq && qy == rq * sq
    ensures px * qx + py * qy == rp * rq * (cp * cq + sp * sq)
  {
  }

  lemma NonPositiveProduct(a: real, b: real, c: real)
    requires a >= 0.0 && b >= 0.0 && c <= 0.0
    ensures a * b * c <= 0.0
  {
  }

  /** Two vectors in polar form whose angles have a non-positive cosine of
      their difference (given here as cp * cq + sp * sq) have a non-positive dot product. */
  lemma DotOfPolarNonPositive(px: real, py: real, qx: real, qy: real,
                              rp: real, cp: real, sp: real, rq: real, cq: real, sq: real)
    requires px == rp * cp && py == rp * sp && qx == rq * cq && qy == rq * sq
    requires rp >= 0.0 && rq >= 0.0 && cp * cq + sp * sq <= 0.0
    ensures px * qx + py * qy <= 0.0
  {
    DotOfPolar(px, py, qx, qy, rp, cp, sp, rq, cq, sq);
    NonPositiveProduct(rp, rq, cp * cq + sp * sq);
  }

  /** Multiplying by a non-negative factor keeps the order. */
  lemma ScaleMonotone(a: real, b: real, p: real)
    requires a <= b && p >= 0.0
    ensures a * p <= b * p
  {
    assert b * p - a * p == (b - a) * p;
  }

  /** The squared distance between two points, expanded. */
  lemma GapSquared(px: real, py: real, qx: real, qy: real)
    ensures Square(px - qx) + Square(py - qy) ==
      Square(px) + Square(py) + Square(qx) + Square(qy) - 2.0 * (px * qx + py * qy)
  {
  }
}
