/** The mathematics the controllers use, over exact real numbers. */
module MathLib {

  /** What the C library supplies: the constant pi and the square root. The model holds for any
      positive pi and for any function that squares back to its argument. */
  datatype Libm = Libm(pi: real, sqrt: real -> real) {
    ghost predicate Valid() {
      pi > 0.0 && forall x :: x >= 0.0 ==> sqrt(x) >= 0.0 && sqrt(x) * sqrt(x) == x
    }
  }

  function Abs(x: real): real {
    if x < 0.0 then -x else x
  }

  function Min(x: real, y: real): real {
    if x < y then x else y
  }

  function Max(x: real, y: real): real {
    if x > y then x else y
  }

  /** `constrain_float`; the lower bound is tested first. */
  function Constrain(x: real, lo: real, hi: real): real {
    if x < lo then lo else if x > hi then hi else x
  }

  lemma MulMonotone(y: real, a: real, b: real)
    requires y > 0.0
    ensures a <= b <==> y * a <= y * b
    ensures a < b <==> y * a < y * b
  {
    var d := b - a;
    assert y * b == y * a + y * d;
  }

  lemma SameFactor(c: real, x: real, y: real)
    requires c > 0.0 && c * x == c * y
    ensures x == y
  {
  }

  lemma SquaresOrdered(x: real, y: real)
    requires x >= 0.0 && y >= 0.0
    ensures x <= y <==> x * x <= y * y
  {
    if x + y > 0.0 {
      MulMonotone(x + y, x, y);
      assert (x + y) * y - (x + y) * x == y * y - x * x;
    }
  }

  // ----- angles

  /** `k` full turns. */
  function Turns(pi: real, k: int): real {
    2.0 * pi * (k as real)
  }

  /** How many turns bring the angle into (-pi, pi]. */
  function Winding(pi: real, angle: real): int
    requires pi > 0.0
  {
    ((pi - angle) / (2.0 * pi)).Floor
  }

  /** `normalize_angle`, which is atan2(sin, cos): the representative in (-pi, pi]. */
  function NormalizeAngle(pi: real, angle: real): real
    requires pi > 0.0
  {
    angle + Turns(pi, Winding(pi, angle))
  }

  /** `a` and `b` are the same direction: they differ by `k` full turns. */
  predicate TurnsApart(pi: real, a: real, b: real, k: int) {
    a == b + Turns(pi, k)
  }

  ghost predicate SameDirection(pi: real, a: real, b: real) {
    exists k: int :: TurnsApart(pi, a, b, k)
  }

  predicate IsNormalized(pi: real, angle: real) {
    -pi < angle <= pi
  }

  lemma QuotientTimesDivisor(x: real, y: real)
    requires y > 0.0
    ensures y * (x / y) == x
  {
  }

  lemma ScaledBracket(x: real, y: real, q: real, d: real)
    requires y > 0.0 && 0.0 <= d < 1.0 && y * q == x
    ensures y * (q - d) <= x < y * (q - d) + y
  {
    assert y * (q - d) == y * q - y * d;
    assert 0.0 <= y * d;
    assert y * (1.0 - d) > 0.0;
  }

  lemma WindingBrackets(pi: real, angle: real, k: int)
    requires pi > 0.0 && k == Winding(pi, angle)
    ensures Turns(pi, k) <= pi - angle < Turns(pi, k) + 2.0 * pi
  {
    var y, q := 2.0 * pi, (pi - angle) / (2.0 * pi);
    QuotientTimesDivisor(pi - angle, y);
    ScaledBracket(pi - angle, y, q, q - k as real);
    assert Turns(pi, k) == y * (q - (q - k as real));
    hide Turns;
  }

  lemma TurnsAdd(pi: real, k: int, l: int)
    ensures Turns(pi, k + l) == Turns(pi, k) + Turns(pi, l)
    ensures Turns(pi, -k) == -Turns(pi, k)
    ensures Turns(pi, 0) == 0.0 && Turns(pi, 1) == 2.0 * pi
  {
    assert (k + l) as real == k as real + l as real;
    assert 2.0 * pi * (k as real + l as real) == 2.0 * pi * (k as real) + 2.0 * pi * (l as real);
  }

  /** A whole number of turns that is shorter than one turn is none. */
  lemma NoPartialTurn(pi: real, k: int)
    requires pi > 0.0 && -2.0 * pi < Turns(pi, k) < 2.0 * pi
    ensures k == 0
  {
    var y := 2.0 * pi;
    MulMonotone(y, -1.0, k as real);
    MulMonotone(y, k as real, 1.0);
  }

  lemma NormalizeAngleIsNormalized(pi: real, angle: real)
    requires pi > 0.0
    ensures IsNormalized(pi, NormalizeAngle(pi, angle))
    ensures SameDirection(pi, NormalizeAngle(pi, angle), angle)
  {
    hide Turns, Winding;
    var k := Winding(pi, angle);
    WindingBrackets(pi, angle, k);
    assert TurnsApart(pi, NormalizeAngle(pi, angle), angle, k);
  }

  lemma NormalizedIsUnique(pi: real, a: real, b: real)
    requires pi > 0.0 && IsNormalized(pi, a) && IsNormalized(pi, b) && SameDirection(pi, a, b)
    ensures a == b
  {
    hide Turns;
    var k: int :| TurnsApart(pi, a, b, k);
    NoPartialTurn(pi, k);
    TurnsAdd(pi, 0, 0);
  }

  lemma SameDirectionSymmetric(pi: real, a: real, b: real)
    requires SameDirection(pi, a, b)
    ensures SameDirection(pi, b, a)
  {
    hide Turns;
    var k: int :| TurnsApart(pi, a, b, k);
    TurnsAdd(pi, k, 0);
    assert TurnsApart(pi, b, a, -k);
  }

  lemma SameDirectionAdds(pi: real, a: real, b: real, c: real, d: real)
    requires SameDirection(pi, a, b) && SameDirection(pi, c, d)
    ensures SameDirection(pi, a + c, b + d)
  {
    hide Turns;
    var k: int :| TurnsApart(pi, a, b, k);
    var l: int :| TurnsApart(pi, c, d, l);
    TurnsAdd(pi, k, l);
    assert TurnsApart(pi, a + c, b + d, k + l);
  }

  lemma SameDirectionReflexive(pi: real, a: real)
    ensures SameDirection(pi, a, a)
  {
    TurnsAdd(pi, 0, 0);
    assert TurnsApart(pi, a, a, 0);
  }

  lemma SameDirectionTransitive(pi: real, a: real, b: real, c: real)
    requires SameDirection(pi, a, b) && SameDirection(pi, b, c)
    ensures SameDirection(pi, a, c)
  {
    hide Turns;
    SameDirectionAdds(pi, a, b, b, c);
    var k: int :| TurnsApart(pi, a + b, b + c, k);
    assert TurnsApart(pi, a, c, k);
  }

  /** Angles that point the same way normalise to the same number. */
  lemma NormalizeAgrees(pi: real, a: real, b: real)
    requires pi > 0.0 && SameDirection(pi, a, b)
    ensures NormalizeAngle(pi, a) == NormalizeAngle(pi, b)
  {
    hide NormalizeAngle, SameDirection;
    var x, y := NormalizeAngle(pi, a), NormalizeAngle(pi, b);
    NormalizeAngleIsNormalized(pi, a);
    NormalizeAngleIsNormalized(pi, b);
    SameDirectionSymmetric(pi, y, b);
    SameDirectionTransitive(pi, x, a, b);
    SameDirectionTransitive(pi, x, b, y);
    NormalizedIsUnique(pi, x, y);
  }

  /** The normalised angle is the only one in (-pi, pi] that points the same way. */
  lemma NormalizeCharacterised(pi: real, angle: real, r: real)
    requires pi > 0.0
    ensures r == NormalizeAngle(pi, angle) <==> IsNormalized(pi, r) && SameDirection(pi, r, angle)
  {
    hide NormalizeAngle, SameDirection;
    NormalizeAngleIsNormalized(pi, angle);
    if IsNormalized(pi, r) && SameDirection(pi, r, angle) {
      NormalizeAgrees(pi, r, angle);
      SameDirectionReflexive(pi, r);
      NormalizeAngleIsNormalized(pi, r);
      NormalizedIsUnique(pi, NormalizeAngle(pi, r), r);
    }
  }
}
