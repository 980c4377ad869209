/** Angle normalisation and the gauche band test applied to every dihedral
    (Gauche-Function-Analysis.py, lines 42 and 44). Angles are degrees, as
    `real`; Python's `%` with a positive modulus is the floored remainder,
    written out here with `Floor`. */
module Angles {

  /** The source's wrap `(a + 180) % 360 - 180`. The result lies in the
      half-open interval [-180, 180): 180 itself is sent to -180. */
  function Wrap(a: real): (r: real)
    ensures -180.0 <= r < 180.0
  {
    var s := a + 180.0;
    s - 360.0 * (s / 360.0).Floor as real - 180.0
  }

  /** `k` whole turns, in degrees. */
  function FullTurns(k: int): real
  {
    360.0 * k as real
  }

  /** The number of whole turns the wrap removes from `a`. */
  function Turns(a: real): int
  {
    ((a + 180.0) / 360.0).Floor
  }

  /** The gauche band test: [-90, -30] or [30, 90], all four ends included. */
  predicate IsGauche(a: real)
  {
    (-90.0 <= a <= -30.0) || (30.0 <= a <= 90.0)
  }

  function Abs(a: real): real
  {
    if a < 0.0 then -a else a
  }

  /** The wrap only removes whole turns: the result is congruent to `a` modulo 360. */
  lemma WrapCongruent(a: real)
    ensures Wrap(a) == a - FullTurns(Turns(a))
    ensures exists k: int :: Wrap(a) == a + FullTurns(k)
  {
    var k := -Turns(a);
    assert Wrap(a) == a + FullTurns(k);
  }

  /** On [-180, 180) the wrap changes nothing. */
  lemma WrapFixesRange(a: real)
    requires -180.0 <= a < 180.0
    ensures Wrap(a) == a
  {
  }

  /** Wrapping twice is wrapping once. */
  lemma WrapIdempotent(a: real)
    ensures Wrap(Wrap(a)) == Wrap(a)
  {
  }

  /** The wrap is the only value in [-180, 180) that differs from `a` by whole
      turns: any such value equals `Wrap(a)`. */
  lemma {:induction false} WrapUnique(a: real, r: real, k: int)
    requires -180.0 <= r < 180.0
    requires r == a + FullTurns(k)
    ensures r == Wrap(a)
  {
    var t := Turns(a);
    var s := a + 180.0;
    assert t as real <= s / 360.0 < t as real + 1.0;
    assert 0.0 <= r + 180.0 < 360.0;
    // r + 180 == s + 360 k, so s / 360 lies in [-k, -k + 1)
    assert -k as real <= s / 360.0 < -k as real + 1.0;
    assert t == -k;
  }

  /** Angles a whole number of turns apart wrap to the same value. */
  lemma {:induction false} WrapPeriodic(a: real, k: int)
    ensures Wrap(a + FullTurns(k)) == Wrap(a)
  {
    WrapCongruent(a + FullTurns(k));
    var t := Turns(a + FullTurns(k));
    WrapUnique(a, Wrap(a + FullTurns(k)), k - t);
  }

  /** The classification of a raw angle depends only on its value modulo 360. */
  lemma GauchePeriodic(a: real, k: int)
    ensures IsGauche(Wrap(a + FullTurns(k))) == IsGauche(Wrap(a))
  {
    WrapPeriodic(a, k);
  }

  /** The band test is a magnitude test: gauche exactly when 30 <= |a| <= 90,
      so it is symmetric in the sign of the angle. */
  lemma GaucheByMagnitude(a: real)
    ensures IsGauche(a) <==> 30.0 <= Abs(a) <= 90.0
    ensures IsGauche(-a) == IsGauche(a)
  {
  }

  /** All four band ends count as gauche; just outside them does not. */
  lemma GaucheBoundaries(e: real)
    requires 0.0 < e <= 30.0
    ensures IsGauche(-90.0) && IsGauche(-30.0) && IsGauche(30.0) && IsGauche(90.0)
    ensures !IsGauche(-90.0 - e) && !IsGauche(-30.0 + e) && !IsGauche(30.0 - e) && !IsGauche(90.0 + e)
  {
  }

  /** The wrap sends 180 to -180: the interval the wrap produces is closed
      below and open above, and neither end is gauche. */
  lemma WrapOfHalfTurn()
    ensures Wrap(180.0) == -180.0 && Wrap(-180.0) == -180.0
    ensures !IsGauche(Wrap(180.0))
  {
  }
}
