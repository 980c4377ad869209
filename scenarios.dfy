/** Worked runs of the whole pipeline on small synthetic trajectories: two
    18-atom chains, with a dihedral that reports the x coordinate of the
    window's first atom, so each frame's angles are chosen outright. */
module Scenarios {
  import opened Angles
  import opened Layout
  import opened Tally

  /** A frame of `nAtoms` atoms whose every window reads as `angle`. */
  function FlatFrame(nAtoms: nat, angle: real): (f: Frame)
    ensures |f| == nAtoms
  {
    seq(nAtoms, _ => Point(angle, 0.0, 0.0))
  }

  function FirstX(p0: Point, p1: Point, p2: Point, p3: Point): real
  {
    p0.x
  }

  /** Every chain of a flat frame is classified by its one angle. */
  lemma {:induction false} FlatChainHits(angle: real, upto: nat, j: nat)
    requires upto <= 2 && j < 15
    ensures ChainHits(FlatFrame(36, angle), 2, 18, upto, j, FirstX)
         == if IsGauche(Wrap(angle)) then upto else 0
  {
    if upto > 0 {
      FlatChainHits(angle, upto - 1, j);
      var w := Window(FlatFrame(36, angle), 18, upto - 1, j);
      assert w[0] == Point(angle, 0.0, 0.0);
    }
  }

  /** One frame with every dihedral at 60 degrees (gauche), then two with
      every dihedral at 180 degrees (trans), nothing skipped: every position
      is gauche in one third of the samples. */
  lemma OneGaucheFrameInThree()
    ensures Profile([FlatFrame(36, 60.0), FlatFrame(36, 180.0), FlatFrame(36, 180.0)], 36, Config(18, 0), FirstX)
         == Success(seq(15, _ => 1.0 / 3.0))
  {
    var t := [FlatFrame(36, 60.0), FlatFrame(36, 180.0), FlatFrame(36, 180.0)];
    WrapFixesRange(60.0);
    WrapOfHalfTurn();
    assert RetainedFrames(3, 0) == 3;
    forall j | 0 <= j < 15
      ensures Hits(t, 2, 18, 0, 3, j, FirstX) == 2
    {
      FlatChainHits(60.0, 2, j);
      FlatChainHits(180.0, 2, j);
      assert Hits(t, 2, 18, 0, 1, j, FirstX) == 2;
      assert Hits(t, 2, 18, 0, 2, j, FirstX) == 2;
    }
    var p := Profile(t, 36, Config(18, 0), FirstX);
    assert p.Success?;
    assert p.value == seq(15, _ => 1.0 / 3.0);
  }

  /** With every frame skipped there is no sample, whatever the frames hold. */
  lemma AllSkipped(angle: real)
    ensures Profile([FlatFrame(36, angle), FlatFrame(36, angle)], 36, Config(18, 2), FirstX)
         == Failure(EmptySample)
  {
  }
}
