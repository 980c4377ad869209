/** What the counting loop of `main()` computes, stated as functions of the
    whole trajectory (Gauche-Function-Analysis.py, lines 16-48): how many
    frames are kept, how many (frame, chain) pairs are gauche at each
    dihedral position, and the probability profile built from them. */
module Tally {
  import opened Angles
  import opened Layout

  /** The run's configuration: the source's ATOMS_PER_CHAIN and SKIP_FRAMES. */
  datatype Config = Config(atomsPerChain: nat, skipFrames: nat)

  /** The two ways a run can end without a profile. */
  datatype Error =
    | AtomCountNotDivisible(nAtoms: nat, atomsPerChain: nat)
    | EmptySample

  datatype Result<T> = Success(value: T) | Failure(error: Error)

  /** Every frame holds the same `nAtoms` atoms. */
  predicate Uniform(trajectory: seq<Frame>, nAtoms: nat)
  {
    forall f :: 0 <= f < |trajectory| ==> |trajectory[f]| == nAtoms
  }

  /** The number of frames among the first `upto` whose index is at least `skip`. */
  function RetainedFrames(upto: nat, skip: nat): (n: nat)
    ensures n <= upto
  {
    if upto == 0 then 0
    else RetainedFrames(upto - 1, skip) + (if upto - 1 < skip then 0 else 1)
  }

  /** The retained count in closed form: every frame from index `skip` on. */
  lemma {:induction false} RetainedFramesClosedForm(upto: nat, skip: nat)
    ensures RetainedFrames(upto, skip) == if upto <= skip then 0 else upto - skip
  {
    if upto > 0 {
      RetainedFramesClosedForm(upto - 1, skip);
    }
  }

  /** The classification of window `j` of chain `i`: the raw dihedral of its
      four atoms, wrapped, then put through the band test. */
  predicate GaucheAt(frame: Frame, atomsPerChain: nat, i: nat, j: nat, dihedral: Dihedral)
    requires j + 3 < atomsPerChain
    requires i * atomsPerChain + atomsPerChain <= |frame|
  {
    var w := Window(frame, atomsPerChain, i, j);
    IsGauche(Wrap(dihedral(w[0], w[1], w[2], w[3])))
  }

  /** Among chains `0 .. upto - 1` of one frame, how many are gauche at position `j`. */
  function ChainHits(frame: Frame, nChains: nat, atomsPerChain: nat, upto: nat, j: nat, dihedral: Dihedral): (n: nat)
    requires j + 3 < atomsPerChain
    requires upto <= nChains && nChains * atomsPerChain <= |frame|
    ensures n <= upto
  {
    if upto == 0 then 0
    else
      ChainInside(upto - 1, nChains, atomsPerChain);
      ChainHits(frame, nChains, atomsPerChain, upto - 1, j, dihedral)
        + (if GaucheAt(frame, atomsPerChain, upto - 1, j, dihedral) then 1 else 0)
  }

  /** Over frames `0 .. upto - 1`, skipping those below `skip`, how many
      (frame, chain) pairs are gauche at position `j`. Each retained frame adds
      at most one per chain, so the count never exceeds the number of samples. */
  function Hits(trajectory: seq<Frame>, nChains: nat, atomsPerChain: nat, skip: nat, upto: nat, j: nat, dihedral: Dihedral): (n: nat)
    requires j + 3 < atomsPerChain
    requires upto <= |trajectory| && Uniform(trajectory, nChains * atomsPerChain)
    ensures n <= RetainedFrames(upto, skip) * nChains
  {
    if upto == 0 then 0
    else
      MulStep(RetainedFrames(upto - 1, skip), nChains);
      Hits(trajectory, nChains, atomsPerChain, skip, upto - 1, j, dihedral)
        + (if upto - 1 < skip then 0
           else ChainHits(trajectory[upto - 1], nChains, atomsPerChain, nChains, j, dihedral))
  }

  lemma MulStep(r: nat, n: nat)
    ensures (r + 1) * n == r * n + n
  {
  }

  /** The number of (frame, chain) samples: the source's total_samples. */
  function TotalSamples(trajectory: seq<Frame>, nChains: nat, skip: nat): nat
  {
    RetainedFrames(|trajectory|, skip) * nChains
  }

  /** The whole run: the divisibility check, then per position the gauche count
      divided by the number of samples, or EmptySample when there is none. */
  function Profile(trajectory: seq<Frame>, nAtoms: nat, config: Config, dihedral: Dihedral): Result<seq<real>>
    requires config.atomsPerChain >= 3 && Uniform(trajectory, nAtoms)
  {
    var apc := config.atomsPerChain;
    if nAtoms % apc != 0 then Failure(AtomCountNotDivisible(nAtoms, apc))
    else
      var nChains := nAtoms / apc;
      var total := TotalSamples(trajectory, nChains, config.skipFrames);
      if total == 0 then Failure(EmptySample)
      else
        Success(seq(DihedralsPerChain(apc), j requires 0 <= j < DihedralsPerChain(apc) =>
          Hits(trajectory, nChains, apc, config.skipFrames, |trajectory|, j, dihedral) as real / total as real))
  }

  /** The run fails with AtomCountNotDivisible exactly when the atom count is not
      a multiple of the chain length, and with EmptySample exactly when it is but
      no sample exists: no frame at index `skipFrames` or later, or no atoms. */
  lemma ProfileFailsExactly(trajectory: seq<Frame>, nAtoms: nat, config: Config, dihedral: Dihedral)
    requires config.atomsPerChain >= 3 && Uniform(trajectory, nAtoms)
    ensures Profile(trajectory, nAtoms, config, dihedral) == Failure(AtomCountNotDivisible(nAtoms, config.atomsPerChain))
        <==> nAtoms % config.atomsPerChain != 0
    ensures Profile(trajectory, nAtoms, config, dihedral) == Failure(EmptySample)
        <==> nAtoms % config.atomsPerChain == 0 && (|trajectory| <= config.skipFrames || nAtoms == 0)
  {
    RetainedFramesClosedForm(|trajectory|, config.skipFrames);
  }

  /** A successful run gives one probability per dihedral position, each in [0, 1]. */
  lemma ProfileInUnitInterval(trajectory: seq<Frame>, nAtoms: nat, config: Config, dihedral: Dihedral)
    requires config.atomsPerChain >= 3 && Uniform(trajectory, nAtoms)
    requires Profile(trajectory, nAtoms, config, dihedral).Success?
    ensures |Profile(trajectory, nAtoms, config, dihedral).value| == config.atomsPerChain - 3
    ensures forall j :: 0 <= j < config.atomsPerChain - 3 ==>
      0.0 <= Profile(trajectory, nAtoms, config, dihedral).value[j] <= 1.0
  {
    var apc := config.atomsPerChain;
    var nChains := nAtoms / apc;
    var total := TotalSamples(trajectory, nChains, config.skipFrames);
    var p := Profile(trajectory, nAtoms, config, dihedral).value;
    forall j | 0 <= j < apc - 3
      ensures 0.0 <= p[j] <= 1.0
    {
      var h := Hits(trajectory, nChains, apc, config.skipFrames, |trajectory|, j, dihedral);
      assert h <= total;
      assert p[j] == h as real / total as real;
      UnitFraction(h, total);
    }
  }

  lemma UnitFraction(h: nat, total: nat)
    requires 0 < total && h <= total
    ensures 0.0 <= h as real / total as real <= 1.0
  {
  }

  /** Only the retained frames are counted: changing any frame below
      `skip` leaves every partial count unchanged. */
  lemma {:induction false} HitsIgnoreSkipped(t1: seq<Frame>, t2: seq<Frame>, nChains: nat, atomsPerChain: nat, skip: nat, upto: nat, j: nat, dihedral: Dihedral)
    requires j + 3 < atomsPerChain
    requires |t1| == |t2| && upto <= |t1|
    requires Uniform(t1, nChains * atomsPerChain) && Uniform(t2, nChains * atomsPerChain)
    requires forall f :: skip <= f < |t1| ==> t1[f] == t2[f]
    ensures Hits(t1, nChains, atomsPerChain, skip, upto, j, dihedral) == Hits(t2, nChains, atomsPerChain, skip, upto, j, dihedral)
  {
    if upto > 0 {
      HitsIgnoreSkipped(t1, t2, nChains, atomsPerChain, skip, upto - 1, j, dihedral);
    }
  }

  /** Two trajectories that differ only in frames below `skipFrames` give the
      same outcome. */
  lemma ProfileIgnoresSkipped(t1: seq<Frame>, t2: seq<Frame>, nAtoms: nat, config: Config, dihedral: Dihedral)
    requires config.atomsPerChain >= 3
    requires |t1| == |t2| && Uniform(t1, nAtoms) && Uniform(t2, nAtoms)
    requires forall f :: config.skipFrames <= f < |t1| ==> t1[f] == t2[f]
    ensures Profile(t1, nAtoms, config, dihedral) == Profile(t2, nAtoms, config, dihedral)
  {
    var apc := config.atomsPerChain;
    if nAtoms % apc == 0 {
      var nChains := nAtoms / apc;
      assert nChains * apc == nAtoms;
      forall j | 0 <= j < apc - 3
        ensures Hits(t1, nChains, apc, config.skipFrames, |t1|, j, dihedral)
             == Hits(t2, nChains, apc, config.skipFrames, |t2|, j, dihedral)
      {
        HitsIgnoreSkipped(t1, t2, nChains, apc, config.skipFrames, |t1|, j, dihedral);
      }
      var p1, p2 := Profile(t1, nAtoms, config, dihedral), Profile(t2, nAtoms, config, dihedral);
      if p1.Success? {
        assert p1.value == p2.value;
      }
    }
  }
}
