/** The counting loop of `main()` as the source runs it
    (Gauche-Function-Analysis.py, lines 16-48): a counter array updated in
    place, window by window, chain by chain, frame by frame, then divided by
    the number of samples. Each method is proved against the functions of
    module Tally. */
module Analysis {
  import opened Angles
  import opened Layout
  import opened Tally

  /** One window's step (lines 42-45): wrap the raw angle, test the band, and
      add one to slot `j` when it is gauche. No other slot changes. */
  method RecordWindow(counts: array<nat>, j: nat, rawAngle: real)
    requires j < counts.Length
    modifies counts
    ensures counts[j] == old(counts[j]) + (if IsGauche(Wrap(rawAngle)) then 1 else 0)
    ensures forall k :: 0 <= k < counts.Length && k != j ==> counts[k] == old(counts[k])
  {
    var angle := Wrap(rawAngle);
    if IsGauche(angle) {
      counts[j] := counts[j] + 1;
    }
  }

  /** One retained frame (lines 35-45): every chain, every window in order.
      Slot `j` grows by the number of chains gauche at position `j`, which is
      at most `nChains`. */
  method ProcessFrame(counts: array<nat>, frame: Frame, nChains: nat, atomsPerChain: nat, dihedral: Dihedral)
    requires atomsPerChain >= 3 && counts.Length == DihedralsPerChain(atomsPerChain)
    requires nChains * atomsPerChain <= |frame|
    modifies counts
    ensures forall j :: 0 <= j < counts.Length ==>
      counts[j] == old(counts[j]) + ChainHits(frame, nChains, atomsPerChain, nChains, j, dihedral)
  {
    var i := 0;
    while i < nChains
      invariant 0 <= i <= nChains
      invariant forall k :: 0 <= k < counts.Length ==>
        counts[k] == old(counts[k]) + ChainHits(frame, nChains, atomsPerChain, i, k, dihedral)
    {
      ChainInside(i, nChains, atomsPerChain);
      var start := i * atomsPerChain;
      var c := frame[start .. start + atomsPerChain];
      var j := 0;
      while j < DihedralsPerChain(atomsPerChain)
        invariant 0 <= j <= counts.Length
        invariant forall k :: 0 <= k < j ==>
          counts[k] == old(counts[k]) + ChainHits(frame, nChains, atomsPerChain, i + 1, k, dihedral)
        invariant forall k :: j <= k < counts.Length ==>
          counts[k] == old(counts[k]) + ChainHits(frame, nChains, atomsPerChain, i, k, dihedral)
      {
        assert Window(frame, atomsPerChain, i, j) == [c[j], c[j + 1], c[j + 2], c[j + 3]];
        RecordWindow(counts, j, dihedral(c[j], c[j + 1], c[j + 2], c[j + 3]));
        j := j + 1;
      }
      i := i + 1;
    }
  }

  /** The whole of `main()`'s computation: the divisibility check before any
      frame is read, the frame loop that skips frames below `skipFrames`, and
      the division by `frameCount * nChains`. */
  method Analyze(trajectory: seq<Frame>, nAtoms: nat, config: Config, dihedral: Dihedral) returns (r: Result<seq<real>>)
    requires config.atomsPerChain >= 3 && Uniform(trajectory, nAtoms)
    ensures r == Profile(trajectory, nAtoms, config, dihedral)
  {
    var apc := config.atomsPerChain;
    if nAtoms % apc != 0 {
      return Failure(AtomCountNotDivisible(nAtoms, apc));
    }
    var nChains := nAtoms / apc;
    var nDihedrals := DihedralsPerChain(apc);
    var counts := new nat[nDihedrals](_ => 0);
    var frameCount := 0;

    var index := 0;
    while index < |trajectory|
      invariant 0 <= index <= |trajectory|
      invariant frameCount == RetainedFrames(index, config.skipFrames)
      invariant forall k :: 0 <= k < nDihedrals ==>
        counts[k] == Hits(trajectory, nChains, apc, config.skipFrames, index, k, dihedral)
    {
      if index >= config.skipFrames {
        frameCount := frameCount + 1;
        ProcessFrame(counts, trajectory[index], nChains, apc, dihedral);
      }
      index := index + 1;
    }

    var totalSamples := frameCount * nChains;
    if totalSamples == 0 {
      return Failure(EmptySample);
    }
    var probs := seq(nDihedrals, k requires 0 <= k < nDihedrals reads counts => counts[k] as real / totalSamples as real);
    assert totalSamples == TotalSamples(trajectory, nChains, config.skipFrames);
    assert probs == Profile(trajectory, nAtoms, config, dihedral).value;
    r := Success(probs);
  }
}
