/** How one frame's flat atom array is cut into chains and 4-atom windows
    (Gauche-Function-Analysis.py, lines 20-21 and 35-40). A frame is the
    ordered sequence of atom positions; chain `i` is the contiguous block
    starting at `i * atomsPerChain`; window `j` of a chain is its atoms
    `j .. j + 3`. */
module Layout {

  /** One atom position, in length units. */
  datatype Point = Point(x: real, y: real, z: real)

  /** One snapshot of all atom positions. */
  type Frame = seq<Point>

  /** The dihedral angle, in degrees, of four points taken in chain order.
      The geometry itself is outside the model: it is a parameter. */
  type Dihedral = (Point, Point, Point, Point) -> real

  /** The number of dihedral positions along one chain. */
  function DihedralsPerChain(atomsPerChain: nat): nat
    requires atomsPerChain >= 3
  {
    atomsPerChain - 3
  }

  /** Chain `i`'s block ends no later than the last chain's does. */
  lemma {:induction false} ChainInside(i: nat, nChains: nat, atomsPerChain: nat)
    requires i < nChains
    ensures i * atomsPerChain + atomsPerChain <= nChains * atomsPerChain
    decreases nChains - i
  {
    if i + 1 < nChains {
      ChainInside(i + 1, nChains, atomsPerChain);
    }
  }

  /** The block of `atomsPerChain` atoms that forms chain `i`. */
  function Chain(frame: Frame, atomsPerChain: nat, i: nat): (c: seq<Point>)
    requires i * atomsPerChain + atomsPerChain <= |frame|
    ensures |c| == atomsPerChain
    ensures forall t :: 0 <= t < atomsPerChain ==> c[t] == frame[i * atomsPerChain + t]
  {
    frame[i * atomsPerChain .. i * atomsPerChain + atomsPerChain]
  }

  /** The four atoms of window `j` of chain `i`, read through the chain's block
      exactly as the source reads them. */
  function Window(frame: Frame, atomsPerChain: nat, i: nat, j: nat): (w: seq<Point>)
    requires j + 3 < atomsPerChain
    requires i * atomsPerChain + atomsPerChain <= |frame|
    ensures |w| == 4
    ensures forall t :: 0 <= t < 4 ==> w[t] == frame[i * atomsPerChain + j + t]
  {
    var c := Chain(frame, atomsPerChain, i);
    [c[j], c[j + 1], c[j + 2], c[j + 3]]
  }

  /** Every atom a window reads lies inside its own chain's block and below
      the atom count, for every chain `i < nChains` and position
      `j < atomsPerChain - 3`. */
  lemma WindowInChain(nAtoms: nat, atomsPerChain: nat, i: nat, j: nat, t: nat)
    requires atomsPerChain >= 3 && nAtoms % atomsPerChain == 0
    requires i < nAtoms / atomsPerChain
    requires j < DihedralsPerChain(atomsPerChain) && t < 4
    ensures i * atomsPerChain <= i * atomsPerChain + j + t < i * atomsPerChain + atomsPerChain
    ensures i * atomsPerChain + atomsPerChain <= nAtoms
  {
    ChainInside(i, nAtoms / atomsPerChain, atomsPerChain);
  }

  /** Windows `j` and `j + 1` of a chain overlap in three atoms. */
  lemma WindowsOverlap(frame: Frame, atomsPerChain: nat, i: nat, j: nat)
    requires j + 4 < atomsPerChain
    requires i * atomsPerChain + atomsPerChain <= |frame|
    ensures Window(frame, atomsPerChain, i, j)[1..] == Window(frame, atomsPerChain, i, j + 1)[..3]
  {
  }
}
