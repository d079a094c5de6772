/**
 * The Euler-characteristic test of Lee, Kashyap and Chu (1994).
 *
 * The 3x3x3 neighbourhood splits into eight overlapping 2x2x2 octants, each
 * holding the centre and seven neighbours. An octant's seven neighbours are
 * packed into a byte whose lowest bit (the centre) is always set; the byte
 * indexes a 256-entry table of Euler-characteristic contributions, and the
 * centre may go only when the eight contributions sum to zero.
 */
module Euler {
  import opened Neighborhood

  /** The values the Euler table uses at odd indices. */
  predicate EulerValue(v: int) {
    v == -7 || v == -3 || v == -1 || v == 1 || v == 3 || v == 5
  }

  // The table entries at the odd indices 1, 3, ..., 255, in four blocks of 32.

  function OddEntries0(): seq<int> {
    [1, -1, -1, 1, -3, -1, -1, 1, -1, 1, 1, -1, 3, 1, 1, -1,
     -3, -1, 3, 1, 1, -1, 3, 1, -1, 1, 1, -1, 3, 1, 1, -1]
  }

  function OddEntries1(): seq<int> {
    [-3, 3, -1, 1, 1, 3, -1, 1, -1, 1, 1, -1, 3, 1, 1, -1,
     1, 3, 3, 1, 5, 3, 3, 1, -1, 1, 1, -1, 3, 1, 1, -1]
  }

  function OddEntries2(): seq<int> {
    [-7, -1, -1, 1, -3, -1, -1, 1, -1, 1, 1, -1, 3, 1, 1, -1,
     -3, -1, 3, 1, 1, -1, 3, 1, -1, 1, 1, -1, 3, 1, 1, -1]
  }

  function OddEntries3(): seq<int> {
    [-3, 3, -1, 1, 1, 3, -1, 1, -1, 1, 1, -1, 3, 1, 1, -1,
     1, 3, 3, 1, 5, 3, 3, 1, -1, 1, 1, -1, 3, 1, 1, -1]
  }

  lemma OddEntriesValues()
    ensures |OddEntries0()| == 32 && forall k :: 0 <= k < 32 ==> EulerValue(OddEntries0()[k])
    ensures |OddEntries1()| == 32 && forall k :: 0 <= k < 32 ==> EulerValue(OddEntries1()[k])
    ensures |OddEntries2()| == 32 && forall k :: 0 <= k < 32 ==> EulerValue(OddEntries2()[k])
    ensures |OddEntries3()| == 32 && forall k :: 0 <= k < 32 ==> EulerValue(OddEntries3()[k])
  {
  }

  /** The table entry at odd index 2 * k + 1. */
  function OddEntry(k: nat): int
    requires k < 128
  {
    if k < 32 then OddEntries0()[k]
    else if k < 64 then OddEntries1()[k - 32]
    else if k < 96 then OddEntries2()[k - 64]
    else OddEntries3()[k - 96]
  }

  /**
   * fill_euler_LUT: zero at every even index (no octant index has its
   * centre bit clear) and a nonzero odd contribution at every odd index.
   */
  function FillEulerLUT(): (lut: seq<int>)
    ensures |lut| == 256
    ensures forall k :: 0 <= k < 128 ==> lut[2 * k] == 0 && EulerValue(lut[2 * k + 1])
    ensures lut[1] == 1 && lut[9] == -3 && lut[105] == 5 && lut[129] == -7 && lut[255] == -1
  {
    OddEntriesValues();
    seq(256, i requires 0 <= i < 256 => if i % 2 == 0 then 0 else OddEntry(i / 2))
  }

  /** The eight octants, named by their x side (E/W), y side (N/S) and z side (U/B). */
  datatype Octant = NEB | NWB | SEB | SWB | NEU | NWU | SEU | SWU

  /** The x-, y- and z-side of an octant: E, S and U are +1; W, N and B are -1. */
  function XSide(o: Octant): int {
    match o
    case NEB | SEB | NEU | SEU => 1
    case NWB | SWB | NWU | SWU => -1
  }
  function YSide(o: Octant): int {
    match o
    case SEB | SWB | SEU | SWU => 1
    case NEB | NWB | NEU | NWU => -1
  }
  function ZSide(o: Octant): int {
    match o
    case NEU | NWU | SEU | SWU => 1
    case NEB | NWB | SEB | SWB => -1
  }

  /**
   * The neighbourhood entries index_octant_* reads, in the order of their
   * weights 128, 64, 32, 16, 8, 4, 2.
   */
  function Positions(o: Octant): (q: seq<nat>)
    ensures |q| == 7
    ensures forall k :: 0 <= k < 7 ==> q[k] < 27 && q[k] != Center
  {
    match o
    case NEB => [2, 1, 11, 10, 5, 4, 14]
    case NWB => [0, 9, 3, 12, 1, 10, 4]
    case SEB => [8, 7, 17, 16, 5, 4, 14]
    case SWB => [6, 15, 7, 16, 3, 12, 4]
    case NEU => [20, 23, 19, 22, 11, 14, 10]
    case NWU => [18, 21, 9, 12, 19, 22, 10]
    case SEU => [26, 23, 17, 14, 25, 22, 16]
    case SWU => [24, 25, 15, 16, 21, 22, 12]
  }

  /** Entry i of the neighbourhood lies in the 2x2x2 block of octant o. */
  predicate InBlock(i: nat, o: Octant) {
    (DX(i) == 0 || DX(i) == XSide(o))
    && (DY(i) == 0 || DY(i) == YSide(o))
    && (DZ(i) == 0 || DZ(i) == ZSide(o))
  }

  // The block check, one octant at a time.
  lemma NEBInBlock()
    ensures forall k :: 0 <= k < 7 ==> InBlock(Positions(NEB)[k], NEB)
  {
  }
  lemma NWBInBlock()
    ensures forall k :: 0 <= k < 7 ==> InBlock(Positions(NWB)[k], NWB)
  {
  }
  lemma SEBInBlock()
    ensures forall k :: 0 <= k < 7 ==> InBlock(Positions(SEB)[k], SEB)
  {
  }
  lemma SWBInBlock()
    ensures forall k :: 0 <= k < 7 ==> InBlock(Positions(SWB)[k], SWB)
  {
  }
  lemma NEUInBlock()
    ensures forall k :: 0 <= k < 7 ==> InBlock(Positions(NEU)[k], NEU)
  {
  }
  lemma NWUInBlock()
    ensures forall k :: 0 <= k < 7 ==> InBlock(Positions(NWU)[k], NWU)
  {
  }
  lemma SEUInBlock()
    ensures forall k :: 0 <= k < 7 ==> InBlock(Positions(SEU)[k], SEU)
  {
  }
  lemma SWUInBlock()
    ensures forall k :: 0 <= k < 7 ==> InBlock(Positions(SWU)[k], SWU)
  {
  }

  /** Each position of an octant lies in the octant's 2x2x2 block. */
  lemma PositionInOctant(o: Octant, k: nat)
    requires k < 7
    ensures InBlock(Positions(o)[k], o)
  {
    match o
    case NEB => NEBInBlock();
    case NWB => NWBInBlock();
    case SEB => SEBInBlock();
    case SWB => SWBInBlock();
    case NEU => NEUInBlock();
    case NWU => NWUInBlock();
    case SEU => SEUInBlock();
    case SWU => SWUInBlock();
  }

  /**
   * The seven positions are different cells, none of them the centre; with
   * PositionInOctant they are the whole 2x2x2 block but the centre.
   */
  lemma PositionsDistinct(o: Octant)
    ensures forall k, j :: 0 <= k < j < 7 ==> Positions(o)[k] != Positions(o)[j]
  {
  }

  /** The bit that position k of an octant sets. */
  function Weight(k: nat): bv8
    requires k < 7
  {
    [128, 64, 32, 16, 8, 4, 2][k]
  }

  function Flag(b: int, w: bv8): bv8 {
    if b != 0 then w else 0
  }

  /**
   * index_octant_*: the centre bit 1, or-ed with the weight of every
   * position that holds a nonzero value.
   */
  function IndexOctant(n: seq<int>, o: Octant): (v: bv8)
    requires |n| == 27
    ensures v & 1 == 1
  {
    var q := Positions(o);
    1 | Flag(n[q[0]], Weight(0)) | Flag(n[q[1]], Weight(1)) | Flag(n[q[2]], Weight(2))
      | Flag(n[q[3]], Weight(3)) | Flag(n[q[4]], Weight(4)) | Flag(n[q[5]], Weight(5))
      | Flag(n[q[6]], Weight(6))
  }

  /** Bit `Weight(k)` of an octant index is set exactly when position k holds a nonzero value. */
  lemma IndexBits(n: seq<int>, o: Octant, k: nat)
    requires |n| == 27 && k < 7
    ensures IndexOctant(n, o) & Weight(k) != 0 <==> n[Positions(o)[k]] != 0
  {
  }

  /**
   * An octant index depends on its seven positions only through whether
   * they are nonzero, and it tells all such patterns apart.
   */
  lemma IndexDeterminedByPositions(n: seq<int>, m: seq<int>, o: Octant)
    requires |n| == 27 && |m| == 27
    ensures IndexOctant(n, o) == IndexOctant(m, o) <==>
              forall k :: 0 <= k < 7 ==> (n[Positions(o)[k]] != 0 <==> m[Positions(o)[k]] != 0)
  {
    if IndexOctant(n, o) == IndexOctant(m, o) {
      forall k | 0 <= k < 7
        ensures n[Positions(o)[k]] != 0 <==> m[Positions(o)[k]] != 0
      {
        IndexBits(n, o, k);
        IndexBits(m, o, k);
      }
    }
  }

  /** The sum of the eight table contributions, in the order is_euler_invariant adds them. */
  function EulerChange(n: seq<int>, lut: seq<int>): int
    requires |n| == 27 && |lut| == 256
  {
    lut[IndexOctant(n, SWU) as int] + lut[IndexOctant(n, SEU) as int]
    + lut[IndexOctant(n, NWU) as int] + lut[IndexOctant(n, NEU) as int]
    + lut[IndexOctant(n, SWB) as int] + lut[IndexOctant(n, SEB) as int]
    + lut[IndexOctant(n, NWB) as int] + lut[IndexOctant(n, NEB) as int]
  }

  /** is_euler_invariant: removing the centre leaves the Euler characteristic unchanged. */
  predicate IsEulerInvariant(n: seq<int>, lut: seq<int>)
    requires |n| == 27 && |lut| == 256
  {
    EulerChange(n, lut) == 0
  }

  /** The Euler test never looks at the centre voxel. */
  lemma EulerIgnoresCentre(n: seq<int>, lut: seq<int>, v: int)
    requires |n| == 27 && |lut| == 256
    ensures IsEulerInvariant(n[Center := v], lut) == IsEulerInvariant(n, lut)
  {
    var m := n[Center := v];
    forall o: Octant ensures IndexOctant(m, o) == IndexOctant(n, o) {
      IndexDeterminedByPositions(m, n, o);
    }
  }

  /**
   * A voxel without nonzero neighbours is never Euler invariant: each
   * octant contributes LUT[1] = 1, and removing the voxel would remove a
   * whole object.
   */
  lemma IsolatedNotEulerInvariant(n: seq<int>)
    requires |n| == 27
    requires forall i :: 0 <= i < 27 && i != Center ==> n[i] == 0
    ensures EulerChange(n, FillEulerLUT()) == 8
    ensures !IsEulerInvariant(n, FillEulerLUT())
  {
    var lut := FillEulerLUT();
    forall o: Octant ensures IndexOctant(n, o) == 1 {
      var q := Positions(o);
      assert forall k :: 0 <= k < 7 ==> n[q[k]] == 0;
    }
  }
}
