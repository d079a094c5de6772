/**
 * The simple-point test of Lee, Kashyap and Chu (1994): the 26 neighbours of
 * a voxel are copied into a "cube", each still-unlabelled foreground cell
 * seeds a recursive octree labelling, and the voxel is simple when a single
 * seed labels every foreground neighbour.
 *
 * Cube cells are numbered 0..25 (neighbourhood order with the centre
 * dropped). The eight octants are the 2x2x2 corner blocks of the 3x3x3
 * neighbourhood; each holds seven cube cells.
 */
module SimplePoint {
  import opened Neighborhood

  type CubeIndex = i: int | 0 <= i < 26
  type OctantId = o: int | 1 <= o <= 8 witness 1

  /**
   * One line of octree_labeling: when cell `cell` still holds 1, it receives
   * the label and the labelling recurses into the octants `next`, in that order.
   */
  datatype Step = Step(cell: CubeIndex, next: seq<OctantId>)

  /** The labelling table: for each octant, its seven lines in source order. */
  function OctantSteps(octant: OctantId): seq<Step> {
    if octant == 1 then
      [Step(0, []), Step(1, [2]), Step(3, [3]), Step(4, [2, 3, 4]),
       Step(9, [5]), Step(10, [2, 5, 6]), Step(12, [3, 5, 7])]
    else if octant == 2 then
      [Step(1, [1]), Step(4, [1, 3, 4]), Step(10, [1, 5, 6]), Step(2, []),
       Step(5, [4]), Step(11, [6]), Step(13, [4, 6, 8])]
    else if octant == 3 then
      [Step(3, [1]), Step(4, [1, 2, 4]), Step(12, [1, 5, 7]), Step(6, []),
       Step(7, [4]), Step(14, [7]), Step(15, [4, 7, 8])]
    else if octant == 4 then
      [Step(4, [1, 2, 3]), Step(5, [2]), Step(13, [2, 6, 8]), Step(7, [3]),
       Step(15, [3, 7, 8]), Step(8, []), Step(16, [8])]
    else if octant == 5 then
      [Step(9, [1]), Step(10, [1, 2, 6]), Step(12, [1, 3, 7]), Step(17, []),
       Step(18, [6]), Step(20, [7]), Step(21, [6, 7, 8])]
    else if octant == 6 then
      [Step(10, [1, 2, 5]), Step(11, [2]), Step(13, [2, 4, 8]), Step(18, [5]),
       Step(21, [5, 7, 8]), Step(19, []), Step(22, [8])]
    else if octant == 7 then
      [Step(12, [1, 3, 5]), Step(14, [3]), Step(15, [3, 4, 8]), Step(20, [5]),
       Step(21, [5, 6, 8]), Step(23, []), Step(24, [8])]
    else
      [Step(13, [2, 4, 6]), Step(15, [3, 4, 7]), Step(16, [4]), Step(21, [5, 6, 7]),
       Step(22, [6]), Step(24, [7]), Step(25, [])]
  }

  /**
   * The cube after octree_labeling(octant, lbl, c). Only cells equal to 1
   * change, each to `lbl`. A label of 1 would never consume a cell, and the recursion would
   * not stop.
   */
  function LabelOctant(octant: OctantId, lbl: int, c: seq<int>): (r: seq<int>)
    requires lbl != 1 && |c| == 26
    ensures |r| == 26
    ensures forall i :: 0 <= i < 26 ==> r[i] == c[i] || (c[i] == 1 && r[i] == lbl)
    ensures Count1(r) <= Count1(c)
    decreases Count1(c), 1, 0
  {
    LabelSteps(OctantSteps(octant), lbl, c)
  }

  /** Runs the lines `steps` of one octant, in order, on cube c. */
  function LabelSteps(steps: seq<Step>, lbl: int, c: seq<int>): (r: seq<int>)
    requires lbl != 1 && |c| == 26
    ensures |r| == 26
    ensures forall i :: 0 <= i < 26 ==> r[i] == c[i] || (c[i] == 1 && r[i] == lbl)
    ensures Count1(r) <= Count1(c)
    decreases Count1(c), 0, |steps|
  {
    if steps == [] then c
    else
      var s := steps[0];
      var c1 :=
        if c[s.cell] == 1 then
          Count1Clear(c, s.cell, lbl);
          LabelCalls(s.next, lbl, c[s.cell := lbl])
        else c;
      LabelSteps(steps[1..], lbl, c1)
  }

  /** The recursive calls of one line: octree_labeling on each octant of `next`, in order. */
  function LabelCalls(next: seq<OctantId>, lbl: int, c: seq<int>): (r: seq<int>)
    requires lbl != 1 && |c| == 26
    ensures |r| == 26
    ensures forall i :: 0 <= i < 26 ==> r[i] == c[i] || (c[i] == 1 && r[i] == lbl)
    ensures Count1(r) <= Count1(c)
    decreases Count1(c), 2, |next|
  {
    if next == [] then c
    else LabelCalls(next[1..], lbl, LabelOctant(next[0], lbl, c))
  }

  /** After octree_labeling from `octant`, no cell on one of the octant's lines still holds 1. */
  lemma LabelOctantClears(octant: OctantId, lbl: int, c: seq<int>)
    requires lbl != 1 && |c| == 26
    ensures forall s :: s in OctantSteps(octant) ==> LabelOctant(octant, lbl, c)[s.cell] != 1
  {
    LabelStepsClear(OctantSteps(octant), lbl, c);
  }

  /** After the lines `steps` have run, none of their cells holds 1. */
  lemma {:induction false} LabelStepsClear(steps: seq<Step>, lbl: int, c: seq<int>)
    requires lbl != 1 && |c| == 26
    ensures forall s :: s in steps ==> LabelSteps(steps, lbl, c)[s.cell] != 1
    decreases |steps|
  {
    if steps != [] {
      var s := steps[0];
      var c1 := if c[s.cell] == 1 then LabelCalls(s.next, lbl, c[s.cell := lbl]) else c;
      LabelStepsClear(steps[1..], lbl, c1);
      assert c1[s.cell] != 1;
      forall t | t in steps ensures LabelSteps(steps, lbl, c)[t.cell] != 1 {
        if t != s {
          assert t in steps[1..];
        }
      }
    }
  }

  /**
   * octree_labeling: relabels, in place, the foreground cells of `cube` that
   * the octant recursion reaches from `octant`.
   */
  method OctreeLabeling(octant: OctantId, lbl: int, cube: array<int>)
    requires lbl != 1 && cube.Length == 26
    modifies cube
    ensures cube[..] == LabelOctant(octant, lbl, old(cube[..]))
    decreases Count1(cube[..])
  {
    var steps := OctantSteps(octant);
    for k := 0 to |steps|
      invariant LabelSteps(steps[k..], lbl, cube[..]) == LabelOctant(octant, lbl, old(cube[..]))
      invariant Count1(cube[..]) <= Count1(old(cube[..]))
    {
      var s := steps[k];
      assert steps[k..][1..] == steps[k + 1..];
      if cube[s.cell] == 1 {
        ghost var before := cube[..];
        Count1Clear(before, s.cell, lbl);
        cube[s.cell] := lbl;
        assert cube[..] == before[s.cell := lbl];
        ghost var marked := cube[..];
        for j := 0 to |s.next|
          invariant LabelCalls(s.next[j..], lbl, cube[..]) == LabelCalls(s.next, lbl, marked)
          invariant Count1(cube[..]) < Count1(old(cube[..]))
        {
          assert s.next[j..][1..] == s.next[j + 1..];
          OctreeLabeling(s.next[j], lbl, cube);
        }
      }
    }
  }

  /** The octant that the scan of is_simple_point starts from when cell i seeds a component. */
  function SeedOctant(i: CubeIndex): OctantId {
    if i in {0, 1, 3, 4, 9, 10, 12} then 1
    else if i in {2, 5, 11, 13} then 2
    else if i in {6, 7, 14, 15} then 3
    else if i in {8, 16} then 4
    else if i in {17, 18, 20, 21} then 5
    else if i in {19, 22} then 6
    else if i in {23, 24} then 7
    else 8
  }

  /**
   * The seed scan of is_simple_point from cell i on, with `lbl` the next
   * label to hand out: false as soon as a second seed has been labelled.
   */
  function ScanSeeds(c: seq<int>, i: nat, lbl: int): bool
    requires |c| == 26 && i <= 26 && lbl >= 2
    decreases 26 - i
  {
    if i == 26 then true
    else if c[i] == 1 then
      var c' := LabelOctant(SeedOctant(i), lbl, c);
      if (lbl + 1) - 2 >= 2 then false else ScanSeeds(c', i + 1, lbl + 1)
    else ScanSeeds(c, i + 1, lbl)
  }

  /** The outcome of is_simple_point on a 27-entry neighbourhood. */
  predicate IsSimple(n: seq<int>)
    requires |n| == 27
  {
    ScanSeeds(Cube(n), 0, 2)
  }

  /** is_simple_point: copies the 26 neighbours into a fresh cube and scans it for seeds. */
  method IsSimplePoint(neighbors: seq<int>) returns (simple: bool)
    requires |neighbors| == 27
    ensures simple == IsSimple(neighbors)
  {
    var cube := new int[26];
    for i := 0 to 13
      invariant forall k :: 0 <= k < i ==> cube[k] == neighbors[k]
    {
      cube[i] := neighbors[i];
    }
    for i := 14 to 27
      invariant forall k :: 0 <= k < 13 ==> cube[k] == neighbors[k]
      invariant forall k :: 13 <= k < i - 1 ==> cube[k] == neighbors[k + 1]
    {
      cube[i - 1] := neighbors[i];
    }
    assert cube[..] == Cube(neighbors);
    var lbl := 2;
    for i := 0 to 26
      invariant lbl == 2 || lbl == 3
      invariant ScanSeeds(cube[..], i, lbl) == IsSimple(neighbors)
    {
      if cube[i] == 1 {
        OctreeLabeling(SeedOctant(i), lbl, cube);
        lbl := lbl + 1;
        if lbl - 2 >= 2 {
          return false;
        }
      }
    }
    return true;
  }

  /** Position of cell i among the lines of its seed octant. */
  function SeedLine(i: CubeIndex): nat {
    [0, 1, 3, 2, 3, 4, 3, 4, 5, 4, 5, 5, 6, 6, 5, 6, 6, 3, 4, 5, 5, 6, 6, 5, 6, 6][i]
  }

  lemma SeedLineLow(i: CubeIndex)
    requires i < 13
    ensures SeedLine(i) < |OctantSteps(SeedOctant(i))|
    ensures OctantSteps(SeedOctant(i))[SeedLine(i)].cell == i
  {
    if i == 0 {} else if i == 1 {} else if i == 2 {} else if i == 3 {} else if i == 4 {}
    else if i == 5 {} else if i == 6 {} else if i == 7 {} else if i == 8 {} else if i == 9 {}
    else if i == 10 {} else if i == 11 {} else {}
  }

  lemma SeedLineHigh(i: CubeIndex)
    requires i >= 13
    ensures SeedLine(i) < |OctantSteps(SeedOctant(i))|
    ensures OctantSteps(SeedOctant(i))[SeedLine(i)].cell == i
  {
    if i == 13 {} else if i == 14 {} else if i == 15 {} else if i == 16 {} else if i == 17 {}
    else if i == 18 {} else if i == 19 {} else if i == 20 {} else if i == 21 {} else if i == 22 {}
    else if i == 23 {} else if i == 24 {} else {}
  }

  /** Every cell is one of the seven lines of the octant the seed switch picks for it. */
  lemma SeedLineInTable(i: CubeIndex)
    ensures SeedLine(i) < |OctantSteps(SeedOctant(i))|
    ensures OctantSteps(SeedOctant(i))[SeedLine(i)].cell == i
  {
    if i < 13 {
      SeedLineLow(i);
    } else {
      SeedLineHigh(i);
    }
  }

  /** A seed that still holds 1 is itself labelled by the labelling started from its seed octant. */
  lemma SeedLabelled(i: CubeIndex, lbl: int, c: seq<int>)
    requires lbl != 1 && |c| == 26 && c[i] == 1
    ensures LabelOctant(SeedOctant(i), lbl, c)[i] == lbl
  {
    SeedLineInTable(i);
    LabelOctantClears(SeedOctant(i), lbl, c);
    var t := OctantSteps(SeedOctant(i));
    assert t[SeedLine(i)] in t;
  }

  /** Index of the first cell at or after i that holds 1, or 26 when there is none. */
  function FirstOne(c: seq<int>, i: nat): (f: nat)
    requires |c| == 26 && i <= 26
    ensures i <= f <= 26
    ensures forall k :: i <= k < f ==> c[k] != 1
    ensures f < 26 ==> c[f] == 1
    decreases 26 - i
  {
    if i == 26 || c[i] == 1 then i else FirstOne(c, i + 1)
  }

  /** Cells that do not hold 1 are skipped by the seed scan. */
  lemma {:induction false} ScanSkips(c: seq<int>, i: nat, lbl: int)
    requires |c| == 26 && i <= 26 && lbl >= 2
    ensures ScanSeeds(c, i, lbl) == ScanSeeds(c, FirstOne(c, i), lbl)
    decreases 26 - i
  {
    if i < 26 && c[i] != 1 {
      ScanSkips(c, i + 1, lbl);
    }
  }

  /** Once one component has been labelled, the scan succeeds exactly when no 1 is left. */
  lemma ScanAfterFirst(c: seq<int>, i: nat)
    requires |c| == 26 && i <= 26
    ensures ScanSeeds(c, i, 3) <==> FirstOne(c, i) == 26
  {
    ScanSkips(c, i, 3);
  }

  /**
   * Once the first seed f has been labelled, no cell up to f holds 1, so
   * the cube is free of 1s exactly when nothing after f holds 1.
   */
  lemma FirstSeedLabelled(c: seq<int>, f: CubeIndex)
    requires |c| == 26 && f == FirstOne(c, 0)
    ensures var r := LabelOctant(SeedOctant(f), 2, c);
            Count1(r) == 0 <==> FirstOne(r, f + 1) == 26
  {
    var r := LabelOctant(SeedOctant(f), 2, c);
    SeedLabelled(f, 2, c);
    Count1Zero(r);
    if FirstOne(r, f + 1) == 26 {
      forall k | 0 <= k < 26 ensures r[k] != 1 {
        if k < f {
          assert c[k] != 1;
        }
      }
    }
  }

  /**
   * What is_simple_point decides: the point is simple exactly when its 26
   * neighbours hold no 1 (the scan finds no seed), or when the labelling
   * started from the first foreground neighbour reaches every foreground
   * neighbour.
   */
  lemma IsSimpleMeaning(n: seq<int>)
    requires |n| == 27
    ensures FirstOne(Cube(n), 0) == 26 <==> Count1(Cube(n)) == 0
    ensures var c := Cube(n); var f := FirstOne(c, 0);
            IsSimple(n) <==> f == 26 || Count1(LabelOctant(SeedOctant(f), 2, c)) == 0
  {
    var c := Cube(n);
    var f := FirstOne(c, 0);
    ScanSkips(c, 0, 2);
    Count1Zero(c);
    if f < 26 {
      var r := LabelOctant(SeedOctant(f), 2, c);
      assert ScanSeeds(c, f, 2) == ScanSeeds(r, f + 1, 3);
      ScanAfterFirst(r, f + 1);
      FirstSeedLabelled(c, f);
    }
  }

  /** A voxel with no foreground neighbour is simple. */
  lemma IsolatedIsSimple(n: seq<int>)
    requires |n| == 27 && Count1(Cube(n)) == 0
    ensures IsSimple(n)
  {
    IsSimpleMeaning(n);
  }

  /** A voxel with exactly one foreground neighbour is simple: that neighbour is the only seed. */
  lemma OneNeighbourIsSimple(n: seq<int>)
    requires |n| == 27 && Count1(Cube(n)) == 1
    ensures IsSimple(n)
  {
    var c := Cube(n);
    var f := FirstOne(c, 0);
    Count1Zero(c);
    var r := LabelOctant(SeedOctant(f), 2, c);
    SeedLabelled(f, 2, c);
    Count1Clear(c, f, 2);
    Count1Mono(c[f := 2], r);
    IsSimpleMeaning(n);
  }
}
