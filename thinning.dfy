/**
 * computeThinImage as functions on grid values: in each of the six border
 * directions a scan collects the candidate voxels, in z, y, x order, and a
 * recheck deletes every candidate that is still simple on the grid as it
 * is at that moment. Sweeps over the six directions repeat until one sweep
 * deletes nothing.
 */
module Thinning {
  import opened Neighborhood
  import opened Euler
  import opened SimplePoint
  import opened Voxels

  /**
   * The static_cast<uint8_t> copy of a neighbourhood that the Euler and
   * simple-point tests receive: each entry becomes the byte congruent to
   * it modulo 256.
   */
  function ToBytes(n: seq<int>): (b: seq<int>)
    ensures |b| == |n|
  {
    seq(|n|, i requires 0 <= i < |n| => n[i] % 256)
  }

  /** Each byte is the one value in 0..255 that differs from its entry by a multiple of 256. */
  lemma ToBytesEntries(n: seq<int>)
    ensures forall i :: 0 <= i < |n| ==> 0 <= ToBytes(n)[i] < 256 && (n[i] - ToBytes(n)[i]) % 256 == 0
  {
  }

  /** The cast leaves entries that already are bytes, such as 0 and 1, as they are. */
  lemma ToBytesOfBytes(n: seq<int>)
    requires forall i :: 0 <= i < |n| ==> 0 <= n[i] < 256
    ensures ToBytes(n) == n
  {
  }

  /** The direction that border number b (currentBorder, 1 to 6) of computeThinImage tests. */
  function BorderDirection(b: nat): Direction
    requires 1 <= b <= 6
  {
    if b == 1 then North
    else if b == 2 then South
    else if b == 3 then East
    else if b == 4 then West
    else if b == 5 then Up
    else Bottom
  }

  /** The border number that tests direction d. */
  function BorderNumber(d: Direction): nat {
    match d
    case North => 1
    case South => 2
    case East => 3
    case West => 4
    case Up => 5
    case Bottom => 6
  }

  /** The six border numbers and the six directions correspond one to one. */
  lemma BorderNumbering(d: Direction, b: nat)
    ensures 1 <= BorderNumber(d) <= 6 && BorderDirection(BorderNumber(d)) == d
    ensures 1 <= b <= 6 ==> BorderNumber(BorderDirection(b)) == b
  {
  }

  /**
   * The tests of the scan on the grid as it stands: p holds 1, its
   * neighbour in direction d is background (at most 0), it is not an
   * endpoint, and its byte neighbourhood is Euler invariant and simple.
   */
  predicate IsCandidate(g: Grid, d: Direction, p: Point) {
    g.At(p) == 1 && g.At(Neighbor(p, d)) <= 0 && PassesHoodTests(Hood(g, p))
  }

  /** The neighbourhood tests of the scan: not an endpoint, Euler invariant and simple. */
  predicate PassesHoodTests(n: seq<int>)
    requires |n| == 27
  {
    !Endpoint(n) && IsEulerInvariant(ToBytes(n), FillEulerLUT()) && IsSimple(ToBytes(n))
  }

  /** blocks(0) + blocks(1) + ... + blocks(n - 1): the output of n iterations of a scan loop. */
  function Concat(blocks: nat -> seq<Point>, n: nat): seq<Point> {
    if n == 0 then [] else Concat(blocks, n - 1) + blocks(n - 1)
  }

  /** What the scan pushes for point p: p itself when it passes `test`, and nothing otherwise. */
  function Hit(test: Point -> bool, p: Point): seq<Point> {
    if test(p) then [p] else []
  }

  /** The innermost scan loop, over x in row (y, z): iteration x pushes Hit(test, (x, y, z)). */
  function RowScan(test: Point -> bool, y: int, z: int): nat -> seq<Point> {
    x => Hit(test, Point(x, y, z))
  }

  /** One more iteration of the row loop: x is appended when it passes the test. */
  lemma RowScanStep(test: Point -> bool, y: int, z: int, x: nat)
    ensures Concat(RowScan(test, y, z), x + 1) ==
              Concat(RowScan(test, y, z), x) + if test(Point(x, y, z)) then [Point(x, y, z)] else []
  {
  }

  /** The middle scan loop, over y in slice z: iteration y runs the row loop over X columns. */
  function SliceScan(test: Point -> bool, X: nat, z: int): nat -> seq<Point> {
    y => Concat(RowScan(test, y, z), X)
  }

  /** The outer scan loop: iteration z runs the slice loop over Y rows of X columns. */
  function VolumeScan(test: Point -> bool, X: nat, Y: nat): nat -> seq<Point> {
    z => Concat(SliceScan(test, X, z), Y)
  }

  /** The scan's test, for direction d on grid g. */
  function CandidateTest(g: Grid, d: Direction): Point -> bool {
    p => IsCandidate(g, d, p)
  }

  /** simpleBorderPoints after the scan of one direction: z, then y, then x ascending. */
  function Scan(g: Grid, d: Direction): seq<Point> {
    Concat(VolumeScan(CandidateTest(g, d), g.X, g.Y), g.Z)
  }

  /** p comes before q in the scan order: by z, then y, then x. */
  predicate Before(p: Point, q: Point) {
    p.z < q.z || (p.z == q.z && (p.y < q.y || (p.y == q.y && p.x < q.x)))
  }

  predicate Ascending(s: seq<Point>) {
    forall i, j :: 0 <= i < j < |s| ==> Before(s[i], s[j])
  }

  lemma AscendingConcat(a: seq<Point>, b: seq<Point>)
    requires Ascending(a) && Ascending(b)
    requires forall p, q :: p in a && q in b ==> Before(p, q)
    ensures Ascending(a + b)
  {
    forall i, j | 0 <= i < j < |a + b| ensures Before((a + b)[i], (a + b)[j]) {
      if j < |a| {
      } else if i < |a| {
        assert (a + b)[i] in a && (a + b)[j] in b;
      } else {
        assert (a + b)[i] == b[i - |a|] && (a + b)[j] == b[j - |a|];
      }
    }
  }

  /**
   * When every point of block i has key i, the concatenation of the first
   * n blocks holds exactly the points of their blocks with key below n.
   */
  lemma {:induction false} ConcatMembers(blocks: nat -> seq<Point>, key: Point -> int, n: nat)
    requires forall i: nat, p :: p in blocks(i) ==> key(p) == i
    ensures forall p :: p in Concat(blocks, n) <==> 0 <= key(p) < n && p in blocks(key(p))
  {
    if n > 0 {
      ConcatMembers(blocks, key, n - 1);
    }
  }

  /** Ascending blocks, each before the next, concatenate to an ascending sequence. */
  lemma {:induction false} ConcatAscending(blocks: nat -> seq<Point>, key: Point -> int, n: nat)
    requires forall i: nat, p :: p in blocks(i) ==> key(p) == i
    requires forall i: nat :: Ascending(blocks(i))
    requires forall i: nat, j: nat, p, q :: i < j && p in blocks(i) && q in blocks(j) ==> Before(p, q)
    ensures Ascending(Concat(blocks, n))
  {
    if n > 0 {
      ConcatAscending(blocks, key, n - 1);
      ConcatMembers(blocks, key, n - 1);
      AscendingConcat(Concat(blocks, n - 1), blocks(n - 1));
    }
  }

  /** The row loop pushes the points of row (y, z) with x < X that pass the test, by increasing x. */
  lemma RowScanMembers(test: Point -> bool, y: int, z: int, X: nat)
    ensures forall p :: p in Concat(RowScan(test, y, z), X) <==>
              p.z == z && p.y == y && 0 <= p.x < X && test(p)
    ensures Ascending(Concat(RowScan(test, y, z), X))
  {
    ConcatMembers(RowScan(test, y, z), (p: Point) => p.x, X);
    ConcatAscending(RowScan(test, y, z), (p: Point) => p.x, X);
  }

  /** The slice loop pushes the points of slice z inside X x Y that pass the test, row by row. */
  lemma SliceScanMembers(test: Point -> bool, z: int, X: nat, Y: nat)
    ensures forall p :: p in Concat(SliceScan(test, X, z), Y) <==>
              p.z == z && 0 <= p.y < Y && 0 <= p.x < X && test(p)
    ensures Ascending(Concat(SliceScan(test, X, z), Y))
  {
    forall y: nat {
      RowScanMembers(test, y, z, X);
    }
    ConcatMembers(SliceScan(test, X, z), (p: Point) => p.y, Y);
    ConcatAscending(SliceScan(test, X, z), (p: Point) => p.y, Y);
  }

  /** The volume loop pushes the points inside X x Y x Z that pass the test, slice by slice. */
  lemma VolumeScanMembers(test: Point -> bool, X: nat, Y: nat, Z: nat)
    ensures forall p :: p in Concat(VolumeScan(test, X, Y), Z) <==>
              0 <= p.z < Z && 0 <= p.y < Y && 0 <= p.x < X && test(p)
    ensures Ascending(Concat(VolumeScan(test, X, Y), Z))
  {
    forall z: nat {
      SliceScanMembers(test, z, X, Y);
    }
    ConcatMembers(VolumeScan(test, X, Y), (p: Point) => p.z, Z);
    ConcatAscending(VolumeScan(test, X, Y), (p: Point) => p.z, Z);
  }

  /**
   * The scan collects exactly the candidates inside the box, each once, in
   * z, y, x order.
   */
  lemma ScanMembers(g: Grid, d: Direction)
    ensures forall p :: p in Scan(g, d) <==> g.InBox(p) && IsCandidate(g, d, p)
    ensures Ascending(Scan(g, d))
    ensures forall i, j :: 0 <= i < j < |Scan(g, d)| ==> Scan(g, d)[i] != Scan(g, d)[j]
  {
    var test := CandidateTest(g, d);
    VolumeScanMembers(test, g.X, g.Y, g.Z);
    forall p ensures test(p) == IsCandidate(g, d, p) {}
  }

  /** The grid after one direction's recheck-and-delete loop, and the points it deleted. */
  datatype PassResult = PassResult(grid: Grid, deleted: seq<Point>)

  /**
   * The deletion loop over simpleBorderPoints, from entry i on: each point
   * is tested with is_simple_point on the grid as the earlier deletions
   * left it, and set to 0 when it still is simple.
   */
  function Recheck(g: Grid, pts: seq<Point>, i: nat): PassResult
    requires i <= |pts|
    decreases |pts| - i
  {
    if i == |pts| then PassResult(g, [])
    else if IsSimple(ToBytes(Hood(g, pts[i]))) then
      var r := Recheck(g.Set(pts[i], 0), pts, i + 1);
      PassResult(r.grid, [pts[i]] + r.deleted)
    else Recheck(g, pts, i + 1)
  }

  /** One step of the deletion loop. */
  lemma RecheckStep(g: Grid, pts: seq<Point>, i: nat)
    requires i < |pts|
    ensures Recheck(g, pts, i) ==
              if IsSimple(ToBytes(Hood(g, pts[i]))) then
                var r := Recheck(g.Set(pts[i], 0), pts, i + 1);
                PassResult(r.grid, [pts[i]] + r.deleted)
              else Recheck(g, pts, i + 1)
  {
  }

  /**
   * The recheck sets exactly its deleted points to 0, deletes only points
   * of the list, and leaves the grid alone when it deletes nothing.
   */
  lemma {:induction false} RecheckEffect(g: Grid, pts: seq<Point>, i: nat)
    requires i <= |pts|
    ensures var r := Recheck(g, pts, i);
            r.grid.X == g.X && r.grid.Y == g.Y && r.grid.Z == g.Z
            && (forall q :: r.grid.At(q) == if q in r.deleted then 0 else g.At(q))
            && (forall q :: q in r.deleted ==> q in pts)
            && (r.deleted == [] ==> r.grid == g)
    decreases |pts| - i
  {
    if i < |pts| {
      var p := pts[i];
      if IsSimple(ToBytes(Hood(g, p))) {
        var h := g.Set(p, 0);
        RecheckEffect(h, pts, i + 1);
        var r := Recheck(h, pts, i + 1);
        assert Recheck(g, pts, i) == PassResult(r.grid, [p] + r.deleted);
        forall q ensures r.grid.At(q) == if q in [p] + r.deleted then 0 else g.At(q) {
          if q == p {
            assert h.At(p) == 0;
          }
        }
      } else {
        RecheckEffect(g, pts, i + 1);
      }
    }
  }

  /** One direction of computeThinImage: scan, then recheck and delete. */
  function Pass(g: Grid, d: Direction): PassResult {
    Recheck(g, Scan(g, d), 0)
  }

  lemma SubsetCard<T>(a: set<T>, b: set<T>)
    requires a <= b
    ensures |a| <= |b|
  {
    assert b == a + (b - a);
  }

  /** A candidate holds 1 and its byte neighbourhood is simple. */
  lemma CandidateSimple(g: Grid, d: Direction, p: Point)
    requires IsCandidate(g, d, p)
    ensures g.At(p) == 1 && IsSimple(ToBytes(Hood(g, p)))
  {
  }

  /** Every point the scan collects is an in-box foreground voxel whose byte neighbourhood is simple. */
  lemma ScanForeground(g: Grid, d: Direction)
    ensures forall q :: q in Scan(g, d) ==>
              g.InBox(q) && g.At(q) == 1 && IsSimple(ToBytes(Hood(g, q)))
  {
    forall q | q in Scan(g, d)
      ensures g.InBox(q) && g.At(q) == 1 && IsSimple(ToBytes(Hood(g, q)))
    {
      ScanMembers(g, d);
      CandidateSimple(g, d, q);
    }
  }

  /** The scan of direction d finds nothing exactly when no voxel in the box is a candidate. */
  lemma ScanEmpty(g: Grid, d: Direction)
    ensures Scan(g, d) == [] <==> forall p :: g.InBox(p) ==> !IsCandidate(g, d, p)
  {
    ScanMembers(g, d);
    if Scan(g, d) != [] {
      assert Scan(g, d)[0] in Scan(g, d);
    }
  }

  /**
   * A pass deletes only points of the scan, each of which held 1; it
   * deletes something exactly when the scan found a point (the first one
   * is still simple when it is rechecked, since nothing was deleted
   * before it), and then the foreground shrinks.
   */
  lemma PassEffect(g: Grid, d: Direction)
    ensures var r := Pass(g, d);
            OnlyDeletes(g, r.grid)
            && (forall q :: r.grid.At(q) == if q in r.deleted then 0 else g.At(q))
            && (forall q :: q in r.deleted ==> q in Scan(g, d))
            && (r.deleted == [] <==> Scan(g, d) == [])
            && (r.deleted == [] ==> r.grid == g)
            && (r.deleted != [] ==> |Foreground(r.grid)| < |Foreground(g)|)
  {
    var pts := Scan(g, d);
    var r := Pass(g, d);
    ScanForeground(g, d);
    RecheckEffect(g, pts, 0);
    if pts != [] {
      assert pts[0] in pts;
      assert r.deleted != [];
      var q := r.deleted[0];
      assert q in r.deleted;
      var h := g.Set(q, 0);
      DeleteForeground(g, q);
      assert OnlyDeletes(h, r.grid);
      OnlyDeletesShrinks(h, r.grid);
      SubsetCard(Foreground(r.grid), Foreground(h));
    }
  }

  /** A pass deletes only candidates of the scan's tests, inside the box. */
  lemma PassDeletesCandidates(g: Grid, d: Direction)
    ensures forall q :: q in Pass(g, d).deleted ==> g.InBox(q) && IsCandidate(g, d, q)
  {
    PassEffect(g, d);
    ScanMembers(g, d);
  }

  /** The grid after the passes of borders b to 6, and how many of them deleted nothing. */
  datatype SweepResult = SweepResult(grid: Grid, unchangedBorders: nat)

  function Sweep(g: Grid, b: nat): SweepResult
    requires 1 <= b <= 7
    decreases 7 - b
  {
    if b == 7 then SweepResult(g, 0)
    else
      var p := Pass(g, BorderDirection(b));
      var s := Sweep(p.grid, b + 1);
      SweepResult(s.grid, (if p.deleted == [] then 1 else 0) + s.unchangedBorders)
  }

  /** The pass of border b, followed by the rest of the sweep. */
  lemma SweepStep(g: Grid, b: nat)
    requires 1 <= b <= 6
    ensures Sweep(g, b) ==
              var p := Pass(g, BorderDirection(b));
              var s := Sweep(p.grid, b + 1);
              SweepResult(s.grid, (if p.deleted == [] then 1 else 0) + s.unchangedBorders)
  {
  }

  /**
   * A sweep only deletes. When every pass deleted nothing the grid is
   * unchanged and every scan found nothing; otherwise the foreground
   * shrank.
   */
  lemma {:induction false} SweepEffect(g: Grid, b: nat)
    requires 1 <= b <= 7
    ensures var s := Sweep(g, b);
            s.unchangedBorders <= 7 - b
            && OnlyDeletes(g, s.grid)
            && (s.unchangedBorders == 7 - b ==>
                  s.grid == g && forall k :: b <= k <= 6 ==> Scan(g, BorderDirection(k)) == [])
            && (s.unchangedBorders < 7 - b ==> |Foreground(s.grid)| < |Foreground(g)|)
    decreases 7 - b
  {
    if b < 7 {
      var p := Pass(g, BorderDirection(b));
      PassEffect(g, BorderDirection(b));
      SweepEffect(p.grid, b + 1);
      var s := Sweep(p.grid, b + 1);
      OnlyDeletesTransitive(g, p.grid, s.grid);
      OnlyDeletesShrinks(p.grid, s.grid);
      SubsetCard(Foreground(s.grid), Foreground(p.grid));
    }
  }

  /**
   * computeThinImage: sweeps over the six directions until a sweep leaves
   * all six unchanged. Every sweep that changes something shrinks the
   * foreground, so the loop ends.
   */
  function Thin(g: Grid): Grid
    decreases |Foreground(g)|
  {
    var s := Sweep(g, 1);
    if s.unchangedBorders == 6 then s.grid
    else
      SweepEffect(g, 1);
      Thin(s.grid)
  }

  /** One iteration of computeThinImage's outer loop. */
  lemma ThinStep(g: Grid)
    ensures Thin(g) == if Sweep(g, 1).unchangedBorders == 6 then Sweep(g, 1).grid
                       else Thin(Sweep(g, 1).grid)
  {
  }

  /** The number of sweeps computeThinImage makes (its `iterations` counter). */
  function Iterations(g: Grid): nat
    decreases |Foreground(g)|
  {
    var s := Sweep(g, 1);
    if s.unchangedBorders == 6 then 1
    else
      SweepEffect(g, 1);
      1 + Iterations(s.grid)
  }

  /** Each sweep but the last removes a voxel, so there are at most |foreground| + 1 sweeps. */
  lemma {:induction false} IterationsBound(g: Grid)
    ensures 1 <= Iterations(g) <= |Foreground(g)| + 1
    decreases |Foreground(g)|
  {
    var s := Sweep(g, 1);
    SweepEffect(g, 1);
    if s.unchangedBorders != 6 {
      IterationsBound(s.grid);
    }
  }

  /**
   * Thinning only deletes voxels, and it stops at a grid on which the scan
   * of every direction finds nothing.
   */
  lemma {:induction false} ThinEffect(g: Grid)
    ensures OnlyDeletes(g, Thin(g))
    ensures forall d :: Scan(Thin(g), d) == []
    decreases |Foreground(g)|
  {
    var s := Sweep(g, 1);
    SweepEffect(g, 1);
    if s.unchangedBorders != 6 {
      ThinEffect(s.grid);
      OnlyDeletesTransitive(g, s.grid, Thin(s.grid));
    } else {
      forall d ensures Scan(Thin(g), d) == [] {
        BorderNumbering(d, 1);
      }
    }
  }

  /** No voxel of a thinned volume is a candidate in any of the six directions. */
  lemma ThinNoCandidates(g: Grid)
    ensures forall d, p :: Thin(g).InBox(p) ==> !IsCandidate(Thin(g), d, p)
  {
    ThinEffect(g);
    forall d, p | Thin(g).InBox(p) ensures !IsCandidate(Thin(g), d, p) {
      ScanEmpty(Thin(g), d);
    }
  }

  /** A binary volume stays binary, and its foreground only shrinks. */
  lemma ThinBinary(g: Grid)
    ensures Foreground(Thin(g)) <= Foreground(g)
    ensures Binary(g) ==> Binary(Thin(g))
  {
    ThinEffect(g);
    OnlyDeletesShrinks(g, Thin(g));
  }

  /** A pass whose scan finds nothing deletes nothing. */
  lemma PassWithoutCandidates(g: Grid, d: Direction)
    requires Scan(g, d) == []
    ensures Pass(g, d) == PassResult(g, [])
  {
  }

  /**
   * The passes of borders b to 6 over a grid on which their scans find
   * nothing change nothing and count every border unchanged.
   */
  lemma {:induction false} SweepWithoutCandidates(g: Grid, b: nat)
    requires 1 <= b <= 7
    requires forall k :: b <= k <= 6 ==> Scan(g, BorderDirection(k)) == []
    ensures Sweep(g, b) == SweepResult(g, 7 - b)
    decreases 7 - b
  {
    if b < 7 {
      PassWithoutCandidates(g, BorderDirection(b));
      SweepWithoutCandidates(g, b + 1);
    }
  }

  /** Thinning a thinned volume changes nothing. */
  lemma ThinIdempotent(g: Grid)
    ensures Thin(Thin(g)) == Thin(g)
  {
    ThinEffect(g);
    SweepWithoutCandidates(Thin(g), 1);
  }

  /**
   * A binary neighbourhood whose foreground centre has at most one
   * foreground neighbour fails the scan: with one neighbour it is an
   * endpoint, with none it is not Euler invariant.
   */
  lemma SparseHoodRejected(n: seq<int>)
    requires |n| == 27 && n[Center] == 1 && Count1(Cube(n)) <= 1
    requires forall i :: 0 <= i < 27 ==> n[i] == 0 || n[i] == 1
    ensures Endpoint(n) || !IsEulerInvariant(ToBytes(n), FillEulerLUT())
  {
    EndpointMeaning(n);
    if Count1(Cube(n)) == 0 {
      Count1Zero(Cube(n));
      ToBytesOfBytes(n);
      forall i | 0 <= i < 27 && i != Center ensures n[i] == 0 {
        if i < Center {
          assert Cube(n)[i] == n[i];
        } else {
          assert Cube(n)[i - 1] == n[i];
        }
      }
      IsolatedNotEulerInvariant(n);
    }
  }

  lemma HoodBinary(g: Grid, p: Point)
    requires Binary(g)
    ensures forall i :: 0 <= i < 27 ==> Hood(g, p)[i] == 0 || Hood(g, p)[i] == 1
  {
  }

  /** The voxel of SparseHoodRejected is never a candidate. */
  lemma SparseNotCandidate(g: Grid, d: Direction, p: Point)
    requires Binary(g) && g.At(p) == 1 && Count1(Cube(Hood(g, p))) <= 1
    ensures !IsCandidate(g, d, p)
  {
    HoodEntry(g, p, 0, 0, 0);
    HoodBinary(g, p);
    SparseHoodRejected(Hood(g, p));
  }

  /** Such a voxel survives the passes of borders b to 6 and stays sparse. */
  lemma {:induction false} SweepKeepsSparse(g: Grid, b: nat, p: Point)
    requires 1 <= b <= 7
    requires Binary(g) && g.At(p) == 1 && Count1(Cube(Hood(g, p))) <= 1
    ensures var h := Sweep(g, b).grid;
            Binary(h) && h.At(p) == 1 && Count1(Cube(Hood(h, p))) <= 1
    decreases 7 - b
  {
    if b < 7 {
      var d := BorderDirection(b);
      var r := Pass(g, d);
      PassEffect(g, d);
      PassDeletesCandidates(g, d);
      SparseNotCandidate(g, d, p);
      OnlyDeletesShrinks(g, r.grid);
      OnlyDeletesHood(g, r.grid, p);
      SweepKeepsSparse(r.grid, b + 1, p);
    }
  }

  /**
   * On a binary volume, a foreground voxel with at most one foreground
   * neighbour (the tip of a line, or an isolated voxel) survives thinning.
   */
  lemma {:induction false} ThinKeepsSparse(g: Grid, p: Point)
    requires Binary(g) && g.At(p) == 1 && Count1(Cube(Hood(g, p))) <= 1
    ensures Thin(g).At(p) == 1
    decreases |Foreground(g)|
  {
    var s := Sweep(g, 1);
    SweepKeepsSparse(g, 1, p);
    SweepEffect(g, 1);
    if s.unchangedBorders != 6 {
      ThinKeepsSparse(s.grid, p);
    }
  }
}
