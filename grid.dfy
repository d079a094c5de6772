/**
 * The voxel volume as a value: extents X, Y, Z and the stored cells. Reads
 * outside [0, X) x [0, Y) x [0, Z) give 0 (the zero padding of get_pixel),
 * and writes outside the box are ignored (set_pixel).
 */
module Voxels {
  import opened Neighborhood

  datatype Point = Point(x: int, y: int, z: int)

  /** The point at offset (dx, dy, dz) from p. */
  function Offset(p: Point, dx: int, dy: int, dz: int): Point {
    Point(p.x + dx, p.y + dy, p.z + dz)
  }

  datatype Grid = Grid(X: nat, Y: nat, Z: nat, cells: map<Point, int>)
  {
    predicate InBox(p: Point) {
      0 <= p.x < X && 0 <= p.y < Y && 0 <= p.z < Z
    }

    /** get_pixel: the stored value inside the box, 0 outside. */
    function At(p: Point): int {
      if InBox(p) && p in cells then cells[p] else 0
    }

    /** set_pixel: writes v at p when p is inside the box, and otherwise changes nothing. */
    function Set(p: Point, v: int): (g: Grid)
      ensures g.X == X && g.Y == Y && g.Z == Z
      ensures InBox(p) ==> g.At(p) == v
      ensures forall q :: q != p ==> g.At(q) == At(q)
      ensures !InBox(p) ==> g == this
    {
      if InBox(p) then this.(cells := cells[p := v]) else this
    }
  }

  /** Every cell holds 0 or 1, as prepare_data leaves it. */
  ghost predicate Binary(g: Grid) {
    forall p :: g.At(p) == 0 || g.At(p) == 1
  }

  /** The cells holding 1. */
  function Foreground(g: Grid): set<Point> {
    set p | p in g.cells && g.InBox(p) && g.cells[p] == 1
  }

  lemma ForegroundMembers(g: Grid, p: Point)
    ensures p in Foreground(g) <==> g.At(p) == 1
  {
  }

  /** get_neighborhood: entry i holds the voxel at offset (DX(i), DY(i), DZ(i)) from p. */
  function Hood(g: Grid, p: Point): (n: seq<int>)
    ensures |n| == 27
  {
    seq(27, i requires 0 <= i < 27 => g.At(Offset(p, DX(i), DY(i), DZ(i))))
  }

  /** Entry i of the neighbourhood, once its offsets are known to be (dx, dy, dz). */
  lemma HoodAtOffset(g: Grid, p: Point, i: nat, dx: int, dy: int, dz: int)
    requires i < 27 && DX(i) == dx && DY(i) == dy && DZ(i) == dz
    ensures Hood(g, p)[i] == g.At(Offset(p, dx, dy, dz))
  {
  }

  /**
   * Entry 9(dz+1) + 3(dy+1) + (dx+1) of the neighbourhood is the voxel at
   * offset (dx, dy, dz); entry 13 is the voxel itself.
   */
  lemma HoodEntry(g: Grid, p: Point, dx: int, dy: int, dz: int)
    requires IsOffset(dx) && IsOffset(dy) && IsOffset(dz)
    ensures 0 <= IndexOf(dx, dy, dz) < 27
    ensures Hood(g, p)[IndexOf(dx, dy, dz)] == g.At(Offset(p, dx, dy, dz))
    ensures Hood(g, p)[Center] == g.At(p)
  {
    IndexOffsetRoundTrip(0, dx, dy, dz);
    HoodAtOffset(g, p, IndexOf(dx, dy, dz), dx, dy, dz);
    HoodAtOffset(g, p, Center, 0, 0, 0);
    assert Offset(p, 0, 0, 0) == p;
  }

  /** The six border directions of computeThinImage, currentBorder 1 to 6. */
  datatype Direction = North | South | East | West | Up | Bottom

  /** N, S, E, W, U, B: the face neighbour that decides whether p is a border voxel. */
  function Neighbor(p: Point, d: Direction): Point {
    match d
    case North => Offset(p, 0, -1, 0)
    case South => Offset(p, 0, 1, 0)
    case East => Offset(p, 1, 0, 0)
    case West => Offset(p, -1, 0, 0)
    case Up => Offset(p, 0, 0, 1)
    case Bottom => Offset(p, 0, 0, -1)
  }

  /**
   * h is g after deletions only: same extents, and every cell either kept
   * its value or went from 1 to 0.
   */
  ghost predicate OnlyDeletes(g: Grid, h: Grid) {
    h.X == g.X && h.Y == g.Y && h.Z == g.Z
    && forall p :: h.At(p) == g.At(p) || (g.At(p) == 1 && h.At(p) == 0)
  }

  lemma OnlyDeletesTransitive(g: Grid, h: Grid, k: Grid)
    requires OnlyDeletes(g, h) && OnlyDeletes(h, k)
    ensures OnlyDeletes(g, k)
  {
  }

  /** Deleting keeps a grid binary and never adds foreground. */
  lemma OnlyDeletesShrinks(g: Grid, h: Grid)
    requires OnlyDeletes(g, h)
    ensures Foreground(h) <= Foreground(g)
    ensures Binary(g) ==> Binary(h)
  {
    forall p | p in Foreground(h) ensures p in Foreground(g) {
      ForegroundMembers(h, p);
      ForegroundMembers(g, p);
    }
  }

  /** Clearing a foreground cell removes exactly that cell from the foreground. */
  lemma DeleteForeground(g: Grid, p: Point)
    requires g.At(p) == 1
    ensures OnlyDeletes(g, g.Set(p, 0))
    ensures Foreground(g.Set(p, 0)) == Foreground(g) - {p}
    ensures |Foreground(g.Set(p, 0))| == |Foreground(g)| - 1
  {
    var h := g.Set(p, 0);
    forall q ensures q in Foreground(h) <==> q in Foreground(g) - {p} {
      ForegroundMembers(h, q);
      ForegroundMembers(g, q);
    }
    assert Foreground(h) == Foreground(g) - {p};
    ForegroundMembers(g, p);
  }

  /** After deletions only, a cell's neighbours that hold 1 held 1 before. */
  lemma OnlyDeletesHood(g: Grid, h: Grid, p: Point)
    requires OnlyDeletes(g, h)
    ensures Count1(Cube(Hood(h, p))) <= Count1(Cube(Hood(g, p)))
  {
    Count1Mono(Cube(Hood(g, p)), Cube(Hood(h, p)));
  }
}
