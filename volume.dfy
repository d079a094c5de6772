/**
 * The volume as the source handles it: a dense X x Y x Z array of ints
 * updated in place. Each method is proved against the grid value `model`
 * that the array represents and against the functions on grid values.
 */
module Volumes {
  import opened Neighborhood
  import opened Euler
  import opened SimplePoint
  import opened Voxels
  import opened Thinning

  lemma AppendAssoc<T>(a: seq<T>, b: seq<T>, c: seq<T>)
    ensures a + b + c == a + (b + c)
  {
  }

  /** The value prepare_data leaves in a cell that held v. */
  function Binarised(v: int): int {
    if v != 0 then 1 else 0
  }

  class Volume {
    const X: nat
    const Y: nat
    const Z: nat
    const data: array3<int>
    ghost var model: Grid

    /** The array holds exactly the cells of `model` inside the box. */
    ghost predicate Valid()
      reads this, data
    {
      data.Length0 == X && data.Length1 == Y && data.Length2 == Z
      && model.X == X && model.Y == Y && model.Z == Z
      && forall x, y, z {:trigger data[x, y, z]} :: 0 <= x < X && 0 <= y < Y && 0 <= z < Z ==>
           data[x, y, z] == model.At(Point(x, y, z))
    }

    /** A zero-filled volume of the given extents. */
    constructor (x: nat, y: nat, z: nat)
      ensures Valid() && fresh(data)
      ensures model.X == x && model.Y == y && model.Z == z
      ensures Foreground(model) == {}
      ensures forall p :: model.At(p) == 0
    {
      X, Y, Z := x, y, z;
      data := new int[x, y, z]((i, j, k) => 0);
      model := Grid(x, y, z, map[]);
    }

    /** get_pixel: the stored value inside the box and 0 (zero padding) outside it. */
    function GetPixel(x: int, y: int, z: int): (v: int)
      requires Valid()
      reads this, data
      ensures v == model.At(Point(x, y, z))
      ensures !(0 <= x < X && 0 <= y < Y && 0 <= z < Z) ==> v == 0
    {
      if 0 <= x < X && 0 <= y < Y && 0 <= z < Z then data[x, y, z] else 0
    }

    /** get_pixel_nocheck: the caller guarantees the coordinates are inside the box. */
    function GetPixelNoCheck(x: int, y: int, z: int): (v: int)
      requires Valid() && 0 <= x < X && 0 <= y < Y && 0 <= z < Z
      reads this, data
      ensures v == model.At(Point(x, y, z))
    {
      data[x, y, z]
    }

    // The directional readers: the face neighbour on the north (y - 1),
    // south (y + 1), east (x + 1), west (x - 1), up (z + 1) and bottom
    // (z - 1) side.

    function N(x: int, y: int, z: int): (v: int)
      requires Valid()
      reads this, data
      ensures v == model.At(Neighbor(Point(x, y, z), North))
    {
      GetPixel(x, y - 1, z)
    }

    function S(x: int, y: int, z: int): (v: int)
      requires Valid()
      reads this, data
      ensures v == model.At(Neighbor(Point(x, y, z), South))
    {
      GetPixel(x, y + 1, z)
    }

    function E(x: int, y: int, z: int): (v: int)
      requires Valid()
      reads this, data
      ensures v == model.At(Neighbor(Point(x, y, z), East))
    {
      GetPixel(x + 1, y, z)
    }

    function W(x: int, y: int, z: int): (v: int)
      requires Valid()
      reads this, data
      ensures v == model.At(Neighbor(Point(x, y, z), West))
    {
      GetPixel(x - 1, y, z)
    }

    function U(x: int, y: int, z: int): (v: int)
      requires Valid()
      reads this, data
      ensures v == model.At(Neighbor(Point(x, y, z), Up))
    {
      GetPixel(x, y, z + 1)
    }

    function B(x: int, y: int, z: int): (v: int)
      requires Valid()
      reads this, data
      ensures v == model.At(Neighbor(Point(x, y, z), Bottom))
    {
      GetPixel(x, y, z - 1)
    }

    /** The reader of direction d: the test computeThinImage makes for currentBorder d. */
    function Facing(d: Direction, x: int, y: int, z: int): (v: int)
      requires Valid()
      reads this, data
      ensures v == model.At(Neighbor(Point(x, y, z), d))
    {
      match d
      case North => N(x, y, z)
      case South => S(x, y, z)
      case East => E(x, y, z)
      case West => W(x, y, z)
      case Up => U(x, y, z)
      case Bottom => B(x, y, z)
    }

    /** get_neighborhood: the 27 zero-padded voxels around (x, y, z), in (z, y, x) order. */
    function GetNeighborhood(x: int, y: int, z: int): (n: seq<int>)
      requires Valid()
      reads this, data
      ensures n == Hood(model, Point(x, y, z))
    {
      seq(27, i requires 0 <= i < 27 && Valid() reads this, data =>
        GetPixel(x + DX(i), y + DY(i), z + DZ(i)))
    }

    /** set_pixel: writes v at (x, y, z) inside the box and ignores writes outside it. */
    method SetPixel(x: int, y: int, z: int, v: int)
      requires Valid()
      modifies this, data
      ensures Valid()
      ensures model == old(model).Set(Point(x, y, z), v)
    {
      if 0 <= x < X && 0 <= y < Y && 0 <= z < Z {
        data[x, y, z] := v;
      }
      model := model.Set(Point(x, y, z), v);
    }

    /** prepare_data: every nonzero cell becomes 1, zeros stay; the volume is then binary. */
    method PrepareData()
      requires Valid()
      modifies this, data
      ensures Valid()
      ensures model.X == old(model).X && model.Y == old(model).Y && model.Z == old(model).Z
      ensures forall p :: model.At(p) == Binarised(old(model).At(p))
      ensures Binary(model)
    {
      ghost var m0 := model;
      for y := 0 to Y
        invariant Valid()
        invariant model.X == X && model.Y == Y && model.Z == Z
        invariant forall p :: model.At(p) == if p.y < y then Binarised(m0.At(p)) else m0.At(p)
      {
        for x := 0 to X
          invariant Valid()
          invariant model.X == X && model.Y == Y && model.Z == Z
          invariant forall p :: model.At(p) ==
                      if p.y < y || (p.y == y && p.x < x) then Binarised(m0.At(p)) else m0.At(p)
        {
          for z := 0 to Z
            invariant Valid()
            invariant model.X == X && model.Y == Y && model.Z == Z
            invariant forall p :: model.At(p) ==
                        if p.y < y || (p.y == y && (p.x < x || (p.x == x && p.z < z)))
                        then Binarised(m0.At(p)) else m0.At(p)
          {
            if data[x, y, z] != 0 {
              data[x, y, z] := 1;
              model := model.Set(Point(x, y, z), 1);
            }
          }
        }
      }
    }

    /**
     * is_endpoint: counts, from -1, the entries of the neighbourhood that
     * hold 1 (the centre included).
     */
    method IsEndpoint(x: int, y: int, z: int) returns (b: bool)
      requires Valid()
      ensures b == Endpoint(Hood(model, Point(x, y, z)))
    {
      var n := GetNeighborhood(x, y, z);
      var count := -1;
      for i := 0 to 27
        invariant count == Count1(n[..i]) - 1
      {
        assert n[..i + 1] == n[..i] + [n[i]];
        Count1Append(n[..i], [n[i]]);
        if n[i] == 1 {
          count := count + 1;
        }
      }
      assert n[..27] == n;
      b := count == 1;
    }

    /**
     * The tests the scan of computeThinImage applies to (x, y, z), in its
     * order: the voxel holds 1, its face neighbour in direction d is
     * background, it is not an endpoint, and its byte neighbourhood is Euler
     * invariant and simple.
     */
    method IsBorderCandidate(d: Direction, x: nat, y: nat, z: nat, lut: seq<int>) returns (c: bool)
      requires Valid() && x < X && y < Y && z < Z && lut == FillEulerLUT()
      ensures c == IsCandidate(model, d, Point(x, y, z))
    {
      if GetPixelNoCheck(x, y, z) != 1 {
        return false;
      }
      if Facing(d, x, y, z) > 0 {
        return false;
      }
      c := CheckNeighborhood(x, y, z, lut);
    }

    /** The endpoint, Euler and simple-point tests, on the uint8_t copy of the neighbourhood. */
    method CheckNeighborhood(x: int, y: int, z: int, lut: seq<int>) returns (c: bool)
      requires Valid() && lut == FillEulerLUT()
      ensures c == PassesHoodTests(Hood(model, Point(x, y, z)))
    {
      var endpoint := IsEndpoint(x, y, z);
      if endpoint {
        return false;
      }
      var neighborhood := ToBytes(GetNeighborhood(x, y, z));
      if !IsEulerInvariant(neighborhood, lut) {
        return false;
      }
      c := IsSimplePoint(neighborhood);
    }

    /** The innermost scan loop: the candidates of row (y, z), by increasing x. */
    method ScanRowOf(d: Direction, z: nat, y: nat, lut: seq<int>) returns (row: seq<Point>)
      requires Valid() && y < Y && z < Z && lut == FillEulerLUT()
      ensures row == Concat(RowScan(CandidateTest(model, d), y, z), X)
    {
      ghost var test := CandidateTest(model, d);
      row := [];
      for x := 0 to X
        invariant row == Concat(RowScan(test, y, z), x)
      {
        var c := IsBorderCandidate(d, x, y, z, lut);
        RowScanStep(test, y, z, x);
        if c {
          row := row + [Point(x, y, z)];
        }
      }
    }

    /** The scan of one direction: simpleBorderPoints, collected in z, y, x order. */
    method CollectBorderPoints(d: Direction, lut: seq<int>) returns (pts: seq<Point>)
      requires Valid() && lut == FillEulerLUT()
      ensures pts == Scan(model, d)
    {
      ghost var test := CandidateTest(model, d);
      pts := [];
      for z := 0 to Z
        invariant pts == Concat(VolumeScan(test, X, Y), z)
      {
        for y := 0 to Y
          invariant pts == Concat(VolumeScan(test, X, Y), z) + Concat(SliceScan(test, X, z), y)
        {
          var row := ScanRowOf(d, z, y, lut);
          AppendAssoc(Concat(VolumeScan(test, X, Y), z), Concat(SliceScan(test, X, z), y), row);
          pts := pts + row;
        }
      }
    }

    /** One step of the deletion loop: p is set to 0 when it is still simple on the current grid. */
    method RecheckPoint(p: Point) returns (deleted: bool)
      requires Valid()
      modifies this, data
      ensures Valid()
      ensures deleted == IsSimple(ToBytes(Hood(old(model), p)))
      ensures model == if deleted then old(model).Set(p, 0) else old(model)
    {
      var neighbors := ToBytes(GetNeighborhood(p.x, p.y, p.z));
      deleted := IsSimplePoint(neighbors);
      if deleted {
        SetPixel(p.x, p.y, p.z, 0);
      }
    }

    /**
     * The deletion loop of a direction: every collected point still simple
     * on the current grid is set to 0. noChange says whether nothing was
     * deleted.
     */
    method DeleteSimplePoints(pts: seq<Point>) returns (noChange: bool)
      requires Valid()
      modifies this, data
      ensures Valid()
      ensures model == Recheck(old(model), pts, 0).grid
      ensures noChange <==> Recheck(old(model), pts, 0).deleted == []
    {
      ghost var deleted: seq<Point> := [];
      noChange := true;
      for i := 0 to |pts|
        invariant Valid()
        invariant Recheck(old(model), pts, 0)
                  == PassResult(Recheck(model, pts, i).grid, deleted + Recheck(model, pts, i).deleted)
        invariant noChange <==> deleted == []
      {
        ghost var before := model;
        RecheckStep(before, pts, i);
        var removed := RecheckPoint(pts[i]);
        ghost var rest := Recheck(model, pts, i + 1);
        if removed {
          assert Recheck(before, pts, i) == PassResult(rest.grid, [pts[i]] + rest.deleted);
          AppendAssoc(deleted, [pts[i]], rest.deleted);
          deleted := deleted + [pts[i]];
          noChange := false;
        } else {
          assert Recheck(before, pts, i) == rest;
        }
      }
    }

    /** One direction of computeThinImage: collect the candidates, then recheck and delete. */
    method ThinBorder(d: Direction, lut: seq<int>) returns (noChange: bool)
      requires Valid() && lut == FillEulerLUT()
      modifies this, data
      ensures Valid()
      ensures model == Pass(old(model), d).grid
      ensures noChange <==> Pass(old(model), d).deleted == []
    {
      var simpleBorderPoints := CollectBorderPoints(d, lut);
      noChange := DeleteSimplePoints(simpleBorderPoints);
    }

    /** One iteration of the outer loop: borders 1 to 6 in turn, counting those that deleted nothing. */
    method SweepBorders(lut: seq<int>) returns (unchangedBorders: nat)
      requires Valid() && lut == FillEulerLUT()
      modifies this, data
      ensures Valid()
      ensures model == Sweep(old(model), 1).grid
      ensures unchangedBorders == Sweep(old(model), 1).unchangedBorders
    {
      unchangedBorders := 0;
      for currentBorder := 1 to 7
        invariant Valid()
        invariant Sweep(old(model), 1).grid == Sweep(model, currentBorder).grid
        invariant Sweep(old(model), 1).unchangedBorders
                  == unchangedBorders + Sweep(model, currentBorder).unchangedBorders
      {
        SweepStep(model, currentBorder);
        var noChange := ThinBorder(BorderDirection(currentBorder), lut);
        if noChange {
          unchangedBorders := unchangedBorders + 1;
        }
      }
    }

    /**
     * computeThinImage: sweeps the six directions until a whole sweep
     * deletes nothing, leaving the volume thinned.
     */
    method ComputeThinImage()
      requires Valid()
      modifies this, data
      ensures Valid()
      ensures model == Thin(old(model))
    {
      var lut := FillEulerLUT();
      var unchangedBorders := 0;
      while unchangedBorders < 6
        invariant Valid()
        invariant unchangedBorders <= 6
        invariant unchangedBorders < 6 ==> Thin(model) == Thin(old(model))
        invariant unchangedBorders == 6 ==> model == Thin(old(model))
        decreases if unchangedBorders < 6 then |Foreground(model)| + 1 else 0
      {
        ThinStep(model);
        SweepEffect(model, 1);
        unchangedBorders := SweepBorders(lut);
      }
    }
  }
}
