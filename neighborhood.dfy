/**
 * The 3x3x3 neighbourhood of a voxel, the 26-cell "cube" obtained by
 * dropping its centre, and the endpoint test that counts foreground
 * entries in it.
 *
 * A neighbourhood is a sequence of 27 integers in (z, y, x) row-major
 * order: entry i holds the voxel at offset (DX(i), DY(i), DZ(i)), so
 * entry 13 is the voxel itself.
 */
module Neighborhood {

  /** Index of the centre voxel in a 27-entry neighbourhood. */
  const Center: nat := 13

  /**
   * The z-, y- and x-offsets of neighbourhood entry i < 27 (each in -1..1):
   * i / 9 - 1, (i / 3) % 3 - 1 and i % 3 - 1, written with comparisons.
   */
  function DZ(i: nat): int { if i < 9 then -1 else if i < 18 then 0 else 1 }
  function DY(i: nat): int {
    var r := i - 9 * (DZ(i) + 1);
    if r < 3 then -1 else if r < 6 then 0 else 1
  }
  function DX(i: nat): int { i - 9 * (DZ(i) + 1) - 3 * (DY(i) + 1) - 1 }

  /** The neighbourhood entry that holds offset (dx, dy, dz). */
  function IndexOf(dx: int, dy: int, dz: int): int {
    9 * (dz + 1) + 3 * (dy + 1) + (dx + 1)
  }

  predicate IsOffset(d: int) { -1 <= d <= 1 }

  /** Entry index and offsets are inverse to each other, in both directions. */
  lemma IndexOffsetRoundTrip(i: nat, dx: int, dy: int, dz: int)
    ensures i < 27 ==> IsOffset(DX(i)) && IsOffset(DY(i)) && IsOffset(DZ(i))
                       && IndexOf(DX(i), DY(i), DZ(i)) == i
    ensures IsOffset(dx) && IsOffset(dy) && IsOffset(dz) ==>
              0 <= IndexOf(dx, dy, dz) < 27
              && DX(IndexOf(dx, dy, dz)) == dx
              && DY(IndexOf(dx, dy, dz)) == dy
              && DZ(IndexOf(dx, dy, dz)) == dz
  {
  }

  /** Number of entries of s equal to 1, the foreground value. */
  function Count1(s: seq<int>): (c: nat)
    ensures c <= |s|
  {
    if s == [] then 0 else (if s[0] == 1 then 1 else 0) + Count1(s[1..])
  }

  lemma {:induction false} Count1Append(a: seq<int>, b: seq<int>)
    ensures Count1(a + b) == Count1(a) + Count1(b)
  {
    if a != [] {
      assert (a + b)[1..] == a[1..] + b;
      Count1Append(a[1..], b);
    } else {
      assert a + b == b;
    }
  }

  /** Turning 1-entries into other values, and nothing else, never raises the count. */
  lemma {:induction false} Count1Mono(c: seq<int>, r: seq<int>)
    requires |c| == |r|
    requires forall i :: 0 <= i < |r| && r[i] == 1 ==> c[i] == 1
    ensures Count1(r) <= Count1(c)
  {
    if c != [] {
      Count1Mono(c[1..], r[1..]);
    }
  }

  /** A sequence counts no 1-entries exactly when none of its entries is 1. */
  lemma {:induction false} Count1Zero(s: seq<int>)
    ensures Count1(s) == 0 <==> forall i :: 0 <= i < |s| ==> s[i] != 1
  {
    if s != [] {
      Count1Zero(s[1..]);
      if Count1(s) == 0 {
        forall i | 0 <= i < |s| ensures s[i] != 1 {
          if i > 0 { assert s[i] == s[1..][i - 1]; }
        }
      } else if s[0] != 1 {
        var j :| 0 <= j < |s[1..]| && s[1..][j] == 1;
        assert s[j + 1] == 1;
      }
    }
  }

  /** Overwriting one 1-entry with another value lowers the count by exactly one. */
  lemma {:induction false} Count1Clear(c: seq<int>, i: nat, v: int)
    requires i < |c| && c[i] == 1 && v != 1
    ensures Count1(c[i := v]) == Count1(c) - 1
  {
    if i == 0 {
      assert c[i := v][1..] == c[1..];
    } else {
      assert c[i := v][1..] == c[1..][i - 1 := v];
      Count1Clear(c[1..], i - 1, v);
    }
  }

  /** The neighbourhood index of cube cell i: cells 0..12 keep their index, 13..25 skip the centre. */
  function HoodIndex(i: nat): nat { if i < 13 then i else i + 1 }

  /** The 26 neighbours in neighbourhood order, centre removed. */
  function Cube(n: seq<int>): (c: seq<int>)
    requires |n| == 27
    ensures |c| == 26
    ensures forall i :: 0 <= i < 26 ==> c[i] == n[HoodIndex(i)]
  {
    n[..13] + n[14..]
  }

  lemma Count1Cube(n: seq<int>)
    requires |n| == 27
    ensures Count1(n) == Count1(Cube(n)) + (if n[Center] == 1 then 1 else 0)
  {
    assert n == n[..13] + [n[13]] + n[14..];
    Count1Append(n[..13] + [n[13]], n[14..]);
    Count1Append(n[..13], [n[13]]);
    Count1Append(n[..13], n[14..]);
  }

  /**
   * The endpoint test as the source computes it: the counter starts at -1
   * and counts every one of the 27 entries equal to 1, centre included.
   */
  predicate Endpoint(n: seq<int>)
    requires |n| == 27
  {
    Count1(n) - 1 == 1
  }

  /**
   * For a foreground centre the -1 start cancels the centre, so the test
   * says "exactly one of the 26 neighbours is foreground"; for any other
   * centre it would ask for exactly two.
   */
  lemma EndpointMeaning(n: seq<int>)
    requires |n| == 27
    ensures n[Center] == 1 ==> (Endpoint(n) <==> Count1(Cube(n)) == 1)
    ensures n[Center] != 1 ==> (Endpoint(n) <==> Count1(Cube(n)) == 2)
  {
    Count1Cube(n);
  }
}
