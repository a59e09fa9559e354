/** Index-based raster lattices. Both raster counters of the system walk a
    cursor from a lower bound in fixed steps while it stays at or below an
    upper bound; here the k-th cursor value is `lo + k * step`, computed from
    the index rather than accumulated, so there is no floating-point drift. */
module Lattice {

  /** A sample point in degrees. */
  datatype Point = Point(lng: real, lat: real)

  /** The cosine of a latitude given in degrees stands for
      `Math.cos(lat * Math.PI / 180)`; it is positive at every latitude the
      system handles. */
  ghost predicate CosPositive(cosDeg: real -> real) {
    forall x :: cosDeg(x) > 0.0
  }

  /** The k-th cursor value of a walk that starts at `lo` and advances by `step`. */
  function Coord(lo: real, step: real, k: nat): real {
    lo + (k as real) * step
  }

  /** Number of cursor values `lo + k * step` (k >= 0) that are `<= hi`:
      zero for an empty interval, otherwise floor((hi - lo) / step) + 1. */
  function Count(lo: real, hi: real, step: real): nat
    requires step > 0.0
  {
    if hi < lo then 0 else ((hi - lo) / step).Floor + 1
  }

  /** The loop guard `lo + k * step <= hi` holds exactly for the first
      `Count(lo, hi, step)` indices: this is what makes the closed form the
      number of iterations of the source's `for` loops. */
  lemma CoordWithin(lo: real, hi: real, step: real, k: nat)
    requires step > 0.0
    ensures Coord(lo, step, k) <= hi <==> k < Count(lo, hi, step)
  {
    if hi >= lo {
      GuardAsQuotient(lo, hi, step, k);
      FloorOrder(k, (hi - lo) / step);
    } else {
      assert (k as real) * step >= 0.0;
    }
  }

  /** The guard `lo + k * step <= hi` compares k with the quotient (hi - lo) / step. */
  lemma GuardAsQuotient(lo: real, hi: real, step: real, k: nat)
    requires step > 0.0
    ensures Coord(lo, step, k) <= hi <==> (k as real) <= (hi - lo) / step
  {
    var q := (hi - lo) / step;
    assert q * step == hi - lo;
    ScaleOrder(k as real, q, step);
  }

  lemma ScaleOrder(a: real, b: real, step: real)
    requires step > 0.0
    ensures a * step <= b * step <==> a <= b
  {
    if a <= b {
      assert (b - a) * step >= 0.0;
    } else {
      assert (a - b) * step > 0.0;
    }
  }

  lemma FloorOrder(k: int, q: real)
    ensures (k as real) <= q <==> k <= q.Floor
  {
  }

  /** A non-empty interval always holds the starting cursor. */
  lemma CountPositive(lo: real, hi: real, step: real)
    requires step > 0.0 && lo <= hi
    ensures Count(lo, hi, step) >= 1
  {
    CoordWithin(lo, hi, step, 0);
  }

  /** A larger step never yields more cursor values over the same interval. */
  lemma CountAntitone(lo: real, hi: real, small: real, large: real)
    requires 0.0 < small <= large
    ensures Count(lo, hi, large) <= Count(lo, hi, small)
  {
    var n := Count(lo, hi, large);
    if n > 0 {
      CoordWithin(lo, hi, large, n - 1);
      assert ((n - 1) as real) * small <= ((n - 1) as real) * large;
      CoordWithin(lo, hi, small, n - 1);
    }
  }

  /** The cursor values of one axis, in visiting order. */
  function Axis(lo: real, step: real, n: nat): (r: seq<real>)
    ensures |r| == n
    ensures forall k :: 0 <= k < n ==> r[k] == Coord(lo, step, k)
  {
    seq(n, k requires 0 <= k < n => Coord(lo, step, k))
  }

  /** One row of the lattice: a fixed latitude, every longitude of the inner loop. */
  function Row(lat: real, lngs: seq<real>): (r: seq<Point>)
    ensures |r| == |lngs|
    ensures forall j :: 0 <= j < |lngs| ==> r[j] == Point(lngs[j], lat)
  {
    seq(|lngs|, j requires 0 <= j < |lngs| => Point(lngs[j], lat))
  }

  /** The lattice in the order the nested loops visit it: outer loop over
      latitudes, inner loop over longitudes. */
  function RowMajor(lats: seq<real>, lngs: seq<real>): (r: seq<Point>)
    decreases |lats|
  {
    if lats == [] then []
    else RowMajor(lats[..|lats| - 1], lngs) + Row(lats[|lats| - 1], lngs)
  }

  lemma {:induction false} RowMajorLength(lats: seq<real>, lngs: seq<real>)
    ensures |RowMajor(lats, lngs)| == |lats| * |lngs|
    decreases |lats|
  {
    if lats != [] {
      RowMajorLength(lats[..|lats| - 1], lngs);
      assert |lats| * |lngs| == (|lats| - 1) * |lngs| + |lngs|;
    }
  }

  /** Every lattice point pairs a longitude of the inner axis with a latitude
      of the outer axis, and every such pair is a lattice point. */
  lemma {:induction false} RowMajorMembers(lats: seq<real>, lngs: seq<real>, p: Point)
    ensures p in RowMajor(lats, lngs) <==> p.lat in lats && p.lng in lngs
    decreases |lats|
  {
    if lats != [] {
      var init := lats[..|lats| - 1];
      RowMajorMembers(init, lngs, p);
      assert lats == init + [lats[|lats| - 1]];
      var row := Row(lats[|lats| - 1], lngs);
      assert p in row <==> p.lat == lats[|lats| - 1] && p.lng in lngs by {
        if p in row {
          var j :| 0 <= j < |row| && row[j] == p;
        }
        if p.lat == lats[|lats| - 1] && p.lng in lngs {
          var j :| 0 <= j < |lngs| && lngs[j] == p.lng;
          assert row[j] == p;
        }
      }
    }
  }

  /** Extending the visited prefix by one point of the current row. */
  lemma RowMajorStep(lats: seq<real>, lngs: seq<real>, i: nat, j: nat)
    requires i < |lats| && j < |lngs|
    ensures RowMajor(lats[..i], lngs) + Row(lats[i], lngs)[..j + 1]
         == RowMajor(lats[..i], lngs) + Row(lats[i], lngs)[..j] + [Point(lngs[j], lats[i])]
  {
    var row := Row(lats[i], lngs);
    var done := RowMajor(lats[..i], lngs);
    assert row[..j + 1] == row[..j] + [row[j]];
    assert done + (row[..j] + [row[j]]) == done + row[..j] + [row[j]];
  }

  /** Finishing a row completes the next prefix of whole rows. */
  lemma RowMajorNextRow(lats: seq<real>, lngs: seq<real>, i: nat)
    requires i < |lats|
    ensures RowMajor(lats[..i + 1], lngs) == RowMajor(lats[..i], lngs) + Row(lats[i], lngs)[..|lngs|]
  {
    var front := lats[..i + 1];
    assert front[..|front| - 1] == lats[..i] && front[|front| - 1] == lats[i];
    assert RowMajor(front, lngs) == RowMajor(lats[..i], lngs) + Row(lats[i], lngs);
    assert Row(lats[i], lngs)[..|lngs|] == Row(lats[i], lngs);
  }
}
