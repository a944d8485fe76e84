/**
 * `load_file` of the VTK streamlines plugin
 * (plugins/geometry_vtk_streamlines.cpp): the cells of a VTK data set are
 * filtered down to two-point line segments. Each kept segment contributes the
 * coordinates of both end points to `positions` and one start index to
 * `indices`; the index counter is a `uint32_t` that advances by two.
 *
 * The data set is given as its cells and its points; a point is three
 * opaque coordinates.
 */
module Streamlines {
  import opened Bytes
  import opened Wrappers
  import opened Seqs

  /** VTK's cell-type code for a line. */
  const VTK_LINE: int := 3

  datatype Point = Point(x: F32, y: F32, z: F32)

  datatype Cell = Cell(cellType: int, pointIds: seq<nat>)

  /** A cell the loop keeps: a line with exactly two points. */
  predicate IsSegment(c: Cell)
  {
    c.cellType == VTK_LINE && |c.pointIds| == 2
  }

  /** Every point id of every kept cell names a point of the data set. */
  predicate PointIdsValid(cells: seq<Cell>, points: nat)
  {
    forall i :: 0 <= i < |cells| && IsSegment(cells[i]) ==>
      cells[i].pointIds[0] < points && cells[i].pointIds[1] < points
  }

  /** The kept cells, in order. */
  function Segments(cells: seq<Cell>): (r: seq<Cell>)
    ensures |r| <= |cells|
    ensures forall k :: 0 <= k < |r| ==> IsSegment(r[k])
  {
    if cells == [] then []
    else Segments(cells[..|cells| - 1]) + (if IsSegment(cells[|cells| - 1]) then [cells[|cells| - 1]] else [])
  }

  /** The six coordinates a segment contributes. */
  function EndPoints(p: Point, q: Point): (r: seq<F32>)
    ensures |r| == 6
  {
    [p.x, p.y, p.z, q.x, q.y, q.z]
  }

  /** The positions written for the kept cells among `cells`. */
  function Positions(cells: seq<Cell>, points: seq<Point>): (r: seq<F32>)
    requires PointIdsValid(cells, |points|)
  {
    if cells == [] then []
    else
      var c := cells[|cells| - 1];
      Positions(cells[..|cells| - 1], points)
        + (if IsSegment(c) then EndPoints(points[c.pointIds[0]], points[c.pointIds[1]]) else [])
  }

  /** `curindex` after `n` kept segments: advanced by two each time, as a `uint32_t`. */
  function CurIndex(n: nat): u32
  {
    if n == 0 then 0 else (CurIndex(n - 1) + 2) % U32_LIMIT
  }

  /** The start indices of `n` segments: the value of `curindex` when each was kept. */
  function StartIndices(n: nat): (r: seq<u32>)
    ensures |r| == n
  {
    if n == 0 then [] else StartIndices(n - 1) + [CurIndex(n - 1)]
  }

  /** `curindex` counts in steps of two, modulo 2^32. */
  lemma {:induction false} CurIndexValue(n: nat)
    ensures CurIndex(n) == (2 * n) % U32_LIMIT
  {
    if n > 0 {
      CurIndexValue(n - 1);
      var a := 2 * (n - 1);
      var q, r := a / U32_LIMIT, a % U32_LIMIT;
      assert a == q * U32_LIMIT + r;
      if r + 2 < U32_LIMIT {
        ModOf(2 * n, q, r + 2);
      } else {
        ModOf(2 * n, q + 1, r + 2 - U32_LIMIT);
      }
    }
  }

  lemma ModOf(x: int, k: int, s: int)
    requires 0 <= s < U32_LIMIT && x == k * U32_LIMIT + s
    ensures x % U32_LIMIT == s
  {
  }

  /**
   * The cell loop: skip every cell that is not a two-point line, append both
   * end points' coordinates and `curindex` for the others, and advance
   * `curindex` by two.
   */
  method LoadSegments(cells: seq<Cell>, points: seq<Point>) returns (positions: seq<F32>, indices: seq<u32>)
    requires PointIdsValid(cells, |points|)
    ensures positions == Positions(cells, points)
    ensures indices == StartIndices(|Segments(cells)|)
  {
    positions, indices := [], [];
    var curindex: u32 := 0;
    for i := 0 to |cells|
      invariant Loaded(cells, points, i, positions, indices, curindex)
    {
      var cell := cells[i];
      if cell.cellType != VTK_LINE {
        LoadSkip(cells, points, i, positions, indices, curindex);
        continue;
      }
      if |cell.pointIds| != 2 {
        LoadSkip(cells, points, i, positions, indices, curindex);
        continue;
      }
      LoadKeep(cells, points, i, positions, indices, curindex);
      var p := points[cell.pointIds[0]];
      var q := points[cell.pointIds[1]];
      positions := positions + [p.x, p.y, p.z];
      positions := positions + [q.x, q.y, q.z];
      indices := indices + [curindex];
      curindex := (curindex + 2) % U32_LIMIT;
    }
    assert cells[..|cells|] == cells;
  }

  /** The loop's lists and counter after the first `i` cells. */
  predicate Loaded(cells: seq<Cell>, points: seq<Point>, i: nat,
                   positions: seq<F32>, indices: seq<u32>, curindex: u32)
  {
    i <= |cells| && PointIdsValid(cells, |points|) && PointIdsValid(cells[..i], |points|) &&
    positions == Positions(cells[..i], points) &&
    indices == StartIndices(|Segments(cells[..i])|) &&
    Counted(indices, curindex)
  }

  /** `curindex` is the counter's value after the indices kept so far. */
  predicate Counted(indices: seq<u32>, curindex: u32)
  {
    curindex == CurIndex(|indices|)
  }

  /** Keeping the current index and adding two moves the counter on by one segment. */
  lemma CounterStep(indices: seq<u32>, curindex: u32)
    requires Counted(indices, curindex)
    ensures Counted(indices + [curindex], (curindex + 2) % U32_LIMIT)
  {
  }

  /** A cell that is not a two-point line leaves the loop's state as it was. */
  lemma LoadSkip(cells: seq<Cell>, points: seq<Point>, i: nat,
                 positions: seq<F32>, indices: seq<u32>, curindex: u32)
    requires Loaded(cells, points, i, positions, indices, curindex) && i < |cells|
    requires !IsSegment(cells[i])
    ensures Loaded(cells, points, i + 1, positions, indices, curindex)
  {
    PrefixStep(cells, points, i);
  }

  /** A two-point line appends its end points and the current index, and advances the index by two. */
  lemma LoadKeep(cells: seq<Cell>, points: seq<Point>, i: nat,
                 positions: seq<F32>, indices: seq<u32>, curindex: u32)
    requires Loaded(cells, points, i, positions, indices, curindex) && i < |cells|
    requires IsSegment(cells[i])
    ensures cells[i].pointIds[0] < |points| && cells[i].pointIds[1] < |points|
    ensures var p, q := points[cells[i].pointIds[0]], points[cells[i].pointIds[1]];
            Loaded(cells, points, i + 1, positions + [p.x, p.y, p.z] + [q.x, q.y, q.z],
                   indices + [curindex], (curindex + 2) % U32_LIMIT)
  {
    PrefixStep(cells, points, i);
    var p, q := points[cells[i].pointIds[0]], points[cells[i].pointIds[1]];
    var count := |Segments(cells[..i])|;
    assert |Segments(cells[..i + 1])| == count + 1;
    assert StartIndices(count + 1) == indices + [curindex];
    CounterStep(indices, curindex);
    assert positions + [p.x, p.y, p.z] + [q.x, q.y, q.z] == positions + EndPoints(p, q);
  }

  /** One more cell of the loop: the lists grow by that cell's contribution only. */
  lemma PrefixStep(cells: seq<Cell>, points: seq<Point>, i: nat)
    requires PointIdsValid(cells, |points|) && i < |cells|
    ensures PointIdsValid(cells[..i + 1], |points|)
    ensures IsSegment(cells[i]) ==> cells[i].pointIds[0] < |points| && cells[i].pointIds[1] < |points|
    ensures Segments(cells[..i + 1])
            == Segments(cells[..i]) + (if IsSegment(cells[i]) then [cells[i]] else [])
    ensures Positions(cells[..i + 1], points)
            == Positions(cells[..i], points)
               + (if IsSegment(cells[i]) then EndPoints(points[cells[i].pointIds[0]], points[cells[i].pointIds[1]]) else [])
  {
    assert cells[..i + 1][..i] == cells[..i];
  }

  /** Each kept segment contributes six coordinates: `|positions| == 6 * |indices|`. */
  lemma {:induction false} PositionsLength(cells: seq<Cell>, points: seq<Point>)
    requires PointIdsValid(cells, |points|)
    ensures |Positions(cells, points)| == 6 * |Segments(cells)|
  {
    if cells != [] {
      PositionsLength(cells[..|cells| - 1], points);
    }
  }

  /** Index `k` is the start of segment `k`: `2 * k`, wrapped to 32 bits. */
  lemma {:induction false} StartIndexAt(n: nat, k: nat)
    requires k < n
    ensures StartIndices(n)[k] == (2 * k) % U32_LIMIT
  {
    if k < n - 1 {
      StartIndexAt(n - 1, k);
    } else {
      CurIndexValue(k);
    }
  }

  /**
   * Coordinates `6 * k .. 6 * k + 6` are the two end points of the `k`-th
   * kept cell, first point first.
   */
  lemma {:induction false} PositionsAt(cells: seq<Cell>, points: seq<Point>, k: nat)
    requires PointIdsValid(cells, |points|) && k < |Segments(cells)|
    ensures 6 * k + 6 <= |Positions(cells, points)|
    ensures Segments(cells)[k].pointIds[0] < |points| && Segments(cells)[k].pointIds[1] < |points|
    ensures Positions(cells, points)[6 * k..6 * k + 6]
            == EndPoints(points[Segments(cells)[k].pointIds[0]], points[Segments(cells)[k].pointIds[1]])
  {
    assert cells != [];
    var init := cells[..|cells| - 1];
    var c := cells[|cells| - 1];
    PositionsLength(init, points);
    PositionsLength(cells, points);
    SegmentsValid(cells, |points|);
    var prev := Positions(init, points);
    var all := Positions(cells, points);
    if k < |Segments(init)| {
      PositionsAt(init, points, k);
      assert Segments(cells)[k] == Segments(init)[k];
      var last := if IsSegment(c) then EndPoints(points[c.pointIds[0]], points[c.pointIds[1]]) else [];
      SliceLeft(prev, last, all, 6 * k, 6 * k + 6);
    } else {
      assert IsSegment(c) && Segments(cells)[k] == c;
      assert 6 * k == |prev|;
      SliceRight(prev, EndPoints(points[c.pointIds[0]], points[c.pointIds[1]]), all);
    }
  }

  /** The kept cells' point ids are valid, as the data set guarantees for every cell. */
  lemma {:induction false} SegmentsValid(cells: seq<Cell>, points: nat)
    requires PointIdsValid(cells, points)
    ensures forall k :: 0 <= k < |Segments(cells)| ==>
              Segments(cells)[k].pointIds[0] < points && Segments(cells)[k].pointIds[1] < points
  {
    if cells != [] {
      var init := cells[..|cells| - 1];
      assert PointIdsValid(init, points) by {
        forall i | 0 <= i < |init| && IsSegment(init[i])
          ensures init[i].pointIds[0] < points && init[i].pointIds[1] < points
        {
          assert init[i] == cells[i];
        }
      }
      SegmentsValid(init, points);
    }
  }

  /** A cell that is not a two-point line adds nothing to either list. */
  lemma SkippedCell(cells: seq<Cell>, points: seq<Point>, c: Cell)
    requires PointIdsValid(cells + [c], |points|) && !IsSegment(c)
    ensures Segments(cells + [c]) == Segments(cells)
    ensures PointIdsValid(cells, |points|)
    ensures Positions(cells + [c], points) == Positions(cells, points)
  {
    assert (cells + [c])[..|cells|] == cells;
    forall i | 0 <= i < |cells| && IsSegment(cells[i])
      ensures cells[i].pointIds[0] < |points| && cells[i].pointIds[1] < |points|
    {
      assert (cells + [c])[i] == cells[i];
    }
  }

  /** The tube radius: the `radius` parameter if present, else 1.0. */
  function Radius(radiusParameter: Option<F32>): (r: F32)
    ensures radiusParameter.Some? ==> r == radiusParameter.value
    ensures radiusParameter.None? ==> r == F32(0x3F80_0000)   // 1.0f
  {
    match radiusParameter
    case Some(v) => v
    case None => F32(0x3F80_0000)
  }
}
