/**
 * The raw-volume plugin (plugins/volume_raw.cpp): the voxel-type table and
 * endian flip of `load`, and the unstructured-grid path of
 * `load_as_unstructured`, which turns a `d0 x d1 x d2` grid of points into
 * hexahedral cells in VTK_HEXAHEDRON corner order.
 *
 * Grid point `(i, j, k)` is point number `(k * d1 + j) * d0 + i`: `i` runs
 * fastest. The object-to-world transform of each point is a float
 * computation and is a parameter here.
 */
module VolumeRaw {
  import opened Bytes
  import opened Wrappers
  import opened Seqs
  import Util

  /** How many bytes `load` reads per grid point, by voxel type. */
  function VoxelSize(voxelType: string): (r: Result<nat>)
    ensures r.Ok? <==> voxelType in {"uchar", "ushort", "float"}
    ensures voxelType == "uchar" ==> r == Ok(1)
    ensures voxelType == "ushort" ==> r == Ok(2)
    ensures voxelType == "float" ==> r == Ok(4)
  {
    if voxelType == "uchar" then Ok(1)
    else if voxelType == "ushort" then Ok(2)
    else if voxelType == "float" then Ok(4)
    else Failure("ERROR: unhandled voxel data type '" + voxelType + "'!\n")
  }

  /** The number of bytes `load` reads from the file for a grid of `points` points. */
  function ReadSize(voxelType: string, points: nat): (r: Result<nat>)
    ensures r.Ok? <==> VoxelSize(voxelType).Ok?
    ensures r.Ok? ==> r.value == VoxelSize(voxelType).value * points
  {
    match VoxelSize(voxelType)
    case Ok(size) => Ok(size * points)
    case Failure(m) => Failure(m)
  }

  function SwapAll(values: seq<F32>, littleEndianHost: bool): (r: seq<F32>)
    ensures |r| == |values|
    ensures forall i :: 0 <= i < |values| ==> r[i] == Util.FloatSwap(values[i], littleEndianHost)
  {
    seq(|values|, i requires 0 <= i < |values| => Util.FloatSwap(values[i], littleEndianHost))
  }

  /** Flipping a float grid twice gives back the values read from the file. */
  lemma SwapAllTwice(values: seq<F32>, littleEndianHost: bool)
    ensures SwapAll(SwapAll(values, littleEndianHost), littleEndianHost) == values
  {
    forall i | 0 <= i < |values|
      ensures SwapAll(SwapAll(values, littleEndianHost), littleEndianHost)[i] == values[i]
    {
      Util.FloatSwapInvolution(values[i], littleEndianHost);
    }
  }

  /**
   * The endian flip of `load`: applied in place, one value at a time, only
   * when `endian_flip` is set and the voxels are floats; for any other voxel
   * type a warning is printed and the values stay as read.
   */
  method EndianFlip(values: array<F32>, voxelType: string, endianFlip: bool, littleEndianHost: bool)
    returns (warned: bool)
    modifies values
    ensures values[..] == if endianFlip && voxelType == "float"
                          then SwapAll(old(values[..]), littleEndianHost)
                          else old(values[..])
    ensures warned <==> endianFlip && voxelType != "float"
  {
    warned := false;
    if endianFlip {
      if voxelType == "float" {
        for i := 0 to values.Length
          invariant forall k :: 0 <= k < i ==> values[k] == Util.FloatSwap(old(values[k]), littleEndianHost)
          invariant forall k :: i <= k < values.Length ==> values[k] == old(values[k])
        {
          values[i] := Util.FloatSwap(values[i], littleEndianHost);
        }
      } else {
        warned := true;
      }
    }
  }

  /** Grid dimensions as `load_as_unstructured` needs them: at least one point per axis. */
  predicate ValidDims(d0: int, d1: int, d2: int)
  {
    d0 >= 1 && d1 >= 1 && d2 >= 1
  }

  /** The number of grid point `(i, j, k)`. */
  function PointIndex(d0: nat, d1: nat, i: nat, j: nat, k: nat): nat
  {
    (k * d1 + j) * d0 + i
  }

  lemma MulMono(a: nat, b: nat, c: nat)
    requires b <= c
    ensures a * b <= a * c
  {
  }

  lemma PointIndexExpand(d0: nat, d1: nat, i: nat, j: nat, k: nat)
    ensures PointIndex(d0, d1, i, j, k) == k * (d0 * d1) + j * d0 + i
    ensures j + 1 < d1 ==> PointIndex(d0, d1, i, j + 1, k) == PointIndex(d0, d1, i, j, k) + d0
    ensures PointIndex(d0, d1, i, j, k + 1) == PointIndex(d0, d1, i, j, k) + d0 * d1
  {
    assert (k * d1 + j) * d0 == k * d1 * d0 + j * d0;
    assert ((k + 1) * d1 + j) * d0 == (k * d1 + j) * d0 + d1 * d0;
  }

  /** A point inside the grid has a number below `d0 * d1 * d2`. */
  lemma PointIndexBound(d0: nat, d1: nat, d2: nat, i: nat, j: nat, k: nat)
    requires i < d0 && j < d1 && k < d2
    ensures PointIndex(d0, d1, i, j, k) < d0 * d1 * d2
  {
    MulMono(d0, k * d1 + j + 1, (k + 1) * d1);
    MulMono(d0 * d1, k + 1, d2);
    assert (k + 1) * d1 * d0 == d0 * d1 * (k + 1);
  }

  /** The eight indices the loop writes for cell `(i, j, k)`, as the source computes them. */
  function HexCell(d0: nat, d1: nat, i: nat, j: nat, k: nat): (r: seq<int>)
    ensures |r| == 8
  {
    var ystep := d0;
    var zstep := d0 * d1;
    var base := k * zstep + j * ystep + i;
    [base, base + 1, base + ystep + 1, base + ystep,
     base + zstep, base + zstep + 1, base + zstep + ystep + 1, base + zstep + ystep]
  }

  /**
   * The cell's indices are its eight corners in VTK_HEXAHEDRON order: the
   * `k` face counter-clockwise from `(i, j)`, then the `k + 1` face, and all
   * of them are points of the grid.
   */
  lemma HexCellCorners(d0: nat, d1: nat, d2: nat, i: nat, j: nat, k: nat)
    requires i + 1 < d0 && j + 1 < d1 && k + 1 < d2
    ensures HexCell(d0, d1, i, j, k) ==
              [PointIndex(d0, d1, i, j, k), PointIndex(d0, d1, i + 1, j, k),
               PointIndex(d0, d1, i + 1, j + 1, k), PointIndex(d0, d1, i, j + 1, k),
               PointIndex(d0, d1, i, j, k + 1), PointIndex(d0, d1, i + 1, j, k + 1),
               PointIndex(d0, d1, i + 1, j + 1, k + 1), PointIndex(d0, d1, i, j + 1, k + 1)]
    ensures forall t :: 0 <= t < 8 ==> 0 <= HexCell(d0, d1, i, j, k)[t] < d0 * d1 * d2
  {
    PointIndexExpand(d0, d1, i, j, k);
    PointIndexExpand(d0, d1, i, j + 1, k);
    PointIndexExpand(d0, d1, i, j, k + 1);
    PointIndexExpand(d0, d1, i, j + 1, k + 1);
    PointIndexBound(d0, d1, d2, i, j, k);
    PointIndexBound(d0, d1, d2, i + 1, j, k);
    PointIndexBound(d0, d1, d2, i + 1, j + 1, k);
    PointIndexBound(d0, d1, d2, i, j + 1, k);
    PointIndexBound(d0, d1, d2, i, j, k + 1);
    PointIndexBound(d0, d1, d2, i + 1, j, k + 1);
    PointIndexBound(d0, d1, d2, i + 1, j + 1, k + 1);
    PointIndexBound(d0, d1, d2, i, j + 1, k + 1);
  }

  /** Cells `(0..n, j, k)`. */
  function HexRow(d0: nat, d1: nat, j: nat, k: nat, n: nat): (r: seq<int>)
    ensures |r| == 8 * n
  {
    if n == 0 then [] else HexRow(d0, d1, j, k, n - 1) + HexCell(d0, d1, n - 1, j, k)
  }

  /** Rows `0..m` of plane `k`. */
  function HexPlane(d0: nat, d1: nat, k: nat, m: nat): seq<int>
    requires d0 >= 1
  {
    if m == 0 then []
    else HexPlane(d0, d1, k, m - 1) + HexRow(d0, d1, m - 1, k, d0 - 1)
  }

  /** Planes `0..n`: all cells with `k < n`, `k` slowest and `i` fastest. */
  function HexVolume(d0: nat, d1: nat, n: nat): seq<int>
    requires d0 >= 1 && d1 >= 1
  {
    if n == 0 then []
    else HexVolume(d0, d1, n - 1) + HexPlane(d0, d1, n - 1, d1 - 1)
  }

  lemma {:induction false} HexPlaneLength(d0: nat, d1: nat, k: nat, m: nat)
    requires d0 >= 1
    ensures |HexPlane(d0, d1, k, m)| == 8 * (d0 - 1) * m
  {
    if m > 0 {
      HexPlaneLength(d0, d1, k, m - 1);
      MulStep(8 * (d0 - 1), m);
    }
  }

  lemma {:induction false} HexVolumeLength(d0: nat, d1: nat, n: nat)
    requires d0 >= 1 && d1 >= 1
    ensures |HexVolume(d0, d1, n)| == 8 * (d0 - 1) * (d1 - 1) * n
  {
    if n > 0 {
      HexVolumeLength(d0, d1, n - 1);
      HexPlaneLength(d0, d1, n - 1, d1 - 1);
      MulStep(8 * (d0 - 1) * (d1 - 1), n);
    }
  }

  predicate AllPointsOf(s: seq<int>, points: nat)
  {
    forall t :: 0 <= t < |s| ==> 0 <= s[t] < points
  }

  lemma {:induction false} HexRowInGrid(d0: nat, d1: nat, d2: nat, j: nat, k: nat, n: nat)
    requires n < d0 && j + 1 < d1 && k + 1 < d2
    ensures AllPointsOf(HexRow(d0, d1, j, k, n), d0 * d1 * d2)
  {
    if n > 0 {
      HexRowInGrid(d0, d1, d2, j, k, n - 1);
      HexCellCorners(d0, d1, d2, n - 1, j, k);
    }
  }

  lemma {:induction false} HexPlaneInGrid(d0: nat, d1: nat, d2: nat, k: nat, m: nat)
    requires ValidDims(d0, d1, d2) && m < d1 && k + 1 < d2
    ensures AllPointsOf(HexPlane(d0, d1, k, m), d0 * d1 * d2)
  {
    if m > 0 {
      HexPlaneInGrid(d0, d1, d2, k, m - 1);
      HexRowInGrid(d0, d1, d2, m - 1, k, d0 - 1);
    }
  }

  /** Every index of every cell names a point of the grid. */
  lemma {:induction false} HexVolumeInGrid(d0: nat, d1: nat, d2: nat, n: nat)
    requires ValidDims(d0, d1, d2) && n < d2
    ensures AllPointsOf(HexVolume(d0, d1, n), d0 * d1 * d2)
  {
    if n > 0 {
      HexVolumeInGrid(d0, d1, d2, n - 1);
      HexPlaneInGrid(d0, d1, d2, n - 1, d1 - 1);
    }
  }

  /** The grid has `(d0 - 1) * (d1 - 1) * (d2 - 1)` cells of eight indices. */
  lemma HexTotal(d0: nat, d1: nat, d2: nat)
    requires ValidDims(d0, d1, d2)
    ensures |HexVolume(d0, d1, d2 - 1)| == 8 * ((d0 - 1) * (d1 - 1) * (d2 - 1))
  {
    HexVolumeLength(d0, d1, d2 - 1);
    Regroup(8, d0 - 1, d1 - 1, d2 - 1);
  }

  /** Cells written before cell `(i, j, k)`, and that cell, fit in the index array. */
  lemma HexCursor(d0: nat, d1: nat, d2: nat, i: nat, j: nat, k: nat)
    requires ValidDims(d0, d1, d2) && i + 1 < d0 && j + 1 < d1 && k + 1 < d2
    ensures |HexVolume(d0, d1, k)| + |HexPlane(d0, d1, k, j)| + |HexRow(d0, d1, j, k, i)| + 8
            <= 8 * ((d0 - 1) * (d1 - 1) * (d2 - 1))
  {
    HexVolumeLength(d0, d1, k);
    HexPlaneLength(d0, d1, k, j);
    StrideBound(8 * (d0 - 1), 8 * i + 8, j, d1 - 1);
    StrideBound(8 * (d0 - 1) * (d1 - 1), 8 * (d0 - 1) * j + 8 * i + 8, k, d2 - 1);
    Regroup(8, d0 - 1, d1 - 1, d2 - 1);
  }

  /** `x` more than `k` strides of `s`, with `x <= s`, is at most `n > k` strides. */
  lemma StrideBound(s: nat, x: nat, k: nat, n: nat)
    requires x <= s && k < n
    ensures s * k + x <= s * n
  {
    MulMono(s, k + 1, n);
  }

  /** One more stride of `a`. */
  lemma MulStep(a: int, m: int)
    ensures a * (m - 1) + a == a * m
  {
  }

  lemma Regroup(a: int, b: int, c: int, d: int)
    ensures a * b * c * d == a * (b * c * d)
  {
  }

  /**
   * The hexahedron loop: for `k`, `j`, `i` below `d2 - 1`, `d1 - 1`, `d0 - 1`,
   * write the cell's eight indices at the cursor and advance it by eight.
   */
  method HexIndices(d0: nat, d1: nat, d2: nat) returns (indices: array<int>)
    requires ValidDims(d0, d1, d2)
    ensures indices.Length == 8 * ((d0 - 1) * (d1 - 1) * (d2 - 1))
    ensures indices[..] == HexVolume(d0, d1, d2 - 1)
  {
    HexCount(d0, d1, d2);
    indices := new int[8 * ((d0 - 1) * (d1 - 1) * (d2 - 1))];
    var hex: nat := 0;
    for k := 0 to d2 - 1
      invariant hex == |HexVolume(d0, d1, k)| <= indices.Length
      invariant indices[..hex] == HexVolume(d0, d1, k)
    {
      hex := WriteHexPlane(indices, hex, d0, d1, d2, k);
    }
    HexTotal(d0, d1, d2);
    assert hex == indices.Length;
    assert indices[..] == indices[..hex];
  }

  /** The middle loop of the hexahedron loop: the rows of plane `k`. */
  method WriteHexPlane(indices: array<int>, hex: nat, d0: nat, d1: nat, d2: nat, k: nat)
    returns (next: nat)
    requires ValidDims(d0, d1, d2) && k + 1 < d2
    requires indices.Length == 8 * ((d0 - 1) * (d1 - 1) * (d2 - 1))
    requires hex == |HexVolume(d0, d1, k)| <= indices.Length
    requires indices[..hex] == HexVolume(d0, d1, k)
    modifies indices
    ensures next == |HexVolume(d0, d1, k + 1)| <= indices.Length
    ensures indices[..next] == old(indices[..hex]) + HexPlane(d0, d1, k, d1 - 1)
    ensures indices[..next] == HexVolume(d0, d1, k + 1)
  {
    HexPlaneEnd(d0, d1, d2, k);
    next := hex;
    for j := 0 to d1 - 1
      invariant next == hex + |HexPlane(d0, d1, k, j)| <= indices.Length
      invariant indices[..next] == old(indices[..hex]) + HexPlane(d0, d1, k, j)
    {
      ghost var before := indices[..next];
      next := WriteHexRow(indices, next, d0, d1, d2, j, k);
      Snoc(old(indices[..hex]), HexPlane(d0, d1, k, j), HexRow(d0, d1, j, k, d0 - 1), before, indices[..next]);
    }
    assert HexVolume(d0, d1, k + 1) == HexVolume(d0, d1, k) + HexPlane(d0, d1, k, d1 - 1);
  }

  lemma HexCount(d0: nat, d1: nat, d2: nat)
    requires ValidDims(d0, d1, d2)
    ensures (d0 - 1) * (d1 - 1) * (d2 - 1) >= 0
  {
  }

  lemma PlaneStride(d0: nat, d1: nat)
    requires d0 >= 1 && d1 >= 1
    ensures 8 * (d0 - 1) * (d1 - 1) >= 0
  {
  }

  /** Plane `k` ends inside the index array. */
  lemma HexPlaneEnd(d0: nat, d1: nat, d2: nat, k: nat)
    requires ValidDims(d0, d1, d2) && k + 1 < d2
    ensures |HexVolume(d0, d1, k + 1)| <= 8 * ((d0 - 1) * (d1 - 1) * (d2 - 1))
  {
    HexVolumeLength(d0, d1, k + 1);
    PlaneStride(d0, d1);
    MulMono(8 * (d0 - 1) * (d1 - 1), k + 1, d2 - 1);
    Regroup(8, d0 - 1, d1 - 1, d2 - 1);
  }

  /** The innermost loop of the hexahedron loop: the cells of row `j` of plane `k`. */
  method WriteHexRow(indices: array<int>, hex: nat, d0: nat, d1: nat, d2: nat, j: nat, k: nat)
    returns (next: nat)
    requires ValidDims(d0, d1, d2) && j + 1 < d1 && k + 1 < d2
    requires indices.Length == 8 * ((d0 - 1) * (d1 - 1) * (d2 - 1))
    requires hex == |HexVolume(d0, d1, k)| + |HexPlane(d0, d1, k, j)|
    modifies indices
    ensures next == hex + |HexRow(d0, d1, j, k, d0 - 1)| <= indices.Length
    ensures indices[..next] == old(indices[..hex]) + HexRow(d0, d1, j, k, d0 - 1)
  {
    HexRowEnd(d0, d1, d2, j, k);
    next := hex;
    for i := 0 to d0 - 1
      invariant next == hex + |HexRow(d0, d1, j, k, i)| <= indices.Length
      invariant indices[..next] == old(indices[..hex]) + HexRow(d0, d1, j, k, i)
    {
      HexCursor(d0, d1, d2, i, j, k);
      ghost var before := indices[..next];
      var cell := HexCell(d0, d1, i, j, k);
      next := WriteAt(indices, next, cell);
      Snoc(old(indices[..hex]), HexRow(d0, d1, j, k, i), cell, before, indices[..next]);
    }
  }

  /** Row `j` of plane `k` ends inside the index array. */
  lemma HexRowEnd(d0: nat, d1: nat, d2: nat, j: nat, k: nat)
    requires ValidDims(d0, d1, d2) && j + 1 < d1 && k + 1 < d2
    ensures |HexVolume(d0, d1, k)| + |HexPlane(d0, d1, k, j)| + |HexRow(d0, d1, j, k, d0 - 1)|
            <= 8 * ((d0 - 1) * (d1 - 1) * (d2 - 1))
  {
    HexVolumeLength(d0, d1, k);
    HexPlaneLength(d0, d1, k, j);
    StrideBound(8 * (d0 - 1), 8 * (d0 - 1), j, d1 - 1);
    StrideBound(8 * (d0 - 1) * (d1 - 1), 8 * (d0 - 1) * j + 8 * (d0 - 1), k, d2 - 1);
    Regroup(8, d0 - 1, d1 - 1, d2 - 1);
  }

  /** Writes `s` at the cursor `at` of `a` and returns the advanced cursor. */
  method WriteAt<T>(a: array<T>, at: nat, s: seq<T>) returns (next: nat)
    requires at + |s| <= a.Length
    modifies a
    ensures next == at + |s|
    ensures a[..next] == old(a[..at]) + s
  {
    for k := 0 to |s|
      invariant a[..at + k] == old(a[..at]) + s[..k]
    {
      a[at + k] := s[k];
      assert s[..k + 1] == s[..k] + [s[k]];
    }
    assert s[..|s|] == s;
    next := at + |s|;
  }

  /** The 4x4 object-to-world matrix, sixteen floats. */
  type Matrix = seq<F32>

  /**
   * Component `row` of `xform * (i, j, k, 1)`, the value the source stores as
   * a float. Float multiplication and addition are not modelled: the value is
   * named by the matrix and the grid point it comes from.
   */
  datatype Coord = Transformed(xform: Matrix, i: nat, j: nat, k: nat, row: nat)

  /** The three stored components of point `(i, j, k)`. */
  function Coords(xform: Matrix, i: nat, j: nat, k: nat): (r: seq<Coord>)
    ensures |r| == 3
    ensures forall c :: 0 <= c < 3 ==> r[c] == Transformed(xform, i, j, k, c)
  {
    [Transformed(xform, i, j, k, 0), Transformed(xform, i, j, k, 1), Transformed(xform, i, j, k, 2)]
  }

  /** Positions of points `(0..n, j, k)`. */
  function VertexRow(xform: Matrix, j: nat, k: nat, n: nat): (r: seq<Coord>)
    ensures |r| == 3 * n
  {
    if n == 0 then [] else VertexRow(xform, j, k, n - 1) + Coords(xform, n - 1, j, k)
  }

  /** Positions of rows `0..m` of plane `k`. */
  function VertexPlane(xform: Matrix, d0: nat, k: nat, m: nat): seq<Coord>
  {
    if m == 0 then [] else VertexPlane(xform, d0, k, m - 1) + VertexRow(xform, m - 1, k, d0)
  }

  /** Positions of planes `0..n`: the points in number order, three floats each. */
  function GridVertices(xform: Matrix, d0: nat, d1: nat, n: nat): seq<Coord>
  {
    if n == 0 then [] else GridVertices(xform, d0, d1, n - 1) + VertexPlane(xform, d0, n - 1, d1)
  }

  lemma {:induction false} VertexPlaneLength(xform: Matrix, d0: nat, k: nat, m: nat)
    ensures |VertexPlane(xform, d0, k, m)| == 3 * d0 * m
  {
    if m > 0 {
      VertexPlaneLength(xform, d0, k, m - 1);
      MulStep(3 * d0, m);
    }
  }

  lemma {:induction false} GridVerticesLength(xform: Matrix, d0: nat, d1: nat, n: nat)
    ensures |GridVertices(xform, d0, d1, n)| == 3 * d0 * d1 * n
  {
    if n > 0 {
      GridVerticesLength(xform, d0, d1, n - 1);
      VertexPlaneLength(xform, d0, n - 1, d1);
      MulStep(3 * d0 * d1, n);
    }
  }

  lemma {:induction false} VertexRowAt(xform: Matrix, j: nat, k: nat, n: nat, i: nat, c: nat)
    requires i < n && c < 3
    ensures VertexRow(xform, j, k, n)[3 * i + c] == Transformed(xform, i, j, k, c)
  {
    if i < n - 1 {
      VertexRowAt(xform, j, k, n - 1, i, c);
    }
  }

  /** Within plane `k`, point `(i, j)` follows the `j` rows before it. */
  lemma {:induction false} VertexPlaneAt(xform: Matrix, d0: nat, k: nat, m: nat,
                                         i: nat, j: nat, c: nat, off: nat)
    requires i < d0 && j < m && c < 3
    requires off == |VertexPlane(xform, d0, k, j)| + (3 * i + c)
    ensures off < |VertexPlane(xform, d0, k, m)|
    ensures VertexPlane(xform, d0, k, m)[off] == Transformed(xform, i, j, k, c)
  {
    var all := VertexPlane(xform, d0, k, m);
    if j < m - 1 {
      VertexPlaneAt(xform, d0, k, m - 1, i, j, c, off);
      AppendLeft(VertexPlane(xform, d0, k, m - 1), VertexRow(xform, m - 1, k, d0), all, off);
    } else {
      VertexRowAt(xform, j, k, d0, i, c);
      AppendRight(VertexPlane(xform, d0, k, j), VertexRow(xform, j, k, d0), all, 3 * i + c);
    }
  }

  /** Plane `k` follows the `k` planes before it: offset `off` in it is `at` in the grid. */
  lemma {:induction false} GridPlaneAt(xform: Matrix, d0: nat, d1: nat, n: nat, k: nat, off: nat, at: nat)
    requires k < n && off < |VertexPlane(xform, d0, k, d1)|
    requires at == |GridVertices(xform, d0, d1, k)| + off
    ensures at < |GridVertices(xform, d0, d1, n)|
    ensures GridVertices(xform, d0, d1, n)[at] == VertexPlane(xform, d0, k, d1)[off]
  {
    var all := GridVertices(xform, d0, d1, n);
    if k < n - 1 {
      GridPlaneAt(xform, d0, d1, n - 1, k, off, at);
      AppendLeft(GridVertices(xform, d0, d1, n - 1), VertexPlane(xform, d0, n - 1, d1), all, at);
    } else {
      AppendRight(GridVertices(xform, d0, d1, k), VertexPlane(xform, d0, k, d1), all, off);
    }
  }

  /** Float `c` of vertex number `PointIndex(i, j, k)` is coordinate `c` of the transform of `(i, j, k)`. */
  lemma VertexOfPoint(xform: Matrix, d0: nat, d1: nat, d2: nat, i: nat, j: nat, k: nat, c: nat)
    requires i < d0 && j < d1 && k < d2 && c < 3
    ensures 3 * PointIndex(d0, d1, i, j, k) + c < |GridVertices(xform, d0, d1, d2)|
    ensures GridVertices(xform, d0, d1, d2)[3 * PointIndex(d0, d1, i, j, k) + c] == Transformed(xform, i, j, k, c)
  {
    var off := |VertexPlane(xform, d0, k, j)| + (3 * i + c);
    VertexPlaneAt(xform, d0, k, d1, i, j, c, off);
    VertexOffset(xform, d0, d1, i, j, k);
    GridPlaneAt(xform, d0, d1, d2, k, off, 3 * PointIndex(d0, d1, i, j, k) + c);
  }

  lemma VertexOffset(xform: Matrix, d0: nat, d1: nat, i: nat, j: nat, k: nat)
    ensures 3 * PointIndex(d0, d1, i, j, k) == |GridVertices(xform, d0, d1, k)| + |VertexPlane(xform, d0, k, j)| + 3 * i
  {
    GridVerticesLength(xform, d0, d1, k);
    VertexPlaneLength(xform, d0, k, j);
    PointOffset(d0, d1, i, j, k);
  }

  lemma PointOffset(d0: nat, d1: nat, i: nat, j: nat, k: nat)
    ensures 3 * PointIndex(d0, d1, i, j, k) == 3 * d0 * d1 * k + 3 * d0 * j + 3 * i
  {
  }

  /** Points written before point `(i, j, k)`, and that point, fit in the vertex array. */
  lemma VertexCursor(xform: Matrix, d0: nat, d1: nat, d2: nat, i: nat, j: nat, k: nat)
    requires i < d0 && j < d1 && k < d2
    ensures |GridVertices(xform, d0, d1, k)| + |VertexPlane(xform, d0, k, j)| + |VertexRow(xform, j, k, i)| + 3
            <= 3 * (d0 * d1 * d2)
  {
    GridVerticesLength(xform, d0, d1, k);
    VertexPlaneLength(xform, d0, k, j);
    StrideBound(3 * d0, 3 * i + 3, j, d1);
    StrideBound(3 * d0 * d1, 3 * d0 * j + 3 * i + 3, k, d2);
    Regroup(3, d0, d1, d2);
  }

  /** The grid has `d0 * d1 * d2` points of three floats. */
  lemma VertexTotal(xform: Matrix, d0: nat, d1: nat, d2: nat)
    ensures |GridVertices(xform, d0, d1, d2)| == 3 * (d0 * d1 * d2)
  {
    GridVerticesLength(xform, d0, d1, d2);
    Regroup(3, d0, d1, d2);
  }

  /**
   * The vertex loop: for `k`, `j`, `i` below `d2`, `d1`, `d0`, write the
   * transformed point's three coordinates at the cursor and advance it by three.
   */
  method Vertices(xform: Matrix, d0: nat, d1: nat, d2: nat) returns (vertices: array<Coord>)
    requires ValidDims(d0, d1, d2)
    ensures vertices.Length == 3 * (d0 * d1 * d2)
    ensures vertices[..] == GridVertices(xform, d0, d1, d2)
  {
    vertices := new Coord[3 * (d0 * d1 * d2)](_ => Transformed(xform, 0, 0, 0, 0));
    var v: nat := 0;
    for k := 0 to d2
      invariant v == |GridVertices(xform, d0, d1, k)| <= vertices.Length
      invariant vertices[..v] == GridVertices(xform, d0, d1, k)
    {
      v := WriteVertexPlane(xform, vertices, v, d0, d1, d2, k);
    }
    VertexTotal(xform, d0, d1, d2);
    assert v == vertices.Length;
    assert vertices[..] == vertices[..v];
  }

  /** The middle loop of the vertex loop: the rows of plane `k`. */
  method WriteVertexPlane(xform: Matrix, vertices: array<Coord>, v: nat,
                          d0: nat, d1: nat, d2: nat, k: nat)
    returns (next: nat)
    requires k < d2
    requires vertices.Length == 3 * (d0 * d1 * d2)
    requires v == |GridVertices(xform, d0, d1, k)| <= vertices.Length
    requires vertices[..v] == GridVertices(xform, d0, d1, k)
    modifies vertices
    ensures next == |GridVertices(xform, d0, d1, k + 1)| <= vertices.Length
    ensures vertices[..next] == old(vertices[..v]) + VertexPlane(xform, d0, k, d1)
    ensures vertices[..next] == GridVertices(xform, d0, d1, k + 1)
  {
    VertexPlaneEnd(xform, d0, d1, d2, k);
    next := v;
    for j := 0 to d1
      invariant next == v + |VertexPlane(xform, d0, k, j)| <= vertices.Length
      invariant vertices[..next] == old(vertices[..v]) + VertexPlane(xform, d0, k, j)
    {
      ghost var before := vertices[..next];
      next := WriteVertexRow(xform, vertices, next, d0, d1, d2, j, k);
      Snoc(old(vertices[..v]), VertexPlane(xform, d0, k, j), VertexRow(xform, j, k, d0), before, vertices[..next]);
    }
    assert GridVertices(xform, d0, d1, k + 1) == GridVertices(xform, d0, d1, k) + VertexPlane(xform, d0, k, d1);
  }

  /** Plane `k` ends inside the vertex array. */
  lemma VertexPlaneEnd(xform: Matrix, d0: nat, d1: nat, d2: nat, k: nat)
    requires k < d2
    ensures |GridVertices(xform, d0, d1, k + 1)| <= 3 * (d0 * d1 * d2)
  {
    GridVerticesLength(xform, d0, d1, k + 1);
    MulMono(3 * d0 * d1, k + 1, d2);
    Regroup(3, d0, d1, d2);
  }

  /** The innermost loop of the vertex loop: the points of row `j` of plane `k`. */
  method WriteVertexRow(xform: Matrix, vertices: array<Coord>, v: nat,
                        d0: nat, d1: nat, d2: nat, j: nat, k: nat)
    returns (next: nat)
    requires j < d1 && k < d2
    requires vertices.Length == 3 * (d0 * d1 * d2)
    requires v == |GridVertices(xform, d0, d1, k)| + |VertexPlane(xform, d0, k, j)|
    modifies vertices
    ensures next == v + |VertexRow(xform, j, k, d0)| <= vertices.Length
    ensures vertices[..next] == old(vertices[..v]) + VertexRow(xform, j, k, d0)
  {
    VertexRowEnd(xform, d0, d1, d2, j, k);
    next := v;
    for i := 0 to d0
      invariant next == v + |VertexRow(xform, j, k, i)| <= vertices.Length
      invariant vertices[..next] == old(vertices[..v]) + VertexRow(xform, j, k, i)
    {
      VertexCursor(xform, d0, d1, d2, i, j, k);
      ghost var before := vertices[..next];
      var point := Coords(xform, i, j, k);
      next := WriteAt(vertices, next, point);
      Snoc(old(vertices[..v]), VertexRow(xform, j, k, i), point, before, vertices[..next]);
    }
  }

  /** Row `j` of plane `k` ends inside the vertex array. */
  lemma VertexRowEnd(xform: Matrix, d0: nat, d1: nat, d2: nat, j: nat, k: nat)
    requires j < d1 && k < d2
    ensures |GridVertices(xform, d0, d1, k)| + |VertexPlane(xform, d0, k, j)| + |VertexRow(xform, j, k, d0)|
            <= 3 * (d0 * d1 * d2)
  {
    GridVerticesLength(xform, d0, d1, k);
    VertexPlaneLength(xform, d0, k, j);
    StrideBound(3 * d0, 3 * d0, j, d1);
    StrideBound(3 * d0 * d1, 3 * d0 * j + 3 * d0, k, d2);
    Regroup(3, d0, d1, d2);
  }

  /** What `load_as_unstructured` hands to the volume, plus the bounding box it reports. */
  datatype Unstructured = Unstructured(vertices: seq<Coord>, indices: seq<int>, bbox: seq<int>)

  /**
   * `load_as_unstructured`: only float voxels are accepted. The bounding box
   * is the untransformed grid, `[0, 0, 0, d0, d1, d2]`.
   */
  method LoadAsUnstructured(xform: Matrix, d0: nat, d1: nat, d2: nat, voxelType: string)
    returns (r: Result<Unstructured>)
    requires ValidDims(d0, d1, d2)
    ensures r.Ok? <==> voxelType == "float"
    ensures r.Ok? ==> r.value.vertices == GridVertices(xform, d0, d1, d2)
    ensures r.Ok? ==> r.value.indices == HexVolume(d0, d1, d2 - 1)
    ensures r.Ok? ==> r.value.bbox == [0, 0, 0, d0, d1, d2]
  {
    if voxelType != "float" {
      return Failure("ERROR: OSPRay currently only supports unstructured volumes of 'float', not '" + voxelType + "'\n");
    }
    var vertices := Vertices(xform, d0, d1, d2);
    var indices := HexIndices(d0, d1, d2);
    r := Ok(Unstructured(vertices[..], indices[..], [0, 0, 0, d0, d1, d2]));
  }

  /** The unstructured grid has `8 * num_hexahedrons` indices, all naming grid points. */
  lemma UnstructuredWellFormed(d0: nat, d1: nat, d2: nat)
    requires ValidDims(d0, d1, d2)
    ensures |HexVolume(d0, d1, d2 - 1)| == 8 * ((d0 - 1) * (d1 - 1) * (d2 - 1))
    ensures AllPointsOf(HexVolume(d0, d1, d2 - 1), d0 * d1 * d2)
  {
    HexTotal(d0, d1, d2);
    HexVolumeInGrid(d0, d1, d2, d2 - 1);
  }
}
