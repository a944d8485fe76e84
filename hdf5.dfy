/**
 * `generate` of the HDF5 volume plugin (plugins/volume_hdf5.cpp): parameter
 * checks, the swap of the file's Z,Y,X dimension order into X,Y,Z, the
 * optional in-place `fill` of a slab of voxels, and the choice of the data
 * range the volume reports.
 *
 * The HDF5 library is not modelled: what it reports about the dataset (its
 * dimensions, whether its element type is float, its values) is input. The
 * data minimum and maximum are float computations and are input too.
 */
module Hdf5 {
  import opened Bytes
  import opened Wrappers
  import VolumeRaw

  /** The `fill` parameter: `[axis, min_index, max_index, value]`. */
  datatype FillSpec = FillSpec(axis: int, minIndex: int, maxIndex: int, value: F32)

  /** What `generate` reads from the plugin's JSON parameters. */
  datatype Parameters = Parameters(
    hasFile: bool,
    hasDataset: bool,
    fill: Option<FillSpec>,
    valueRange: Option<(F32, F32)>)

  /** What the HDF5 library reports about the dataset. */
  datatype Dataset = Dataset(dims: seq<nat>, isFloat: bool, values: seq<F32>)

  /** The volume state `generate` leaves behind. */
  datatype Volume = Volume(dims: seq<nat>, voxels: seq<F32>, dataRange: (F32, F32))

  /** The file stores Z,Y,X; the first and third extents are exchanged. */
  function SwapXZ(dims: seq<nat>): (r: seq<nat>)
    requires |dims| >= 3
    ensures |r| == |dims|
    ensures r[0] == dims[2] && r[1] == dims[1] && r[2] == dims[0]
    ensures r[3..] == dims[3..]
  {
    [dims[2], dims[1], dims[0]] + dims[3..]
  }

  /** Voxel `(i, j, k)` lies in the slab `k` in `[minK, maxK]` of a `d0 x d1` grid. */
  predicate InSlab(d0: nat, d1: nat, minK: nat, maxK: nat, q: int)
  {
    VolumeRaw.PointIndex(d0, d1, 0, 0, minK) <= q < VolumeRaw.PointIndex(d0, d1, 0, 0, maxK + 1)
  }

  /** The voxels `fill` overwrites: for axis 2 the planes `min_index..max_index`, else none. */
  predicate Filled(d0: nat, d1: nat, f: FillSpec, q: int)
  {
    f.axis == 2 && 0 <= f.minIndex <= f.maxIndex && InSlab(d0, d1, f.minIndex, f.maxIndex, q)
  }

  /**
   * The slab is exactly the voxels whose `k` lies in `[minK, maxK]`: a voxel
   * of the grid is in it if and only if its plane is.
   */
  lemma SlabVoxels(d0: nat, d1: nat, minK: nat, maxK: nat, i: nat, j: nat, k: nat)
    requires i < d0 && j < d1
    ensures InSlab(d0, d1, minK, maxK, VolumeRaw.PointIndex(d0, d1, i, j, k)) <==> minK <= k <= maxK
  {
    VolumeRaw.PointIndexExpand(d0, d1, i, j, k);
    VolumeRaw.PointIndexExpand(d0, d1, 0, 0, minK);
    VolumeRaw.PointIndexExpand(d0, d1, 0, 0, maxK + 1);
    VolumeRaw.StrideBound(d0, i + 1, j, d1);
    StrideSlab(d0 * d1, j * d0 + i, k, minK, maxK + 1);
  }

  /** With `x < p`, `k * p + x` lies in `[a * p, b * p)` exactly when `k` lies in `[a, b)`. */
  lemma StrideSlab(p: nat, x: nat, k: nat, a: nat, b: nat)
    requires x < p
    ensures a * p <= k * p + x < b * p <==> a <= k < b
  {
    if k < a {
      VolumeRaw.MulMono(p, k + 1, a);
    } else {
      VolumeRaw.MulMono(p, a, k);
    }
    if k < b {
      VolumeRaw.MulMono(p, k + 1, b);
    } else {
      VolumeRaw.MulMono(p, b, k);
    }
  }

  /** Row `j` of plane `k` starts `d0` voxels after row `j - 1`. */
  lemma RowNext(d0: nat, d1: nat, j: nat, k: nat)
    ensures VolumeRaw.PointIndex(d0, d1, 0, j, k) + d0 == VolumeRaw.PointIndex(d0, d1, 0, j + 1, k)
  {
  }

  /** The voxel after the last row of plane `k` is the first of plane `k + 1`. */
  lemma PlaneNext(d0: nat, d1: nat, k: nat)
    ensures VolumeRaw.PointIndex(d0, d1, 0, d1, k) == VolumeRaw.PointIndex(d0, d1, 0, 0, k + 1)
  {
  }

  /** Row `j` of plane `k` lies within a grid of `d0 * d1 * d2` voxels. */
  lemma RowInGrid(d0: nat, d1: nat, d2: nat, j: nat, k: nat)
    requires j < d1 && k < d2
    ensures VolumeRaw.PointIndex(d0, d1, 0, j, k) + d0 <= d0 * d1 * d2
  {
    if d0 > 0 {
      VolumeRaw.PointIndexBound(d0, d1, d2, d0 - 1, j, k);
    }
  }

  /** The innermost fill loop: voxels `(0..d0, j, k)` get `value`. */
  method FillRow(grid: array<F32>, d0: nat, d1: nat, d2: nat, j: nat, k: nat, value: F32)
    requires grid.Length == d0 * d1 * d2 && j < d1 && k < d2
    modifies grid
    ensures forall q :: 0 <= q < grid.Length ==>
              grid[q] == if VolumeRaw.PointIndex(d0, d1, 0, j, k) <= q < VolumeRaw.PointIndex(d0, d1, 0, j, k) + d0
                         then value else old(grid[q])
  {
    RowInGrid(d0, d1, d2, j, k);
    for i := 0 to d0
      invariant forall q :: 0 <= q < grid.Length ==>
                  grid[q] == if VolumeRaw.PointIndex(d0, d1, 0, j, k) <= q < VolumeRaw.PointIndex(d0, d1, 0, j, k) + i
                             then value else old(grid[q])
    {
      grid[(k * d1 + j) * d0 + i] := value;
    }
  }

  /** The middle fill loop: every row of plane `k` gets `value`. */
  method FillPlane(grid: array<F32>, d0: nat, d1: nat, d2: nat, k: nat, value: F32)
    requires grid.Length == d0 * d1 * d2 && k < d2
    modifies grid
    ensures forall q :: 0 <= q < grid.Length ==>
              grid[q] == if VolumeRaw.PointIndex(d0, d1, 0, 0, k) <= q < VolumeRaw.PointIndex(d0, d1, 0, 0, k + 1)
                         then value else old(grid[q])
  {
    for j := 0 to d1
      invariant forall q :: 0 <= q < grid.Length ==>
                  grid[q] == if VolumeRaw.PointIndex(d0, d1, 0, 0, k) <= q < VolumeRaw.PointIndex(d0, d1, 0, j, k)
                             then value else old(grid[q])
    {
      FillRow(grid, d0, d1, d2, j, k, value);
      RowNext(d0, d1, j, k);
      VolumeRaw.MulMono(d0, k * d1, k * d1 + j);
    }
    PlaneNext(d0, d1, k);
  }

  /**
   * `fill` along axis 2: planes `min_index..max_index` (both inclusive) are
   * overwritten with `value`, every other voxel keeps its value.
   */
  method FillSlab(grid: array<F32>, d0: nat, d1: nat, d2: nat, minK: nat, maxK: nat, value: F32)
    requires grid.Length == d0 * d1 * d2 && minK <= maxK < d2
    modifies grid
    ensures forall q :: 0 <= q < grid.Length ==>
              grid[q] == if InSlab(d0, d1, minK, maxK, q) then value else old(grid[q])
  {
    for k := minK to maxK + 1
      invariant forall q :: 0 <= q < grid.Length ==>
                  grid[q] == if VolumeRaw.PointIndex(d0, d1, 0, 0, minK) <= q < VolumeRaw.PointIndex(d0, d1, 0, 0, k)
                             then value else old(grid[q])
    {
      FillPlane(grid, d0, d1, d2, k, value);
      VolumeRaw.MulMono(d0 * d1, minK, k);
      VolumeRaw.PointIndexExpand(d0, d1, 0, 0, minK);
      VolumeRaw.PointIndexExpand(d0, d1, 0, 0, k);
    }
  }

  /**
   * The `fill` step: only axis 2 is implemented; any other axis, and an
   * empty index range, leave the grid unchanged. The indices are not checked
   * against the grid; a non-empty range must lie inside it.
   */
  method Fill(grid: array<F32>, d0: nat, d1: nat, d2: nat, f: FillSpec)
    requires grid.Length == d0 * d1 * d2
    requires f.axis == 2 && f.minIndex <= f.maxIndex ==> 0 <= f.minIndex && f.maxIndex < d2
    modifies grid
    ensures forall q :: 0 <= q < grid.Length ==>
              grid[q] == if Filled(d0, d1, f, q) then f.value else old(grid[q])
  {
    match f.axis {
      case 2 =>
        if f.minIndex <= f.maxIndex {
          FillSlab(grid, d0, d1, d2, f.minIndex, f.maxIndex, f.value);
        }
      case _ =>
    }
  }

  /** The data range: `value_range` when given, else the computed minimum and maximum. */
  function DataRange(valueRange: Option<(F32, F32)>, computed: (F32, F32)): (r: (F32, F32))
    ensures valueRange.Some? ==> r == valueRange.value
    ensures valueRange.None? ==> r == computed
  {
    if valueRange.Some? then valueRange.value else computed
  }

  /** A fill parameter that writes inside the grid, as the source assumes. */
  predicate FillInGrid(p: Parameters, dims: seq<nat>)
  {
    |dims| >= 3 && p.fill.Some? ==>
      var f := p.fill.value;
      f.axis == 2 && f.minIndex <= f.maxIndex ==> 0 <= f.minIndex && f.maxIndex < dims[0]
  }

  /**
   * `generate`: fails when `hdf5_file` or `dataset` is missing, when the
   * dataset's rank is not 3 or when its elements are not floats; otherwise
   * reads the grid, applies `fill` and records the data range.
   */
  method Generate(p: Parameters, ds: Dataset, computed: (F32, F32)) returns (r: Result<Volume>)
    requires |ds.dims| == 3 ==> |ds.values| == ds.dims[0] * ds.dims[1] * ds.dims[2]
    requires FillInGrid(p, ds.dims)
    ensures !p.hasFile ==> r == Failure("ERROR: hdf5_file not set!")
    ensures p.hasFile && !p.hasDataset ==> r == Failure("ERROR: dataset not set!")
    ensures p.hasFile && p.hasDataset && |ds.dims| != 3 ==> r == Failure("ERROR: dataset dimension is not 3!")
    ensures p.hasFile && p.hasDataset && |ds.dims| == 3 && !ds.isFloat ==> r == Failure("ERROR: type doesn't match float!")
    ensures r.Ok? <==> p.hasFile && p.hasDataset && |ds.dims| == 3 && ds.isFloat
    ensures r.Ok? ==> r.value.dims == SwapXZ(ds.dims)
    ensures r.Ok? ==> |r.value.voxels| == |ds.values|
    ensures r.Ok? ==> forall q :: 0 <= q < |ds.values| ==>
              r.value.voxels[q] == if p.fill.Some? && Filled(ds.dims[2], ds.dims[1], p.fill.value, q)
                                   then p.fill.value.value else ds.values[q]
    ensures r.Ok? ==> r.value.dataRange == DataRange(p.valueRange, computed)
  {
    if !p.hasFile {
      return Failure("ERROR: hdf5_file not set!");
    }
    if !p.hasDataset {
      return Failure("ERROR: dataset not set!");
    }
    if |ds.dims| < 3 {
      // The swap below would index past the end of a shorter dimension list.
      return Failure("ERROR: dataset dimension is not 3!");
    }
    var dims := SwapXZ(ds.dims);
    if |dims| != 3 {
      return Failure("ERROR: dataset dimension is not 3!");
    }
    if !ds.isFloat {
      return Failure("ERROR: type doesn't match float!");
    }
    var grid := new F32[dims[0] * dims[1] * dims[2]](q requires 0 <= q < |ds.values| reads {} => ds.values[q]);
    if p.fill.Some? {
      Fill(grid, dims[0], dims[1], dims[2], p.fill.value);
    }
    r := Ok(Volume(dims, grid[..], DataRange(p.valueRange, computed)));
  }
}
