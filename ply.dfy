/**
 * The PLY geometry plugin (plugins/geometry_ply.cpp): RPly calls one
 * callback per property value it reads. The vertex, normal, colour and
 * texture-coordinate callbacks each store the value at their own next index
 * and advance it; the face callback records where each polygon's loop starts
 * and how long it is, and appends vertex indices to a buffer that grows by
 * ten percent whenever it is full.
 *
 * The PLY file itself and RPly are not modelled: the callbacks are called
 * with the values RPly would pass. A colour value's multiplication by the
 * scale factor is a float operation and is a parameter.
 */
module Ply {
  import opened Bytes
  import opened Wrappers

  /** RPly's property value types, as far as the colour scale cares. */
  datatype PlyType = PlyUchar | PlyFloat | PlyOther(code: int)

  /** One of the per-vertex float arrays with its next-element index. */
  class Accumulator {
    var data: array<F32>
    var next: nat

    ghost predicate Valid()
      reads this
    {
      next <= data.Length
    }

    /** The values stored so far, in callback order. */
    ghost function Written(): seq<F32>
      reads this, data
      requires Valid()
    {
      data[..next]
    }

    /** `malloc` of `size` floats and a next index of 0. */
    constructor (size: nat)
      ensures Valid() && fresh(data)
      ensures data.Length == size && Written() == []
    {
      data := new F32[size](_ => F32(0));
      next := 0;
    }

    /** `vertex_cb` and its siblings: store at the next index and advance it by one. */
    method Put(v: F32)
      requires Valid() && next < data.Length
      modifies this, data
      ensures Valid() && data == old(data)
      ensures next == old(next) + 1
      ensures Written() == old(Written()) + [v]
      ensures data[next..] == old(data[..])[next..]
    {
      data[next] := v;
      next := next + 1;
    }
  }

  /** The vertex-index buffer's size before any face is read. */
  function InitialFaceCapacity(nfaces: nat): (r: nat)
    ensures r >= 512
    ensures r >= 4 * nfaces
    ensures nfaces > 128 ==> r == 4 * nfaces
  {
    if nfaces > 128 then nfaces * 4 else 512
  }

  /** `(int)(size * 1.1)` for the sizes the buffer takes. */
  function Grown(size: nat): (r: nat)
    requires size >= 10
    ensures r > size
  {
    size * 11 / 10
  }

  /** The polygon accumulator of `face_cb`. */
  class FaceAccumulator {
    var faces: array<u32>
    var loopStart: array<u32>
    var loopTotal: array<u32>
    var nextFaceOffset: nat
    var nextFaceElement: nat

    ghost predicate Valid()
      reads this
    {
      faces.Length >= 512 && nextFaceElement <= faces.Length &&
      loopStart.Length == loopTotal.Length && nextFaceOffset <= loopStart.Length &&
      loopStart != loopTotal && faces != loopStart && faces != loopTotal
    }

    /** The vertex indices appended so far. */
    ghost function Indices(): seq<u32>
      reads this, faces
      requires Valid()
    {
      faces[..nextFaceElement]
    }

    /** Where each recorded polygon's indices start. */
    ghost function LoopStarts(): seq<u32>
      reads this, loopStart
      requires Valid()
    {
      loopStart[..nextFaceOffset]
    }

    /** How many indices each recorded polygon has. */
    ghost function LoopTotals(): seq<u32>
      reads this, loopTotal
      requires Valid()
    {
      loopTotal[..nextFaceOffset]
    }

    /** The allocations of `load_ply_file` for a file with `nfaces` faces. */
    constructor (nfaces: nat)
      ensures Valid() && fresh(faces) && fresh(loopStart) && fresh(loopTotal)
      ensures faces.Length == InitialFaceCapacity(nfaces)
      ensures loopStart.Length == nfaces
      ensures Indices() == [] && LoopStarts() == [] && LoopTotals() == []
    {
      faces := new u32[InitialFaceCapacity(nfaces)];
      loopStart := new u32[nfaces];
      loopTotal := new u32[nfaces];
      nextFaceOffset := 0;
      nextFaceElement := 0;
    }

    /**
     * `face_cb`: value index -1 is the list length that opens a polygon; any
     * other value is one vertex index of it.
     */
    method FaceCb(length: u32, valueIndex: int, value: u32)
      requires Valid()
      requires valueIndex == -1 ==> nextFaceOffset < loopStart.Length
      modifies this, faces, loopStart, loopTotal
      ensures Valid()
      ensures loopStart == old(loopStart) && loopTotal == old(loopTotal)
      ensures valueIndex == -1 ==>
                faces == old(faces) && Indices() == old(Indices()) &&
                LoopStarts() == old(LoopStarts()) + [old(nextFaceElement) % U32_LIMIT] &&
                LoopTotals() == old(LoopTotals()) + [length]
      ensures valueIndex != -1 ==>
                Indices() == old(Indices()) + [value] &&
                LoopStarts() == old(LoopStarts()) && LoopTotals() == old(LoopTotals())
      ensures valueIndex != -1 ==>
                faces.Length == if old(nextFaceElement) == old(faces.Length)
                                then Grown(old(faces.Length)) else old(faces.Length)
    {
      if valueIndex == -1 {
        loopStart[nextFaceOffset] := nextFaceElement % U32_LIMIT;
        loopTotal[nextFaceOffset] := length;
        nextFaceOffset := nextFaceOffset + 1;
        return;
      }
      if nextFaceElement == faces.Length {
        var size := Grown(faces.Length);
        var bigger := new u32[size];
        forall q | 0 <= q < faces.Length {
          bigger[q] := faces[q];
        }
        faces := bigger;
      }
      faces[nextFaceElement] := value;
      nextFaceElement := nextFaceElement + 1;
    }
  }

  /** The colour scale factor after seeing a `red` property of type `t`; other types warn and keep it. */
  function ColorScale(t: PlyType, previous: F32): (r: (F32, bool))
    ensures t == PlyUchar ==> r == (F32(0x3B80_8081), false)    // 1.0f / 255
    ensures t == PlyFloat ==> r == (F32(0x3F80_0000), false)    // 1.0f
    ensures t.PlyOther? ==> r == (previous, true)
  {
    match t
    case PlyUchar => (F32(0x3B80_8081), false)
    case PlyFloat => (F32(0x3F80_0000), false)
    case PlyOther(_) => (previous, true)
  }

  /** Which optional per-vertex arrays the property scan enables. */
  datatype Optional = Optional(
    colors: Option<PlyType>,
    normals: bool,
    texcoords: Option<string>)

  /**
   * The scan over the vertex element's properties: `red` turns on colours,
   * `nx` normals, and the first of `s` or `u` picks the texture-coordinate pair.
   */
  function ScanProperties(props: seq<(string, PlyType)>): (o: Optional)
  {
    if props == [] then Optional(None, false, None)
    else
      var o := ScanProperties(props[..|props| - 1]);
      var (name, t) := props[|props| - 1];
      if name == "red" then o.(colors := Some(t))
      else if name == "nx" then o.(normals := true)
      else if (name == "s" || name == "u") && o.texcoords.None? then o.(texcoords := Some(name))
      else o
  }

  /** Index of the first property named `s` or `u`, if any. */
  function FirstTexcoord(props: seq<(string, PlyType)>): (r: Option<nat>)
    ensures r.Some? ==> r.value < |props| && props[r.value].0 in {"s", "u"}
    ensures r.Some? ==> forall i :: 0 <= i < r.value ==> props[i].0 !in {"s", "u"}
    ensures r.None? ==> forall i :: 0 <= i < |props| ==> props[i].0 !in {"s", "u"}
  {
    if props == [] then None
    else if props[0].0 in {"s", "u"} then Some(0)
    else match FirstTexcoord(props[1..])
      case None => None
      case Some(k) => Some(k + 1)
  }

  /** Only the first `s` or `u` property counts: the texture-coordinate pair is the one it opens. */
  lemma {:induction false} TexcoordsFromFirst(props: seq<(string, PlyType)>)
    ensures ScanProperties(props).texcoords.Some? <==> FirstTexcoord(props).Some?
    ensures FirstTexcoord(props).Some? ==>
              ScanProperties(props).texcoords == Some(props[FirstTexcoord(props).value].0)
  {
    if props != [] {
      var init := props[..|props| - 1];
      TexcoordsFromFirst(init);
      FirstTexcoordSnoc(init, props[|props| - 1]);
      assert props == init + [props[|props| - 1]];
    }
  }

  lemma {:induction false} FirstTexcoordSnoc(props: seq<(string, PlyType)>, p: (string, PlyType))
    ensures FirstTexcoord(props).Some? ==> FirstTexcoord(props + [p]) == FirstTexcoord(props)
    ensures FirstTexcoord(props).None? ==>
              FirstTexcoord(props + [p]) == if p.0 in {"s", "u"} then Some(|props|) else None
  {
    if props != [] {
      assert (props + [p])[1..] == props[1..] + [p];
      FirstTexcoordSnoc(props[1..], p);
    }
  }

  /** Colours are on exactly when some property is named `red`; the last one decides the type. */
  lemma {:induction false} ColorsFromRed(props: seq<(string, PlyType)>)
    ensures ScanProperties(props).colors.Some? <==> exists i :: 0 <= i < |props| && props[i].0 == "red"
  {
    if props != [] {
      var init := props[..|props| - 1];
      ColorsFromRed(init);
      if ScanProperties(init).colors.Some? {
        var i :| 0 <= i < |init| && init[i].0 == "red";
        assert props[i] == init[i];
      }
      if exists i :: 0 <= i < |props| && props[i].0 == "red" {
        var i :| 0 <= i < |props| && props[i].0 == "red";
        if i < |init| {
          assert init[i] == props[i];
        }
      }
    }
  }
}
