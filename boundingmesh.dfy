/**
 * `BoundingMesh` (core/bounding_mesh.cpp): a small mesh that stands for a
 * plugin's geometry in the Blender scene, its two box constructors, and the
 * flat buffer it travels in.
 *
 * The buffer is a run of 32-bit words (four counts, then the vertex floats as
 * their bit patterns, then the four index arrays), written on a little-endian
 * host, so its bytes are `WordsLE` of the words. `loop_total` has no count of
 * its own: it is read back with the `loop_start` count.
 */
module BoundingMesh {
  import opened Bytes

  datatype Mesh = Mesh(vertices: seq<F32>, edges: seq<u32>, faces: seq<u32>,
                       loopStart: seq<u32>, loopTotal: seq<u32>)

  /** The counts must fit their u32 header words. */
  predicate Encodable(m: Mesh)
  {
    |m.vertices| < U32_LIMIT && |m.edges| < U32_LIMIT && |m.faces| < U32_LIMIT &&
    |m.loopStart| < U32_LIMIT
  }

  /** The byte size `serialize` reports. */
  function SerializedSize(m: Mesh): (size: nat)
    ensures size % 4 == 0 && size >= 16
  {
    16 + 4 * (|m.vertices| + |m.edges| + |m.faces| + |m.loopStart| + |m.loopTotal|)
  }

  /** The words of the buffer, in the order `serialize` writes them. */
  function Layout(m: Mesh): (ws: seq<u32>)
    requires Encodable(m)
    ensures 4 * |ws| == SerializedSize(m)
  {
    [|m.vertices|, |m.edges|, |m.faces|, |m.loopStart|] +
    FloatBits(m.vertices) + m.edges + m.faces + m.loopStart + m.loopTotal
  }

  /** The bytes of the buffer. */
  function SerializedBytes(m: Mesh): (b: seq<byte>)
    requires Encodable(m)
    ensures |b| == SerializedSize(m)
  {
    WordsLE(Layout(m))
  }

  /** Words a reader needs: four counts, then whichever of its runs reaches furthest. */
  predicate Readable(ws: seq<u32>, edgesAt: nat)
  {
    |ws| >= 4 &&
    4 + ws[0] as int <= |ws| &&
    edgesAt + ws[1] as int + ws[2] as int + 2 * ws[3] as int <= |ws|
  }

  /**
   * What a reader of `ws` builds when the edges start at word `edgesAt`.
   * Vertices always start right after the counts; the faces, loop starts and
   * loop totals follow the edges.
   */
  function ReadMesh(ws: seq<u32>, edgesAt: nat): (m: Mesh)
    requires Readable(ws, edgesAt)
    ensures |m.vertices| == ws[0] && |m.edges| == ws[1] && |m.faces| == ws[2]
    ensures |m.loopStart| == ws[3] && |m.loopTotal| == ws[3]
  {
    var nv: nat, ne: nat, nf: nat, nl: nat := ws[0], ws[1], ws[2], ws[3];
    var runs := ws[edgesAt..];
    Mesh(Floats(ws[4..4 + nv]), runs[..ne], runs[ne..ne + nf],
         runs[ne + nf..ne + nf + nl], runs[ne + nf + nl..ne + nf + nl + nl])
  }

  /**
   * `deserialize` as written: the vertices are read through a float cursor
   * and the integer cursor is never moved past them, so the edges are read
   * from word 4, where the vertices are.
   */
  function DeserializeAsWritten(ws: seq<u32>): (m: Mesh)
    requires Readable(ws, 4)
  {
    ReadMesh(ws, 4)
  }

  /** `deserialize` with the integer cursor moved past the vertices. */
  function Deserialize(ws: seq<u32>): (m: Mesh)
    requires |ws| >= 4 && Readable(ws, 4 + ws[0] as int)
  {
    ReadMesh(ws, 4 + ws[0] as int)
  }

  /** Reading back a serialised mesh gives the mesh, when both loop arrays agree in length. */
  lemma DeserializeOfLayout(m: Mesh)
    requires Encodable(m) && |m.loopTotal| == |m.loopStart|
    ensures |Layout(m)| >= 4 && Readable(Layout(m), 4 + |m.vertices|)
    ensures Deserialize(Layout(m)) == m
  {
    var header: seq<u32> := [|m.vertices|, |m.edges|, |m.faces|, |m.loopStart|];
    var bits := FloatBits(m.vertices);
    var runs := m.edges + m.faces + m.loopStart + m.loopTotal;
    LayoutParts(m, header, bits, runs);
    FloatsOfFloatBits(m.vertices);
    ReadMeshParts(Layout(m), 4 + |m.vertices|, bits, m.edges, m.faces, m.loopStart, m.loopTotal);
  }

  /** The buffer is the header, then the vertex bits, then the index runs. */
  lemma LayoutParts(m: Mesh, header: seq<u32>, bits: seq<u32>, runs: seq<u32>)
    requires Encodable(m)
    requires header == [|m.vertices|, |m.edges|, |m.faces|, |m.loopStart|]
    requires bits == FloatBits(m.vertices)
    requires runs == m.edges + m.faces + m.loopStart + m.loopTotal
    ensures |Layout(m)| >= 4 + |m.vertices|
    ensures Layout(m)[0] as int == |m.vertices| && Layout(m)[1] as int == |m.edges|
    ensures Layout(m)[2] as int == |m.faces| && Layout(m)[3] as int == |m.loopStart|
    ensures Layout(m)[4..4 + |m.vertices|] == bits && Layout(m)[4 + |m.vertices|..] == runs
  {
    assert Layout(m) == header + bits + runs;
    SliceOfConcat(header, bits, runs);
  }

  /** A reader whose runs lie where the counts say builds the mesh of those runs. */
  lemma ReadMeshParts(ws: seq<u32>, edgesAt: nat, bits: seq<u32>,
                      e: seq<u32>, f: seq<u32>, ls: seq<u32>, lt: seq<u32>)
    requires |ws| >= 4 && 4 + ws[0] as int <= |ws| && edgesAt <= |ws|
    requires ws[4..4 + ws[0]] == bits && ws[edgesAt..] == e + f + ls + lt
    requires ws[1] as int == |e| && ws[2] as int == |f| && ws[3] as int == |ls| == |lt|
    ensures Readable(ws, edgesAt)
    ensures ReadMesh(ws, edgesAt) == Mesh(Floats(bits), e, f, ls, lt)
  {
    RunsOfConcat(e, f, ls, lt);
  }

  lemma SliceOfConcat<T>(a: seq<T>, b: seq<T>, c: seq<T>)
    ensures (a + b + c)[|a|..|a| + |b|] == b
    ensures (a + b + c)[|a| + |b|..] == c
  {
  }

  lemma RunsOfConcat<T>(e: seq<T>, f: seq<T>, ls: seq<T>, lt: seq<T>)
    ensures var r := e + f + ls + lt;
            r[..|e|] == e && r[|e|..|e| + |f|] == f &&
            r[|e| + |f|..|e| + |f| + |ls|] == ls &&
            r[|e| + |f| + |ls|..|e| + |f| + |ls| + |lt|] == lt
  {
  }

  /** With a single vertex the as-written reader takes that vertex's bits as the first edge. */
  lemma DeserializeAsWrittenMisreadsEdges()
    ensures var m := Mesh([F32(7)], [0], [], [], []);
            Readable(Layout(m), 4) && DeserializeAsWritten(Layout(m)).edges == [7] &&
            DeserializeAsWritten(Layout(m)) != m
  {
    var m := Mesh([F32(7)], [0], [], [], []);
    assert FloatBits(m.vertices) == [7];
    assert Layout(m) == [1, 1, 0, 0, 7, 0];
  }

  /**
   * `serialize`: writes the counts and then each array through a cursor into
   * a fresh buffer of `SerializedSize(m)` bytes.
   */
  method Serialize(m: Mesh) returns (size: nat, buffer: array<u32>)
    requires Encodable(m)
    ensures fresh(buffer)
    ensures size == SerializedSize(m) == 4 * buffer.Length
    ensures buffer[..] == Layout(m)
  {
    size := SerializedSize(m);
    buffer := new u32[size / 4];
    buffer[0] := |m.vertices|;
    buffer[1] := |m.edges|;
    buffer[2] := |m.faces|;
    buffer[3] := |m.loopStart|;
    var at := 4;
    ghost var header := buffer[..4];
    assert header == [|m.vertices|, |m.edges|, |m.faces|, |m.loopStart|];
    at := WriteRun(buffer, at, FloatBits(m.vertices));
    ghost var w1 := buffer[..at];
    assert w1 == header + FloatBits(m.vertices);
    at := WriteRun(buffer, at, m.edges);
    ghost var w2 := buffer[..at];
    assert w2 == w1 + m.edges;
    at := WriteRun(buffer, at, m.faces);
    ghost var w3 := buffer[..at];
    assert w3 == w2 + m.faces;
    at := WriteRun(buffer, at, m.loopStart);
    ghost var w4 := buffer[..at];
    assert w4 == w3 + m.loopStart;
    at := WriteRun(buffer, at, m.loopTotal);
    assert buffer[..at] == w4 + m.loopTotal;
    assert buffer[..] == buffer[..at];
    assert w4 == header + FloatBits(m.vertices) + m.edges + m.faces + m.loopStart;
  }

  /** Writes `ws` at the cursor and returns the advanced cursor. */
  method WriteRun(buffer: array<u32>, at: nat, ws: seq<u32>) returns (next: nat)
    requires at + |ws| <= buffer.Length
    modifies buffer
    ensures next == at + |ws|
    ensures buffer[..] == old(buffer[..at]) + ws + old(buffer[next..])
    ensures buffer[..next] == old(buffer[..at]) + ws
  {
    var k := 0;
    while k < |ws|
      invariant 0 <= k <= |ws|
      invariant forall t :: 0 <= t < buffer.Length ==>
                  buffer[t] == if at <= t < at + k then ws[t - at] else old(buffer[t])
    {
      buffer[at + k] := ws[k];
      k := k + 1;
    }
    next := at + k;
    assert buffer[..next] == old(buffer[..at]) + ws;
    assert buffer[..] == old(buffer[..at]) + ws + old(buffer[next..]);
  }

  /** Reads `n` words from the cursor. */
  method ReadRun(buffer: seq<u32>, at: nat, n: nat) returns (ws: seq<u32>)
    requires at + n <= |buffer|
    ensures ws == buffer[at..at + n]
  {
    ws := [];
    var k := 0;
    while k < n
      invariant 0 <= k <= n
      invariant ws == buffer[at..at + k]
    {
      ws := ws + [buffer[at + k]];
      k := k + 1;
    }
  }

  /**
   * `deserialize(buffer, size)` as written. `size` is never read; the buffer
   * must hold every word the reader visits.
   */
  method DeserializeBuffer(buffer: seq<u32>, size: nat) returns (m: Mesh)
    requires Readable(buffer, 4)
    ensures m == DeserializeAsWritten(buffer)
  {
    var i: nat := 4;
    var f: nat := 4;
    var vertexBits := ReadRun(buffer, f, buffer[0]);
    f := f + buffer[0] as int;
    var edges := ReadRun(buffer, i, buffer[1]);
    i := i + buffer[1] as int;
    var faces := ReadRun(buffer, i, buffer[2]);
    i := i + buffer[2] as int;
    var loopStart := ReadRun(buffer, i, buffer[3]);
    i := i + buffer[3] as int;
    var loopTotal := ReadRun(buffer, i, buffer[3]);
    m := Mesh(Floats(vertexBits), edges, faces, loopStart, loopTotal);
  }

  /** The eight corners of a box, `z = min` face first, counter-clockwise. */
  function BoxCorners(xmin: F32, ymin: F32, zmin: F32, xmax: F32, ymax: F32, zmax: F32): (v: seq<F32>)
    ensures |v| == 24
  {
    [xmin, ymin, zmin, xmax, ymin, zmin, xmax, ymax, zmin, xmin, ymax, zmin,
     xmin, ymin, zmax, xmax, ymin, zmax, xmax, ymax, zmax, xmin, ymax, zmax]
  }

  predicate IndicesBelow(s: seq<u32>, bound: nat)
  {
    forall k :: 0 <= k < |s| ==> s[k] < bound
  }

  /** `bbox_edges`: the box's eight corners and its twelve edges. */
  function BboxEdges(xmin: F32, ymin: F32, zmin: F32, xmax: F32, ymax: F32, zmax: F32): (m: Mesh)
    ensures |m.vertices| == 3 * 8 && |m.edges| == 2 * 12 && IndicesBelow(m.edges, 8)
    ensures m.faces == [] && m.loopStart == [] && m.loopTotal == []
    ensures Encodable(m) && SerializedSize(m) == 16 + 4 * 48
  {
    Mesh(BoxCorners(xmin, ymin, zmin, xmax, ymax, zmax),
         [0, 1, 1, 2, 2, 3, 3, 0, 4, 5, 5, 6, 6, 7, 7, 4, 0, 4, 1, 5, 2, 6, 3, 7],
         [], [], [])
  }

  /** `bbox_mesh`: the box's eight corners and its six sides as quads. */
  method BboxMesh(xmin: F32, ymin: F32, zmin: F32, xmax: F32, ymax: F32, zmax: F32) returns (m: Mesh)
    ensures |m.vertices| == 3 * 8 && m.edges == []
    ensures |m.faces| == 6 * 4 && IndicesBelow(m.faces, 8)
    ensures |m.loopStart| == |m.loopTotal| == 6
    ensures forall i :: 0 <= i < 6 ==> m.loopStart[i] == 4 * i && m.loopTotal[i] == 4
  {
    var faces: seq<u32> := [0, 1, 5, 4, 1, 2, 6, 5, 5, 6, 7, 4, 2, 6, 7, 3, 3, 7, 4, 0, 0, 1, 2, 3];
    var loopStart: seq<u32> := [];
    var loopTotal: seq<u32> := [];
    for i := 0 to 6
      invariant |loopStart| == |loopTotal| == i
      invariant forall k :: 0 <= k < i ==> loopStart[k] == 4 * k && loopTotal[k] == 4
    {
      loopStart := loopStart + [i * 4];
      loopTotal := loopTotal + [4];
    }
    m := Mesh(BoxCorners(xmin, ymin, zmin, xmax, ymax, zmax), [], faces, loopStart, loopTotal);
  }
}
