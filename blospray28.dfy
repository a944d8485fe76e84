/**
 * The Blender 2.8 render engine of the byte-tag protocol generation: the
 * scene export (settings, then each visible mesh object as an `M` or `V`
 * record, then `!`), the reply a volume export waits for, and the render
 * that reads back four framebuffers.
 *
 * Blender's objects are values here: what the add-on reads from an object
 * is a field of `BObject`, and what it writes back into one (the volume's
 * `loaded_id` and its box mesh) is returned as a `VolumeResult`.
 */
module Blospray28 {
  import opened Bytes
  import opened Wrappers
  import opened TcpSocket
  import opened Framing
  import Json
  import PyCommon
  import Connection
  import OldServer

  /** Blender's `matrix_world`: four rows of four floats. */
  type Matrix4 = m: seq<seq<F32>> | |m| == 4 && |m[0]| == 4 && |m[1]| == 4 && |m[2]| == 4 && |m[3]| == 4
    witness [[F32(0), F32(0), F32(0), F32(0)], [F32(0), F32(0), F32(0), F32(0)],
             [F32(0), F32(0), F32(0), F32(0)], [F32(0), F32(0), F32(0), F32(0)]]

  /** Text of 7-bit characters only, as `json.dumps` writes by default. */
  type Ascii = s: string | forall i :: 0 <= i < |s| ==> s[i] as int < 128

  /**
   * An object of the scene as the exporter sees it: whether it is a mesh,
   * whether it is hidden from rendering, its custom properties, its
   * object-to-world matrix, its vertices already in world space and its
   * loop triangles.
   */
  datatype BObject<V> = BObject(isMesh: bool, hideRender: bool, props: map<string, V>, matrixWorld: Matrix4,
                                worldVertices: seq<Connection.Vec3>, triangles: seq<(u32, u32, u32)>)

  /**
   * What the add-on gets from Blender and Python for a volume's properties:
   * the plain value of a property (`to_dict`/`to_list`), `bpy.path.abspath`
   * and `json.dumps`.
   */
  datatype Blender<!V> = Blender(plain: V -> Json.Value, abspath: Json.Value -> Json.Value,
                                dumps: map<string, Json.Value> -> Ascii)

  /** Only visible meshes are exported. */
  predicate Exported<V>(o: BObject<V>)
  {
    o.isMesh && !o.hideRender
  }

  /** An exported object carrying a `voltype` property is a volume. */
  predicate IsVolume<V>(o: BObject<V>)
  {
    Exported(o) && "voltype" in o.props
  }

  /** UTF-8 of 7-bit text: one byte per character. */
  function AsciiBytes(s: Ascii): (b: seq<byte>)
    ensures |b| == |s| && forall i :: 0 <= i < |s| ==> b[i] == s[i] as int
  {
    OldServer.Latin1(s)
  }

  /** The JSON text of a volume's properties; `None` where building the dictionary raises. */
  function VolumeJson<V>(o: BObject<V>, b: Blender<V>): (r: Option<Ascii>)
    ensures r.Some? <==> "" !in o.props
  {
    match Connection.CustomProperties2Dict(o.props, b.plain, b.abspath)
    case Some(d) => Some(b.dumps(d))
    case None => None
  }

  /** A mesh record: tag `M`, both counts, the world-space vertices, the triangle indices. */
  function MeshRecord<V>(o: BObject<V>): (r: seq<byte>)
    requires |o.worldVertices| < U32_LIMIT && |o.triangles| < U32_LIMIT
    ensures |r| == 9 + 12 * |o.worldVertices| + 12 * |o.triangles|
    ensures r[0] == 'M' as byte && ReadLE32(r[1..5]) == |o.worldVertices| && ReadLE32(r[5..9]) == |o.triangles|
  {
    Connection.Flat3At(o.worldVertices);
    Connection.Flat3At(o.triangles);
    assert (['M' as byte] + LE32(|o.worldVertices|) + LE32(|o.triangles|))[1..5] == LE32(|o.worldVertices|);
    ['M' as byte] + LE32(|o.worldVertices|) + LE32(|o.triangles|) +
    FloatsLE(Connection.Flat3(o.worldVertices)) + WordsLE(Connection.Flat3(o.triangles))
  }

  /** A volume record: tag `V`, the matrix row by row, then the length-prefixed JSON. */
  function VolumeRecord<V>(o: BObject<V>, json: Ascii): (r: seq<byte>)
    requires |json| < U32_LIMIT
    ensures |r| == 69 + |json| && r[0] == 'V' as byte && ReadLE32(r[65..69]) == |json|
    ensures r[69..] == AsciiBytes(json)
  {
    assert Connection.Rows4(o.matrixWorld);
    Connection.Matrix2ListRowMajor(o.matrixWorld);
    var head := ['V' as byte] + FloatsLE(Connection.Matrix2List(o.matrixWorld));
    assert (head + LE32(|json|) + AsciiBytes(json))[65..69] == LE32(|json|);
    head + LE32(|json|) + AsciiBytes(json)
  }

  /**
   * What one object adds to the stream; `None` where the export raises: a
   * count or JSON length that `pack('<I')` refuses, or an empty property key.
   */
  function ObjectBytes<V>(o: BObject<V>, b: Blender<V>): (r: Option<seq<byte>>)
    ensures !Exported(o) ==> r == Some([])
    ensures r.Some? && |r.value| > 0 ==> r.value[0] == (if IsVolume(o) then 'V' else 'M') as byte
  {
    if !Exported(o) then Some([])
    else if IsVolume(o) then
      match VolumeJson(o, b)
      case Some(json) => if |json| < U32_LIMIT then Some(VolumeRecord(o, json)) else None
      case None => None
    else if |o.worldVertices| < U32_LIMIT && |o.triangles| < U32_LIMIT then Some(MeshRecord(o))
    else None
  }

  /** The records of a sequence of objects, in order; `None` once one raises. */
  function ObjectsBytes<V>(objs: seq<BObject<V>>, b: Blender<V>): Option<seq<byte>>
  {
    if objs == [] then Some([])
    else
      match ObjectsBytes(objs[..|objs| - 1], b)
      case None => None
      case Some(init) =>
        match ObjectBytes(objs[|objs| - 1], b)
        case None => None
        case Some(last) => Some(init + last)
  }

  /** How many volumes a sequence of objects exports. */
  function VolumeCount<V>(objs: seq<BObject<V>>): nat
  {
    if objs == [] then 0 else VolumeCount(objs[..|objs| - 1]) + (if IsVolume(objs[|objs| - 1]) then 1 else 0)
  }

  /**
   * The whole stream of `export_scene`: image, camera and light settings as
   * length-prefixed messages, the objects' records, then `!`.
   */
  function SceneBytes<V>(image: seq<byte>, camera: seq<byte>, light: seq<byte>, objs: seq<BObject<V>>,
                         b: Blender<V>): (r: Option<seq<byte>>)
    ensures r.Some? ==> |r.value| > 0 && r.value[|r.value| - 1] == '!' as byte
    ensures r.Some? <==> |image| < U32_LIMIT && |camera| < U32_LIMIT && |light| < U32_LIMIT &&
                         ObjectsBytes(objs, b).Some?
  {
    if |image| < U32_LIMIT && |camera| < U32_LIMIT && |light| < U32_LIMIT && ObjectsBytes(objs, b).Some? then
      Some(Frame(image) + Frame(camera) + Frame(light) + ObjectsBytes(objs, b).value + ['!' as byte])
    else None
  }

  /** The mesh a volume object gets: the corners of its box, and the box's edges. */
  datatype VolumeResult = VolumeResult(loadedId: string, bbox: OldServer.Box, corners: seq<Connection.Vec3>,
                                       edges: seq<(nat, nat)>)

  /** The box entries each corner takes its x, y and z from: minimum 0, 1, 2 and maximum 3, 4, 5. */
  const CORNER_AXES: seq<(nat, nat, nat)> :=
    [(0, 1, 2), (3, 1, 2), (3, 4, 2), (0, 4, 2), (0, 1, 5), (3, 1, 5), (3, 4, 5), (0, 4, 5)]

  /** The twelve edges of the box mesh, as pairs of corner numbers. */
  const BOX_EDGES: seq<(nat, nat)> :=
    [(0, 1), (1, 2), (2, 3), (3, 0), (4, 5), (5, 6), (6, 7), (7, 4), (0, 4), (1, 5), (2, 6), (3, 7)]

  /** The eight corners of the mesh that shows a volume's extent. */
  function BoxCorners(bbox: OldServer.Box): (r: seq<Connection.Vec3>)
    ensures |r| == 8
    ensures forall k :: 0 <= k < 8 ==>
              r[k] == (bbox[CORNER_AXES[k].0], bbox[CORNER_AXES[k].1], bbox[CORNER_AXES[k].2])
  {
    seq(8, k requires 0 <= k < 8 => (bbox[CORNER_AXES[k].0], bbox[CORNER_AXES[k].1], bbox[CORNER_AXES[k].2]))
  }

  /** In how many of the three axes two corners take different box entries. */
  function AxesApart(j: nat, k: nat): (n: nat)
    requires j < 8 && k < 8
    ensures n <= 3 && (n == 0 <==> CORNER_AXES[j] == CORNER_AXES[k])
  {
    (if CORNER_AXES[j].0 != CORNER_AXES[k].0 then 1 else 0) +
    (if CORNER_AXES[j].1 != CORNER_AXES[k].1 then 1 else 0) +
    (if CORNER_AXES[j].2 != CORNER_AXES[k].2 then 1 else 0)
  }

  /** The corner a choice of box entries names, the inverse of `CORNER_AXES`. */
  function CornerOf(axes: (nat, nat, nat)): nat
  {
    (if axes.1 == 4 then (if axes.0 == 3 then 2 else 3) else (if axes.0 == 3 then 1 else 0)) +
    (if axes.2 == 5 then 4 else 0)
  }

  /** The corners are the eight combinations of minimum and maximum in each axis, each once. */
  lemma CornersAreCombinations()
    ensures forall k :: 0 <= k < 8 ==>
              CORNER_AXES[k].0 in {0, 3} && CORNER_AXES[k].1 in {1, 4} && CORNER_AXES[k].2 in {2, 5}
    ensures forall j, k :: 0 <= j < k < 8 ==> CORNER_AXES[j] != CORNER_AXES[k]
  {
    assert forall k :: 0 <= k < 8 ==> CornerOf(CORNER_AXES[k]) == k;
  }

  /** The edge number of two corners, in either order, when they are one axis apart. */
  function EdgeOf(a: nat, b: nat): nat
  {
    var lo := if a <= b then a else b;
    var hi := if a <= b then b else a;
    if hi == lo + 4 then 8 + lo
    else if lo == 0 && hi == 3 then 3
    else if lo == 4 && hi == 7 then 7
    else lo
  }

  /** Every edge joins two corners one axis apart, and no pair of corners is joined twice. */
  lemma EdgesJoinNeighbours()
    ensures forall e :: 0 <= e < 12 ==>
              BOX_EDGES[e].0 < 8 && BOX_EDGES[e].1 < 8 && AxesApart(BOX_EDGES[e].0, BOX_EDGES[e].1) == 1
    ensures forall d, e :: 0 <= d < e < 12 ==>
              BOX_EDGES[d] != BOX_EDGES[e] && BOX_EDGES[d] != (BOX_EDGES[e].1, BOX_EDGES[e].0)
  {
    assert forall e :: 0 <= e < 12 ==> EdgeOf(BOX_EDGES[e].0, BOX_EDGES[e].1) == e;
  }

  /** Every two corners one axis apart are joined by an edge. */
  lemma NeighboursAreJoined()
    ensures forall j, k :: 0 <= j < k < 8 && AxesApart(j, k) == 1 ==>
              EdgeOf(j, k) < 12 && BOX_EDGES[EdgeOf(j, k)] in {(j, k), (k, j)}
  {
    forall j, k | 0 <= j < k < 8 && AxesApart(j, k) == 1
      ensures EdgeOf(j, k) < 12 && BOX_EDGES[EdgeOf(j, k)] in {(j, k), (k, j)}
    {
      if j == 0 {
        assert k in {1, 3, 4};
      } else if j == 1 {
        assert k in {2, 5};
      } else if j == 2 {
        assert k in {3, 6};
      } else if j == 3 {
        assert k == 7;
      } else if j == 4 {
        assert k in {5, 7};
      } else if j == 5 {
        assert k == 6;
      } else {
        assert j == 6 && k == 7;
      }
    }
  }

  /**
   * The box mesh is the box's wire frame: eight distinct corners, each a
   * combination of minimum and maximum per axis, and twelve distinct edges
   * joining exactly the corner pairs one axis apart.
   */
  lemma BoxMeshIsCube()
    ensures forall j, k :: 0 <= j < k < 8 ==> CORNER_AXES[j] != CORNER_AXES[k]
    ensures forall e :: 0 <= e < 12 ==>
              BOX_EDGES[e].0 < 8 && BOX_EDGES[e].1 < 8 && AxesApart(BOX_EDGES[e].0, BOX_EDGES[e].1) == 1
    ensures forall j, k :: 0 <= j < k < 8 && AxesApart(j, k) == 1 ==>
              exists e :: 0 <= e < 12 && BOX_EDGES[e] in {(j, k), (k, j)}
  {
    CornersAreCombinations();
    EdgesJoinNeighbours();
    NeighboursAreJoined();
    forall j, k | 0 <= j < k < 8 && AxesApart(j, k) == 1
      ensures exists e :: 0 <= e < 12 && BOX_EDGES[e] in {(j, k), (k, j)}
    {
      var e := EdgeOf(j, k);
      assert BOX_EDGES[e] in {(j, k), (k, j)};
    }
  }

  /** `id.decode('utf8')` for a 7-bit id: its characters; `None` for a byte above 127. */
  function DecodeId(id: seq<byte>): (r: Option<string>)
    ensures r.Some? ==> |r.value| == |id| && forall i :: 0 <= i < |id| ==> r.value[i] as int == id[i]
    ensures r.None? <==> exists i :: 0 <= i < |id| && id[i] >= 128
  {
    if forall i :: 0 <= i < |id| ==> id[i] < 128 then Some(seq(|id|, i requires 0 <= i < |id| => id[i] as char))
    else None
  }

  /** `unpack('<ffffff', bbox)`. */
  function UnpackBox(raw: seq<byte>): (bbox: OldServer.Box)
    requires |raw| == 24
  {
    Floats(ReadWordsLE(raw, 6))
  }

  /** What a volume export makes of the 64 reply bytes; `None` where the id does not decode. */
  function VolumeOf(reply: seq<byte>): (r: Option<VolumeResult>)
    requires |reply| == 64
    ensures r.Some? ==> |r.value.loadedId| == 40 && r.value.corners == BoxCorners(r.value.bbox) &&
                        r.value.edges == BOX_EDGES
  {
    match DecodeId(reply[..40])
    case Some(id) =>
      var bbox := UnpackBox(reply[40..]);
      Some(VolumeResult(id, bbox, BoxCorners(bbox), BOX_EDGES))
    case None => None
  }

  /**
   * The reply `receive_volume` sends, read as a volume export reads it: the
   * id is the digest text and the box comes back as sent.
   */
  lemma {:induction false} VolumeOfReply(w: OldServer.Digest, bbox: OldServer.Box)
    ensures VolumeOf(OldServer.VolumeReply(OldServer.Sha1Hex(w), bbox)).Some?
    ensures VolumeOf(OldServer.VolumeReply(OldServer.Sha1Hex(w), bbox)).value.loadedId == OldServer.Sha1Hex(w)
    ensures VolumeOf(OldServer.VolumeReply(OldServer.Sha1Hex(w), bbox)).value.bbox == bbox
  {
    var hash := OldServer.Sha1Hex(w);
    var reply := OldServer.VolumeReply(hash, bbox);
    var id := reply[..40];
    assert forall i :: 0 <= i < 40 ==> id[i] == hash[i] as int < 128;
    var decoded := DecodeId(id).value;
    assert forall i :: 0 <= i < 40 ==> decoded[i] == hash[i];
    assert decoded == hash;
    assert reply[40..] == WordsLE(FloatBits(bbox)) + [];
    ReadWordsOfWords(FloatBits(bbox), []);
    FloatsOfFloatBits(bbox);
  }

  /** How an export ended. */
  datatype Ending = Sent | Raised | Stalled

  /** The matrix as one float array is its four rows one after the other. */
  lemma MatrixBytes(m: Matrix4)
    ensures FloatsLE(Connection.Matrix2List(m)) == FloatsLE(m[0]) + FloatsLE(m[1]) + FloatsLE(m[2]) + FloatsLE(m[3])
  {
    assert m[..1][..0] == [] && m[..2][..1] == m[..1] && m[..3][..2] == m[..2] && m[..4][..3] == m[..3] && m[..4] == m;
    assert Connection.Matrix2List(m[..1]) == m[0];
    assert Connection.Matrix2List(m[..2]) == m[0] + m[1];
    assert Connection.Matrix2List(m[..3]) == m[0] + m[1] + m[2];
    assert Connection.Matrix2List(m) == m[0] + m[1] + m[2] + m[3];
    FloatsLEAppend(m[0], m[1]);
    FloatsLEAppend(m[0] + m[1], m[2]);
    FloatsLEAppend(m[0] + m[1] + m[2], m[3]);
  }

  /** Float encoding distributes over concatenation. */
  lemma FloatsLEAppend(a: seq<F32>, b: seq<F32>)
    ensures FloatsLE(a + b) == FloatsLE(a) + FloatsLE(b)
  {
    assert FloatBits(a + b) == FloatBits(a) + FloatBits(b);
    WordsLEAppend(FloatBits(a), FloatBits(b));
  }

  /** One `send` per chunk, in order, their counts not looked at; stops at the first that raises. */
  method SendEach(sock: Socket, chunks: seq<seq<byte>>) returns (raised: bool)
    modifies sock
    ensures |old(sock.outbox.limits)| == 0 ==>
              !raised && |sock.outbox.limits| == 0 && sock.outbox.data == old(sock.outbox.data) + PyCommon.Join(chunks)
    ensures sock.inbox == old(sock.inbox)
  {
    raised := false;
    var i := 0;
    while i < |chunks|
      invariant 0 <= i <= |chunks|
      invariant |old(sock.outbox.limits)| == 0 ==>
                  !raised && |sock.outbox.limits| == 0 &&
                  sock.outbox.data == old(sock.outbox.data) + PyCommon.Join(chunks[..i])
      invariant sock.inbox == old(sock.inbox)
    {
      var count;
      raised, count := PyCommon.PySend(sock, chunks[i]);
      if raised {
        return;
      }
      assert chunks[i][..count] == chunks[i] || |old(sock.outbox.limits)| > 0;
      assert chunks[..i + 1] == chunks[..i] + [chunks[i]];
      PyCommon.JoinSnoc(chunks[..i], chunks[i]);
      i := i + 1;
    }
    assert chunks[..i] == chunks;
  }

  /**
   * A mesh object: `send` of the tag, of both counts packed as `<II` (which
   * raises for a count of 2^32 or more), of the vertex array and of the
   * triangle array, the arrays filled entry by entry.
   */
  method ExportMesh<V>(sock: Socket, o: BObject<V>) returns (raised: bool)
    modifies sock
    ensures |o.worldVertices| >= U32_LIMIT || |o.triangles| >= U32_LIMIT ==> raised
    ensures |o.worldVertices| < U32_LIMIT && |o.triangles| < U32_LIMIT && |old(sock.outbox.limits)| == 0 ==>
              !raised && |sock.outbox.limits| == 0 && sock.outbox.data == old(sock.outbox.data) + MeshRecord(o)
    ensures sock.inbox == old(sock.inbox)
  {
    var count;
    raised, count := PyCommon.PySend(sock, ['M' as byte]);
    if raised {
      return;
    }
    if |o.worldVertices| >= U32_LIMIT || |o.triangles| >= U32_LIMIT {
      return true;
    }
    if |old(sock.outbox.limits)| == 0 {
      assert ['M' as byte][..count] == ['M' as byte];
    }
    ghost var afterTag := sock.outbox.data;
    raised := SendMeshArrays(sock, o);
    if |old(sock.outbox.limits)| == 0 {
      MeshRecordParts(o, old(sock.outbox.data), afterTag, sock.outbox.data);
    }
  }

  lemma MeshRecordParts<V>(o: BObject<V>, before: seq<byte>, afterTag: seq<byte>, after: seq<byte>)
    requires |o.worldVertices| < U32_LIMIT && |o.triangles| < U32_LIMIT
    requires afterTag == before + ['M' as byte]
    requires after == afterTag + LE32(|o.worldVertices|) + LE32(|o.triangles|) +
                      FloatsLE(Connection.Flat3(o.worldVertices)) + WordsLE(Connection.Flat3(o.triangles))
    ensures after == before + MeshRecord(o)
  {
  }

  /** The counts, then the vertex array and the triangle array, each filled entry by entry. */
  method SendMeshArrays<V>(sock: Socket, o: BObject<V>) returns (raised: bool)
    requires |o.worldVertices| < U32_LIMIT && |o.triangles| < U32_LIMIT
    modifies sock
    ensures |old(sock.outbox.limits)| == 0 ==>
              !raised && |sock.outbox.limits| == 0 &&
              sock.outbox.data == old(sock.outbox.data) + LE32(|o.worldVertices|) + LE32(|o.triangles|) +
                                  FloatsLE(Connection.Flat3(o.worldVertices)) + WordsLE(Connection.Flat3(o.triangles))
    ensures sock.inbox == old(sock.inbox)
  {
    var vertices := Connection.FillTriples(o.worldVertices);
    var triangles := Connection.FillTriples(o.triangles);
    var counts := LE32(|o.worldVertices|) + LE32(|o.triangles|);
    raised := SendEach(sock, [counts, FloatsLE(vertices), WordsLE(triangles)]);
    if |old(sock.outbox.limits)| == 0 {
      Join3(counts, FloatsLE(vertices), WordsLE(triangles));
    }
  }

  lemma Join3(a: seq<byte>, b: seq<byte>, c: seq<byte>)
    ensures PyCommon.Join([a, b, c]) == a + b + c
  {
    assert [a, b, c][..2] == [a, b] && [a, b][..1] == [a] && [a][..0] == [];
    assert PyCommon.Join([a]) == a;
    assert PyCommon.Join([a, b]) == a + b;
  }

  /**
   * The record half of `export_volume`: `send` of the tag and of each matrix
   * row, then the properties made a dictionary (raising on an empty key),
   * `send` of their JSON length packed as `<I` (raising at 2^32 or more),
   * and `sendall` of the JSON.
   */
  method SendVolumeRecord<V>(sock: Socket, o: BObject<V>, b: Blender<V>) returns (raised: bool)
    modifies sock
    ensures !raised ==> VolumeJson(o, b).Some? && |VolumeJson(o, b).value| < U32_LIMIT
    ensures "" in o.props ==> raised
    ensures |old(sock.outbox.limits)| == 0 && VolumeJson(o, b).Some? && |VolumeJson(o, b).value| < U32_LIMIT ==>
              !raised && |sock.outbox.limits| == 0 &&
              sock.outbox.data == old(sock.outbox.data) + VolumeRecord(o, VolumeJson(o, b).value)
    ensures sock.inbox == old(sock.inbox)
  {
    raised := SendRows(sock, o.matrixWorld);
    if raised {
      return;
    }
    var json := VolumeJson(o, b);
    if json.None? || |json.value| >= U32_LIMIT {
      return true;
    }
    ghost var afterRows := sock.outbox.data;
    raised := SendJson(sock, json.value);
    if |old(sock.outbox.limits)| == 0 {
      VolumeRecordParts(o, json.value, old(sock.outbox.data), afterRows, sock.outbox.data);
    }
  }

  lemma VolumeRecordParts<V>(o: BObject<V>, json: Ascii, before: seq<byte>, afterRows: seq<byte>, after: seq<byte>)
    requires |json| < U32_LIMIT
    requires afterRows == before + ['V' as byte] + FloatsLE(Connection.Matrix2List(o.matrixWorld))
    requires after == afterRows + LE32(|json|) + AsciiBytes(json)
    ensures after == before + VolumeRecord(o, json)
  {
  }

  /** The tag `V`, then one `send` per matrix row packed as `<ffff`. */
  method SendRows(sock: Socket, m: Matrix4) returns (raised: bool)
    modifies sock
    ensures |old(sock.outbox.limits)| == 0 ==>
              !raised && |sock.outbox.limits| == 0 &&
              sock.outbox.data == old(sock.outbox.data) + ['V' as byte] + FloatsLE(Connection.Matrix2List(m))
    ensures sock.inbox == old(sock.inbox)
  {
    var rows := [['V' as byte], FloatsLE(m[0]), FloatsLE(m[1]), FloatsLE(m[2]), FloatsLE(m[3])];
    raised := SendEach(sock, rows);
    if |old(sock.outbox.limits)| == 0 {
      RowsJoined(m, rows);
    }
  }

  /** The tag and the four rows, joined, are the tag and the matrix as one float array. */
  lemma RowsJoined(m: Matrix4, rows: seq<seq<byte>>)
    requires rows == [['V' as byte], FloatsLE(m[0]), FloatsLE(m[1]), FloatsLE(m[2]), FloatsLE(m[3])]
    ensures PyCommon.Join(rows) == ['V' as byte] + FloatsLE(Connection.Matrix2List(m))
  {
    var v, f0, f1, f2, f3 := ['V' as byte], FloatsLE(m[0]), FloatsLE(m[1]), FloatsLE(m[2]), FloatsLE(m[3]);
    var r0: seq<seq<byte>> := [];
    var r1 := r0 + [v];
    var r2 := r1 + [f0];
    var r3 := r2 + [f1];
    var r4 := r3 + [f2];
    assert rows == r4 + [f3];
    PyCommon.JoinSnoc(r0, v);
    PyCommon.JoinSnoc(r1, f0);
    PyCommon.JoinSnoc(r2, f1);
    PyCommon.JoinSnoc(r3, f2);
    PyCommon.JoinSnoc(r4, f3);
    MatrixBytes(m);
    assert v + f0 + f1 + f2 + f3 == v + (f0 + f1 + f2 + f3);
  }

  /** `send` of the JSON length packed as `<I`, then `sendall` of the JSON. */
  method SendJson(sock: Socket, json: Ascii) returns (raised: bool)
    requires |json| < U32_LIMIT
    modifies sock
    ensures |old(sock.outbox.limits)| == 0 ==>
              !raised && |sock.outbox.limits| == 0 &&
              sock.outbox.data == old(sock.outbox.data) + LE32(|json|) + AsciiBytes(json)
    ensures sock.inbox == old(sock.inbox)
  {
    var count;
    raised, count := PyCommon.PySend(sock, LE32(|json|));
    if raised {
      return;
    }
    if |old(sock.outbox.limits)| == 0 {
      assert LE32(|json|)[..count] == LE32(|json|);
    }
    var res := sock.SendAll(AsciiBytes(json));
    raised := res == -1;
  }

  /** The loop `while len(x) < n: x += recv(n - len(x))`, after a first `recv(n)`: exactly `n` bytes. */
  method ReceiveExactly(sock: Socket, n: nat) returns (e: Ending, bytes: seq<byte>)
    modifies sock
    ensures e == Sent ==> |bytes| == n && bytes + sock.inbox.data == old(sock.inbox.data)
    ensures e == Stalled ==> sock.inbox.closed
    ensures e != Raised ==> e == Sent || e == Stalled
    ensures sock.outbox == old(sock.outbox)
  {
    var o := PyCommon.ReceiveChunks(sock, PyCommon.Remaining, n);
    match o {
      case Got(got, rest) =>
        PyCommon.ReadLoopExact(old(sock.inbox), PyCommon.Remaining, n, n);
        assert old(sock.inbox.data) == old(sock.inbox.data)[..n] + old(sock.inbox.data)[n..];
        return Sent, got;
      case Raised =>
        return Raised, [];
      case Stalled =>
        return Stalled, [];
    }
  }

  /**
   * The reply half of `export_volume`: 40 id bytes and then 24 box bytes,
   * each read by a loop of `recv` for what is still missing; the id is
   * decoded before the box is read.
   */
  method ReceiveVolumeReply(sock: Socket) returns (e: Ending, volume: VolumeResult, ghost reply: seq<byte>)
    modifies sock
    ensures e == Sent ==> |reply| == 64 && reply + sock.inbox.data == old(sock.inbox.data) &&
                          VolumeOf(reply) == Some(volume)
    ensures e == Stalled ==> sock.inbox.closed
    ensures sock.outbox == old(sock.outbox)
  {
    volume := VolumeResult("", [F32(0), F32(0), F32(0), F32(0), F32(0), F32(0)], [], []);
    reply := [];
    var id;
    e, id := ReceiveExactly(sock, 40);
    if e != Sent {
      return;
    }
    var loadedId := DecodeId(id);
    if loadedId.None? {
      return Raised, volume, reply;
    }
    var raw;
    e, raw := ReceiveExactly(sock, 24);
    if e != Sent {
      return;
    }
    var bbox := UnpackBox(raw);
    volume := VolumeResult(loadedId.value, bbox, BoxCorners(bbox), BOX_EDGES);
    reply := id + raw;
    assert reply[..40] == id && reply[40..] == raw;
  }

  /**
   * `export_volume`: the `V` record, then the 40-byte id and the 24-byte
   * bounding box read back; the reply is taken from the front of the stream.
   */
  method ExportVolume<V>(sock: Socket, o: BObject<V>, b: Blender<V>)
    returns (e: Ending, volume: VolumeResult, ghost record: seq<byte>, ghost reply: seq<byte>)
    modifies sock
    ensures e == Sent ==> VolumeJson(o, b).Some? && |VolumeJson(o, b).value| < U32_LIMIT &&
                          record == VolumeRecord(o, VolumeJson(o, b).value)
    ensures e == Sent && |old(sock.outbox.limits)| == 0 ==>
              |sock.outbox.limits| == 0 && sock.outbox.data == old(sock.outbox.data) + record
    ensures e == Sent ==>
              |reply| == 64 && reply + sock.inbox.data == old(sock.inbox.data) && VolumeOf(reply) == Some(volume)
    ensures VolumeJson(o, b).None? || |VolumeJson(o, b).value| >= U32_LIMIT ==> e == Raised
    ensures e == Stalled ==> sock.inbox.closed
  {
    volume := VolumeResult("", [F32(0), F32(0), F32(0), F32(0), F32(0), F32(0)], [], []);
    reply := [];
    record := [];
    var raised := SendVolumeRecord(sock, o, b);
    if raised {
      return Raised, volume, record, reply;
    }
    record := VolumeRecord(o, VolumeJson(o, b).value);
    ghost var sent := sock.outbox;
    e, volume, reply := ReceiveVolumeReply(sock);
    assert sock.outbox == sent;
  }

  /**
   * One object of `export_scene`'s loop: skipped unless it is a visible
   * mesh; a volume when it has a `voltype` property (its record, then its
   * reply); otherwise a mesh.
   */
  method ExportObject<V>(sock: Socket, o: BObject<V>, b: Blender<V>)
    returns (e: Ending, volume: VolumeResult, ghost record: seq<byte>, ghost reply: seq<byte>)
    modifies sock
    ensures e == Sent ==> ObjectBytes(o, b) == Some(record)
    ensures e == Sent && |old(sock.outbox.limits)| == 0 ==>
              |sock.outbox.limits| == 0 && sock.outbox.data == old(sock.outbox.data) + record
    ensures e == Sent && IsVolume(o) ==>
              |reply| == 64 && reply + sock.inbox.data == old(sock.inbox.data) && VolumeOf(reply) == Some(volume)
    ensures e == Sent && !IsVolume(o) ==> sock.inbox == old(sock.inbox)
    ensures ObjectBytes(o, b).None? ==> e == Raised
    ensures e == Stalled ==> sock.inbox.closed
  {
    volume := VolumeResult("", [F32(0), F32(0), F32(0), F32(0), F32(0), F32(0)], [], []);
    reply := [];
    record := [];
    if !Exported(o) {
      return Sent, volume, record, reply;
    }
    if "voltype" in o.props {
      e, volume, record, reply := ExportVolume(sock, o, b);
    } else {
      var raised := ExportMesh(sock, o);
      e := if raised then Raised else Sent;
      if !raised {
        record := MeshRecord(o);
      }
    }
  }

  /** Image, camera and light settings, each a length `send` then a payload `send`. */
  method ExportSettings(sock: Socket, image: seq<byte>, camera: seq<byte>, light: seq<byte>) returns (raised: bool)
    modifies sock
    ensures !raised ==> |image| < U32_LIMIT && |camera| < U32_LIMIT && |light| < U32_LIMIT
    ensures |image| < U32_LIMIT && |camera| < U32_LIMIT && |light| < U32_LIMIT && |old(sock.outbox.limits)| == 0 ==>
              !raised && |sock.outbox.limits| == 0 &&
              sock.outbox.data == old(sock.outbox.data) + Frame(image) + Frame(camera) + Frame(light)
    ensures sock.inbox == old(sock.inbox)
  {
    raised := PyCommon.SendProtobuf(sock, image, false);
    if raised {
      return;
    }
    raised := PyCommon.SendProtobuf(sock, camera, false);
    if raised {
      return;
    }
    raised := PyCommon.SendProtobuf(sock, light, false);
  }

  /** Each reply is 64 bytes and gives its volume. */
  predicate Answered(volumes: seq<VolumeResult>, replies: seq<seq<byte>>)
  {
    |volumes| == |replies| &&
    forall k :: 0 <= k < |replies| ==> |replies[k]| == 64 && VolumeOf(replies[k]) == Some(volumes[k])
  }

  /** What the first `i` objects of `export_scene`'s loop have read: one reply per volume, from the front. */
  predicate RepliedSoFar<V>(objs: seq<BObject<V>>, i: nat, in0: seq<byte>, inbox: seq<byte>,
                            volumes: seq<VolumeResult>, replies: seq<seq<byte>>)
    requires i <= |objs|
  {
    Answered(volumes, replies) && |replies| == VolumeCount(objs[..i]) && PyCommon.Join(replies) + inbox == in0
  }

  /** One more object's reply, if it is a volume, keeps `RepliedSoFar`. */
  lemma RepliedStep<V>(objs: seq<BObject<V>>, i: nat, in0: seq<byte>, inbox: seq<byte>, inbox1: seq<byte>,
                       volumes: seq<VolumeResult>, replies: seq<seq<byte>>, volume: VolumeResult, reply: seq<byte>)
    requires i < |objs| && RepliedSoFar(objs, i, in0, inbox, volumes, replies)
    requires IsVolume(objs[i]) ==> |reply| == 64 && reply + inbox1 == inbox && VolumeOf(reply) == Some(volume)
    requires !IsVolume(objs[i]) ==> inbox1 == inbox
    ensures var volumes1 := if IsVolume(objs[i]) then volumes + [volume] else volumes;
            var replies1 := if IsVolume(objs[i]) then replies + [reply] else replies;
            RepliedSoFar(objs, i + 1, in0, inbox1, volumes1, replies1)
  {
    VolumeCountStep(objs, i);
    if IsVolume(objs[i]) {
      PyCommon.JoinSnoc(replies, reply);
      assert PyCommon.Join(replies + [reply]) + inbox1 == PyCommon.Join(replies) + (reply + inbox1);
      assert Answered(volumes + [volume], replies + [reply]);
    }
  }

  lemma VolumeCountStep<V>(objs: seq<BObject<V>>, i: nat)
    requires i < |objs|
    ensures VolumeCount(objs[..i + 1]) == VolumeCount(objs[..i]) + if IsVolume(objs[i]) then 1 else 0
  {
    assert objs[..i + 1][..i] == objs[..i] && objs[..i + 1][i] == objs[i];
  }

  /** The records of the first `i + 1` objects extend those of the first `i`. */
  lemma ObjectsStep<V>(objs: seq<BObject<V>>, b: Blender<V>, i: nat, init: seq<byte>, last: seq<byte>)
    requires i < |objs| && ObjectsBytes(objs[..i], b) == Some(init) && ObjectBytes(objs[i], b) == Some(last)
    ensures ObjectsBytes(objs[..i + 1], b) == Some(init + last)
  {
    assert objs[..i + 1][..i] == objs[..i] && objs[..i + 1][i] == objs[i];
  }

  /**
   * What the first `i` objects of `export_scene`'s loop have done: their
   * records, which went out whole when every send does (`exact`), and the
   * replies of their volumes.
   */
  predicate ExportedSoFar<V>(objs: seq<BObject<V>>, b: Blender<V>, i: nat, exact: bool,
                             in0: seq<byte>, out0: seq<byte>, inbox: seq<byte>, outbox: Outbox,
                             sent: seq<byte>, volumes: seq<VolumeResult>, replies: seq<seq<byte>>)
    requires i <= |objs|
  {
    ObjectsBytes(objs[..i], b) == Some(sent) &&
    (exact ==> |outbox.limits| == 0 && outbox.data == out0 + sent) &&
    RepliedSoFar(objs, i, in0, inbox, volumes, replies)
  }

  lemma OutboxStep(exact: bool, out0: seq<byte>, outbox: Outbox, outbox1: Outbox, sent: seq<byte>, record: seq<byte>)
    requires exact ==> |outbox.limits| == 0 && outbox.data == out0 + sent
    requires |outbox.limits| == 0 ==> |outbox1.limits| == 0 && outbox1.data == outbox.data + record
    ensures exact ==> |outbox1.limits| == 0 && outbox1.data == out0 + (sent + record)
  {
  }

  /** One turn of `export_scene`'s object loop. */
  method ExportNext<V>(sock: Socket, objs: seq<BObject<V>>, i: nat, b: Blender<V>, ghost exact: bool,
                       ghost in0: seq<byte>, ghost out0: seq<byte>,
                       ghost sent: seq<byte>, volumes: seq<VolumeResult>, ghost replies: seq<seq<byte>>)
    returns (e: Ending, volumes1: seq<VolumeResult>, ghost sent1: seq<byte>, ghost replies1: seq<seq<byte>>)
    requires i < |objs|
    requires ExportedSoFar(objs, b, i, exact, in0, out0, sock.inbox.data, sock.outbox, sent, volumes, replies)
    modifies sock
    ensures e == Sent ==>
              ExportedSoFar(objs, b, i + 1, exact, in0, out0, sock.inbox.data, sock.outbox, sent1, volumes1, replies1)
    ensures e == Stalled ==> sock.inbox.closed
  {
    ghost var inbox, outbox := sock.inbox.data, sock.outbox;
    var volume;
    ghost var record, reply;
    e, volume, record, reply := ExportObject(sock, objs[i], b);
    volumes1, sent1, replies1 := volumes, sent, replies;
    if e != Sent {
      return;
    }
    ObjectsStep(objs, b, i, sent, record);
    OutboxStep(exact, out0, outbox, sock.outbox, sent, record);
    sent1 := sent + record;
    RepliedStep(objs, i, in0, inbox, sock.inbox.data, volumes, replies, volume, reply);
    if IsVolume(objs[i]) {
      volumes1 := volumes + [volume];
      replies1 := replies + [reply];
    }
  }

  /** The loop of `export_scene` over the scene's objects, in order. */
  method ExportObjects<V>(sock: Socket, objs: seq<BObject<V>>, b: Blender<V>)
    returns (e: Ending, volumes: seq<VolumeResult>, ghost sent: seq<byte>, ghost replies: seq<seq<byte>>)
    modifies sock
    ensures e == Sent ==> ObjectsBytes(objs, b) == Some(sent)
    ensures e == Sent && |old(sock.outbox.limits)| == 0 ==>
              |sock.outbox.limits| == 0 && sock.outbox.data == old(sock.outbox.data) + sent
    ensures e == Sent ==> RepliedSoFar(objs, |objs|, old(sock.inbox.data), sock.inbox.data, volumes, replies)
    ensures e == Stalled ==> sock.inbox.closed
  {
    volumes := [];
    replies := [];
    sent := [];
    ghost var exact := |sock.outbox.limits| == 0;
    ghost var in0, out0 := sock.inbox.data, sock.outbox.data;
    assert objs[..0] == [];
    var i := 0;
    while i < |objs|
      invariant i <= |objs|
      invariant ExportedSoFar(objs, b, i, exact, in0, out0, sock.inbox.data, sock.outbox, sent, volumes, replies)
    {
      var step;
      step, volumes, sent, replies := ExportNext(sock, objs, i, b, exact, in0, out0, sent, volumes, replies);
      if step != Sent {
        return step, volumes, sent, replies;
      }
      i := i + 1;
    }
    assert objs[..i] == objs;
    e := Sent;
  }

  /**
   * `export_scene`: the settings, then every object in order, then `!` with
   * `sendall`. On a connection where every send goes out whole, the stream is
   * `SceneBytes`; each volume's reply is taken from the front of what the
   * server sent, 64 bytes each, in the order of the volumes.
   */
  method ExportScene<V>(sock: Socket, image: seq<byte>, camera: seq<byte>, light: seq<byte>,
                        objs: seq<BObject<V>>, b: Blender<V>)
    returns (e: Ending, volumes: seq<VolumeResult>, ghost replies: seq<seq<byte>>)
    modifies sock
    ensures e == Sent ==> SceneBytes(image, camera, light, objs, b).Some?
    ensures e == Sent && |old(sock.outbox.limits)| == 0 ==>
              sock.outbox.data == old(sock.outbox.data) + SceneBytes(image, camera, light, objs, b).value
    ensures e == Sent ==>
              |volumes| == |replies| == VolumeCount(objs) && PyCommon.Join(replies) + sock.inbox.data == old(sock.inbox.data) &&
              forall k :: 0 <= k < |replies| ==> |replies[k]| == 64 && VolumeOf(replies[k]) == Some(volumes[k])
    ensures e == Stalled ==> sock.inbox.closed
  {
    volumes := [];
    replies := [];
    var raised := ExportSettings(sock, image, camera, light);
    if raised {
      return Raised, volumes, replies;
    }
    ghost var afterSettings := sock.outbox.data;
    ghost var sent;
    e, volumes, sent, replies := ExportObjects(sock, objs, b);
    if e != Sent {
      return;
    }
    assert objs[..|objs|] == objs;
    ghost var beforeEnd := sock.outbox.data;
    var res := sock.SendAll(['!' as byte]);
    e := if res == -1 then Raised else Sent;
    if |old(sock.outbox.limits)| == 0 {
      SceneParts(image, camera, light, objs, b, old(sock.outbox.data), afterSettings, beforeEnd, sock.outbox.data);
    }
  }

  lemma SceneParts<V>(image: seq<byte>, camera: seq<byte>, light: seq<byte>, objs: seq<BObject<V>>, b: Blender<V>,
                      before: seq<byte>, afterSettings: seq<byte>, afterObjects: seq<byte>, after: seq<byte>)
    requires |image| < U32_LIMIT && |camera| < U32_LIMIT && |light| < U32_LIMIT && ObjectsBytes(objs, b).Some?
    requires afterSettings == before + Frame(image) + Frame(camera) + Frame(light)
    requires afterObjects == afterSettings + ObjectsBytes(objs, b).value
    requires after == afterObjects + ['!' as byte]
    ensures after == before + SceneBytes(image, camera, light, objs, b).value
  {
    var settings := Frame(image) + Frame(camera) + Frame(light);
    var records := ObjectsBytes(objs, b).value;
    var bang := ['!' as byte];
    assert SceneBytes(image, camera, light, objs, b).value == settings + records + bang;
    assert afterSettings == before + settings;
    assert after == before + settings + records + bang;
    assert before + settings + records + bang == before + (settings + records + bang);
  }

  // ---------------------------------------------------------------------
  // Reading framebuffers back

  /**
   * `_read_framebuffer`: `recv_into` a buffer of `width * height` RGBA
   * float pixels, 16 bytes each, advancing past each chunk until it is
   * full. The buffer is allocated with exactly that size.
   */
  method ReadFramebuffer(sock: Socket, framebuffer: array<byte>, width: nat, height: nat)
    returns (o: PyCommon.Outcome)
    requires framebuffer.Length == width * height * 16
    modifies sock, framebuffer
    ensures o.Got? ==> framebuffer.Length <= |old(sock.inbox.data)| &&
                       framebuffer[..] == old(sock.inbox.data)[..framebuffer.Length] &&
                       sock.inbox.data == old(sock.inbox.data)[framebuffer.Length..]
    ensures o.Stalled? ==> sock.inbox.closed
    ensures (!old(sock.inbox.closed) && AllPositive(old(sock.inbox.limits)) &&
             framebuffer.Length <= |old(sock.inbox.data)|) ==> o.Got?
  {
    o := PyCommon.ReceiveIntoArray(sock, framebuffer, width * height * 16);
    assert framebuffer[..] == framebuffer[..framebuffer.Length];
  }

  /**
   * `_read_framebuffer_to_file`: one `recv(4)` for the size, then chunks of
   * what is still owed until the file is whole; the loop is that of
   * `receive_protobuf`. What it reads is exactly what the server's
   * `send_framebuffer` writes for one file.
   */
  method ReadFramebufferToFile(sock: Socket) returns (m: PyCommon.Message)
    modifies sock
    ensures m.Message? ==> old(sock.inbox.data) == OldServer.FramebufferBytes(m.payload) + sock.inbox.data
    ensures m.Message? ==> ParseFrame(old(sock.inbox.data)) == Some(Split(m.payload, sock.inbox.data))
    ensures m.MessageStalled? ==> sock.inbox.closed
    ensures (!old(sock.inbox.closed) && |old(sock.inbox.limits)| == 0 && ParseFrame(old(sock.inbox.data)).Some?) ==>
              m.Message? && !sock.inbox.closed && |sock.inbox.limits| == 0
    ensures sock.outbox == old(sock.outbox)
  {
    m := PyCommon.ReceiveProtobuf(sock);
    if m.Message? {
      FrameOfParseFrame(old(sock.inbox.data));
      OldServer.FramebufferIsFrame(m.payload, sock.inbox.data);
    }
  }

  /** The number of samples `render` reads back. */
  const S: nat := 4

  /** The files of the first `n` frames split from `d`, and what follows them. */
  function ReadFrames(d: seq<byte>, n: nat): (r: Option<(seq<seq<byte>>, seq<byte>)>)
    ensures r.Some? ==> |r.value.0| == n
  {
    if n == 0 then Some(([], d))
    else
      match ReadFrames(d, n - 1)
      case None => None
      case Some((files, rest)) =>
        match ParseFrame(rest)
        case None => None
        case Some(Split(file, rest1)) => Some((files + [file], rest1))
  }

  /** A stream `m` frames can be split from also gives its first `k`, and a frame after them when `k < m`. */
  lemma {:induction false} ReadFramesPrefix(d: seq<byte>, k: nat, m: nat)
    requires k < m && ReadFrames(d, m).Some?
    ensures ReadFrames(d, k).Some? && ParseFrame(ReadFrames(d, k).value.1).Some?
    decreases m
  {
    if k < m - 1 {
      ReadFramesPrefix(d, k, m - 1);
    }
  }

  /** The files `exr(1)` to `exr(n)`. */
  function Files(exr: nat -> seq<byte>, n: nat): (r: seq<seq<byte>>)
    ensures |r| == n && forall k :: 0 <= k < n ==> r[k] == exr(k + 1)
  {
    seq(n, k requires 0 <= k => exr(k + 1))
  }

  /**
   * What the server's sample loop sends for samples 1 to `n`, each file
   * below 4 GiB, is read back as those files in order, and nothing more.
   */
  lemma {:induction false} ParseFramebuffers(exr: nat -> seq<byte>, n: nat, rest: seq<byte>)
    requires forall k :: 1 <= k <= n ==> |exr(k)| < U32_LIMIT
    ensures ReadFrames(OldServer.Framebuffers(exr, n) + rest, n) == Some((Files(exr, n), rest))
  {
    if n > 0 {
      var last := OldServer.FramebufferBytes(exr(n));
      var d := OldServer.Framebuffers(exr, n) + rest;
      assert d == OldServer.Framebuffers(exr, n - 1) + (last + rest);
      ParseFramebuffers(exr, n - 1, last + rest);
      OldServer.FramebufferIsFrame(exr(n), rest);
      ReadFramesNext(d, n - 1, Files(exr, n - 1), last + rest, exr(n), rest);
      FilesNext(exr, n - 1);
    } else {
      assert OldServer.Framebuffers(exr, n) + rest == rest;
      assert Files(exr, n) == [];
    }
  }

  lemma ReadFramesNext(d: seq<byte>, n: nat, files: seq<seq<byte>>, rest: seq<byte>, file: seq<byte>, rest1: seq<byte>)
    requires ReadFrames(d, n) == Some((files, rest))
    requires ParseFrame(rest) == Some(Split(file, rest1))
    ensures ReadFrames(d, n + 1) == Some((files + [file], rest1))
  {
  }

  lemma FilesNext(exr: nat -> seq<byte>, n: nat)
    ensures Files(exr, n + 1) == Files(exr, n) + [exr(n + 1)]
  {
    assert Files(exr, n + 1)[..n] == Files(exr, n);
  }

  /** The progress reported after each of the first `n` samples. */
  function Progress(n: nat): (r: seq<real>)
    ensures |r| == n && forall k :: 0 <= k < n ==> r[k] == (k + 1) as real / S as real
  {
    seq(n, k requires 0 <= k => (k + 1) as real / S as real)
  }

  /**
   * After `i` samples of `render`: their files, split in order from the
   * stream `d0`; on a connection that started `healthy` (open, unlimited,
   * holding S frames), still open and unlimited.
   */
  predicate RenderedSoFar(d0: seq<byte>, healthy: bool, i: nat, files: seq<seq<byte>>, ib: Inbox)
  {
    |files| == i && ReadFrames(d0, i) == Some((files, ib.data)) &&
    (healthy ==> !ib.closed && |ib.limits| == 0 && ReadFrames(d0, S).Some?)
  }

  /** One sample of `render`'s loop: the next framebuffer file. */
  method ReadSample(sock: Socket, ghost d0: seq<byte>, ghost healthy: bool, i: nat, ghost files: seq<seq<byte>>)
    returns (m: PyCommon.Message)
    requires i < S && RenderedSoFar(d0, healthy, i, files, sock.inbox)
    modifies sock
    ensures m.Message? ==> RenderedSoFar(d0, healthy, i + 1, files + [m.payload], sock.inbox)
    ensures healthy ==> m.Message?
    ensures m.MessageStalled? ==> sock.inbox.closed
    ensures sock.outbox == old(sock.outbox)
  {
    if healthy {
      ReadFramesPrefix(d0, i, S);
    }
    m := ReadFramebufferToFile(sock);
    if m.Message? {
      ReadFramesNext(d0, i, files, old(sock.inbox.data), m.payload, sock.inbox.data);
    }
  }

  lemma ProgressNext(n: nat)
    ensures Progress(n + 1) == Progress(n) + [(n + 1) as real / S as real]
  {
  }

  /**
   * `render`: for i from 1 to S, read a framebuffer file, load it into the
   * result and report progress i/S; then end the result and close the
   * socket. A read that raises or stalls ends the render there, the socket
   * left open.
   */
  method Render(sock: Socket) returns (e: Ending, files: seq<seq<byte>>, progress: seq<real>, closed: bool)
    modifies sock
    ensures e == Sent ==> ReadFrames(old(sock.inbox.data), S) == Some((files, sock.inbox.data))
    ensures e != Sent ==> |files| < S && ReadFrames(old(sock.inbox.data), |files|).Some?
    ensures progress == Progress(|files|)
    ensures closed <==> e == Sent
    ensures e == Stalled ==> sock.inbox.closed
    ensures (!old(sock.inbox.closed) && |old(sock.inbox.limits)| == 0 && ReadFrames(old(sock.inbox.data), S).Some?) ==>
              e == Sent
    ensures sock.outbox == old(sock.outbox)
  {
    files, progress := [], [];
    ghost var d0 := sock.inbox.data;
    ghost var healthy := !sock.inbox.closed && |sock.inbox.limits| == 0 && ReadFrames(d0, S).Some?;
    e := Sent;
    ghost var ib := sock.inbox;
    var i := 1;
    while i <= S && e == Sent
      invariant 1 <= i <= S + 1
      invariant RenderedSoFar(d0, healthy, i - 1, files, ib)
      invariant e == Sent ==> ib == sock.inbox
      invariant progress == Progress(i - 1)
      invariant e != Sent ==> i <= S && !healthy && (e == Stalled ==> sock.inbox.closed)
      invariant sock.outbox == old(sock.outbox)
      decreases S + 1 - i, e == Sent
    {
      var m := ReadSample(sock, d0, healthy, i - 1, files);
      if m.Message? {
        files := files + [m.payload];
        ProgressNext(i - 1);
        progress := progress + [i as real / S as real];
        i := i + 1;
        ib := sock.inbox;
      } else {
        e := if m.MessageRaised? then Raised else Stalled;
      }
    }
    closed := e == Sent;
  }
}
