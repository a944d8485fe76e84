/**
 * The Blender add-on's client side of the render protocol
 * (render_ospray/connection.py): the helpers that turn Blender values into
 * plain ones, the export of a scene as a stream of messages and raw arrays,
 * the poll loop of a render, and the read of a framebuffer file.
 *
 * What the client writes is kept as a sequence of `Write`s: each message it
 * frames with `send_protobuf` (whose bytes `PyCommon.SendProtobuf` models),
 * and each raw array it hands to one `sock.send`. The protobuf payloads that
 * come from float computations on the scene (render, camera and light
 * settings) are opaque byte strings here.
 */
module Connection {
  import opened Bytes
  import opened Wrappers
  import opened TcpSocket
  import PyCommon
  import Seqs

  /** `matrix2list`: the rows of a matrix, concatenated in order. */
  function Matrix2List<T>(m: seq<seq<T>>): seq<T>
  {
    if m == [] then [] else Matrix2List(m[..|m| - 1]) + m[|m| - 1]
  }

  /** Every row has four entries, as in Blender's 4x4 `matrix_world`. */
  predicate Rows4<T>(m: seq<seq<T>>)
  {
    forall i :: 0 <= i < |m| ==> |m[i]| == 4
  }

  /** The list is row-major: entry `4*i + j` is row `i`, column `j`; a 4x4 matrix gives 16 values. */
  lemma {:induction false} Matrix2ListRowMajor<T>(m: seq<seq<T>>)
    requires Rows4(m)
    ensures |Matrix2List(m)| == 4 * |m|
    ensures forall i, j :: 0 <= i < |m| && 0 <= j < 4 ==> Matrix2List(m)[4 * i + j] == m[i][j]
  {
    if m != [] {
      var init := m[..|m| - 1];
      Matrix2ListRowMajor(init);
      var r := Matrix2List(m);
      assert r == Matrix2List(init) + m[|m| - 1];
      forall i, j | 0 <= i < |m| && 0 <= j < 4
        ensures r[4 * i + j] == m[i][j]
      {
        if i < |m| - 1 {
          assert r[4 * i + j] == Matrix2List(init)[4 * i + j];
        } else {
          assert r[4 * i + j] == m[|m| - 1][4 * i + j - 4 * |init|];
        }
      }
    }
  }

  /**
   * `customproperties2dict`: the user's keys, those not starting with `_`,
   * with their values made plain (`to_dict`/`to_list`, given as `plain`),
   * and the value under `file` made an absolute path (`bpy.path.abspath`,
   * given as `abspath`). An empty key makes `k[0]` raise: `None`.
   */
  function CustomProperties2Dict<V, J>(obj: map<string, V>, plain: V -> J, abspath: J -> J): (r: Option<map<string, J>>)
    ensures r.None? <==> "" in obj
    ensures r.Some? ==> forall k :: k in r.value <==> k in obj && k != "" && k[0] != '_'
    ensures r.Some? ==> forall k :: k in r.value ==>
              r.value[k] == if k == "file" then abspath(plain(obj[k])) else plain(obj[k])
  {
    if "" in obj then None
    else
      var properties := map k | k in obj && k != "" && k[0] != '_' :: plain(obj[k]);
      Some(if "file" in properties then properties["file" := abspath(properties["file"])] else properties)
  }

  type Vec3 = (F32, F32, F32)

  /** The float 1.0, the alpha every exported vertex colour gets. */
  const ONE: F32 := F32(0x3f80_0000)

  /** A mesh vertex: its position and its normal. */
  datatype Vertex = Vertex(co: Vec3, normal: Vec3)

  /** A loop triangle: its three vertex indices and whether its face is smooth-shaded. */
  datatype Triangle = Triangle(corners: (u32, u32, u32), smooth: bool)

  /** A face corner of the active vertex-colour layer: its vertex and the colour's red, green and blue. */
  datatype Loop = Loop(vertex: nat, color: Vec3)

  /**
   * A Blender mesh as the exporter sees it. `properties` is the JSON text of
   * its custom properties; `colorLoops` is absent when the mesh has no
   * vertex colours, and otherwise lists the loops of all polygons in order.
   */
  datatype Mesh = Mesh(name: string, properties: string, vertices: seq<Vertex>, triangles: seq<Triangle>,
                       colorLoops: Option<seq<Loop>>)

  /** Every colour loop names one of the mesh's vertices. */
  predicate ValidMesh(m: Mesh)
  {
    m.colorLoops.Some? ==> forall l :: l in m.colorLoops.value ==> l.vertex < |m.vertices|
  }

  datatype ClientKind = UPDATE_SCENE | START_RENDERING | CANCEL_RENDERING | QUIT
  datatype ElementKind = NONE | MESH_DATA | MESH_OBJECT

  /** One thing the client writes to the server, in the order it writes them. */
  datatype Write =
    | ClientMessage(clientKind: ClientKind, clearScene: bool)
    | ImageSettings(width: nat, height: nat, percentage: nat)
    | RenderSettings(renderPayload: seq<byte>)
    | CameraSettings(cameraPayload: seq<byte>)
    | LightSettings(lightPayload: seq<byte>)
    | SceneElement(kind: ElementKind, name: string, properties: string, object2world: seq<F32>, dataLink: string)
    | MeshData(numVertices: nat, numTriangles: nat, normals: bool, vertexColors: bool)
    | Raw(bytes: seq<byte>)

  /** The element that ends a scene: every field at its default. */
  const END_OF_SCENE: Write := SceneElement(NONE, "", "", [], "")

  /** A numpy array of triples filled entry by entry: `3*idx + c` holds component `c` of item `idx`. */
  function Flat3<T>(xs: seq<(T, T, T)>): seq<T>
  {
    if xs == [] then [] else Flat3(xs[..|xs| - 1]) + [xs[|xs| - 1].0, xs[|xs| - 1].1, xs[|xs| - 1].2]
  }

  lemma {:induction false} Flat3At<T>(xs: seq<(T, T, T)>)
    ensures |Flat3(xs)| == 3 * |xs|
    ensures forall i :: 0 <= i < |xs| ==>
              Flat3(xs)[3 * i] == xs[i].0 && Flat3(xs)[3 * i + 1] == xs[i].1 && Flat3(xs)[3 * i + 2] == xs[i].2
  {
    if xs != [] {
      var init := xs[..|xs| - 1];
      Flat3At(init);
      assert Flat3(xs) == Flat3(init) + [xs[|xs| - 1].0, xs[|xs| - 1].1, xs[|xs| - 1].2];
    }
  }

  /** The loop `for idx, v in enumerate(...)` that fills a numpy array three entries per item. */
  method FillTriples<T(0)>(xs: seq<(T, T, T)>) returns (values: seq<T>)
    ensures values == Flat3(xs)
  {
    var a := new T[3 * |xs|];
    for idx := 0 to |xs|
      invariant a[..3 * idx] == Flat3(xs[..idx])
    {
      ghost var done := a[..3 * idx];
      a[3 * idx] := xs[idx].0;
      a[3 * idx + 1] := xs[idx].1;
      a[3 * idx + 2] := xs[idx].2;
      assert a[..3 * idx] == done;
      assert xs[..idx + 1][..idx] == xs[..idx];
      assert a[..3 * (idx + 1)] == done + [xs[idx].0, xs[idx].1, xs[idx].2];
    }
    assert xs[..|xs|] == xs;
    values := a[..];
  }

  function Coords(m: Mesh): seq<Vec3>
  {
    seq(|m.vertices|, i requires 0 <= i < |m.vertices| => m.vertices[i].co)
  }

  function Normals(m: Mesh): seq<Vec3>
  {
    seq(|m.vertices|, i requires 0 <= i < |m.vertices| => m.vertices[i].normal)
  }

  function Corners(ts: seq<Triangle>): seq<(u32, u32, u32)>
  {
    seq(|ts|, i requires 0 <= i < |ts| => ts[i].corners)
  }

  predicate UsesSmooth(ts: seq<Triangle>)
  {
    exists i :: 0 <= i < |ts| && ts[i].smooth
  }

  /** The scan for a smooth-shaded triangle, which stops at the first one. */
  method FindSmooth(ts: seq<Triangle>) returns (useSmooth: bool)
    ensures useSmooth <==> UsesSmooth(ts)
  {
    useSmooth := false;
    for i := 0 to |ts|
      invariant forall k :: 0 <= k < i ==> !ts[k].smooth
    {
      if ts[i].smooth {
        useSmooth := true;
        break;
      }
    }
  }

  /** Entry `c` of a painted vertex: the colour's components, then alpha 1.0. */
  function ColorEntry(col: Vec3, c: nat): F32
    requires c < 4
  {
    if c == 0 then col.0 else if c == 1 then col.1 else if c == 2 then col.2 else ONE
  }

  /** One loop's write into the colour array: its vertex's four entries. */
  function Paint(a: seq<F32>, l: Loop): (r: seq<F32>)
    requires 4 * l.vertex + 4 <= |a|
    ensures |r| == |a|
  {
    var b := 4 * l.vertex;
    a[b := l.color.0][b + 1 := l.color.1][b + 2 := l.color.2][b + 3 := ONE]
  }

  predicate LoopsFit(loops: seq<Loop>, n: nat)
  {
    forall l :: l in loops ==> 4 * l.vertex + 4 <= n
  }

  /** The colour array after the loops' writes, in order. */
  function Painted(a: seq<F32>, loops: seq<Loop>): (r: seq<F32>)
    requires LoopsFit(loops, |a|)
    ensures |r| == |a|
  {
    if loops == [] then a else Paint(Painted(a, loops[..|loops| - 1]), loops[|loops| - 1])
  }

  /** The colour of the last loop at vertex `v`, if any. */
  function LastColor(loops: seq<Loop>, v: nat): Option<Vec3>
  {
    if loops == [] then None
    else if loops[|loops| - 1].vertex == v then Some(loops[|loops| - 1].color)
    else LastColor(loops[..|loops| - 1], v)
  }

  /**
   * What the colour array holds: a vertex that some loop touches gets the
   * last such loop's colour and alpha 1.0; any other vertex keeps what the
   * array held before.
   */
  lemma {:induction false} PaintedAt(a: seq<F32>, loops: seq<Loop>, v: nat, c: nat)
    requires LoopsFit(loops, |a|) && 4 * v + 4 <= |a| && c < 4
    ensures Painted(a, loops)[4 * v + c] ==
              match LastColor(loops, v) case None => a[4 * v + c] case Some(col) => ColorEntry(col, c)
  {
    if loops != [] {
      var init, l := loops[..|loops| - 1], loops[|loops| - 1];
      assert LoopsFit(init, |a|) by {
        forall x | x in init ensures 4 * x.vertex + 4 <= |a| {
          assert x in loops;
        }
      }
      PaintedAt(a, init, v, c);
      if l.vertex != v {
        assert 4 * l.vertex + 4 <= 4 * v || 4 * v + 4 <= 4 * l.vertex;
      }
    }
  }

  /**
   * The colour loop over the polygons' loops: `numpy.empty` leaves the array
   * unset (every entry `unset`), and each loop writes its vertex's entries.
   */
  method FillColors(nv: nat, loops: seq<Loop>, unset: F32) returns (values: seq<F32>)
    requires forall l :: l in loops ==> l.vertex < nv
    ensures values == Painted(seq(4 * nv, _ => unset), loops)
  {
    ghost var blank := seq(4 * nv, _ => unset);
    var a := new F32[4 * nv](_ => unset);
    for i := 0 to |loops|
      invariant LoopsFit(loops[..i], 4 * nv)
      invariant a[..] == Painted(blank, loops[..i])
    {
      var l := loops[i];
      assert l in loops;
      var b := 4 * l.vertex;
      ghost var before := a[..];
      a[b] := l.color.0;
      a[b + 1] := l.color.1;
      a[b + 2] := l.color.2;
      a[b + 3] := ONE;
      assert loops[..i + 1][..i] == loops[..i];
      assert a[..] == Paint(before, l);
    }
    assert loops[..|loops|] == loops;
    values := a[..];
  }

  /** The byte count of each raw array, -1 for anything else. */
  function Sizes(ws: seq<Write>): seq<int>
  {
    seq(|ws|, i requires 0 <= i < |ws| => if ws[i].Raw? then |ws[i].bytes| else -1)
  }

  lemma SizesAppend(a: seq<Write>, b: seq<Write>)
    ensures Sizes(a + b) == Sizes(a) + Sizes(b)
  {
  }

  /** The vertex positions, 3 floats per vertex. */
  function VertexArray(m: Mesh): (r: Write)
    ensures Sizes([r]) == [12 * |m.vertices|]
  {
    Flat3At(Coords(m));
    Raw(FloatsLE(Flat3(Coords(m))))
  }

  /** The vertex normals, 3 floats per vertex, sent only when some triangle is smooth. */
  function NormalArrays(m: Mesh): (r: seq<Write>)
    ensures Sizes(r) == if UsesSmooth(m.triangles) then [12 * |m.vertices|] else []
  {
    Flat3At(Normals(m));
    if UsesSmooth(m.triangles) then [Raw(FloatsLE(Flat3(Normals(m))))] else []
  }

  /** The vertex colours, 4 floats per vertex, sent only when the mesh has vertex colours. */
  function ColorArrays(m: Mesh, unset: F32): (r: seq<Write>)
    requires ValidMesh(m)
    ensures Sizes(r) == if m.colorLoops.Some? then [16 * |m.vertices|] else []
  {
    match m.colorLoops
    case None => []
    case Some(loops) =>
      assert LoopsFit(loops, 4 * |m.vertices|) by {
        forall l | l in loops ensures 4 * l.vertex + 4 <= 4 * |m.vertices| {
          assert l.vertex < |m.vertices|;
        }
      }
      [Raw(FloatsLE(Painted(seq(4 * |m.vertices|, _ => unset), loops)))]
  }

  /** The triangles' vertex indices, 3 u32 per triangle. */
  function TriangleArray(m: Mesh): (r: Write)
    ensures Sizes([r]) == [12 * |m.triangles|]
  {
    Flat3At(Corners(m.triangles));
    Raw(WordsLE(Flat3(Corners(m.triangles))))
  }

  /** The raw arrays of a mesh, in the order they follow its `MeshData`. */
  function MeshArrays(m: Mesh, unset: F32): seq<Write>
    requires ValidMesh(m)
  {
    [VertexArray(m)] + NormalArrays(m) + ColorArrays(m, unset) + [TriangleArray(m)]
  }

  /** The numpy arrays `export_mesh` fills and sends, in order; `useSmooth` is the result of the smooth scan. */
  method FillArrays(m: Mesh, useSmooth: bool, unset: F32) returns (arrays: seq<Write>)
    requires ValidMesh(m) && (useSmooth <==> UsesSmooth(m.triangles))
    ensures arrays == MeshArrays(m, unset)
  {
    var vertices := FillTriples(Coords(m));
    var normalArrays := [];
    if useSmooth {
      var normals := FillTriples(Normals(m));
      normalArrays := [Raw(FloatsLE(normals))];
    }
    var colorArrays := [];
    if m.colorLoops.Some? {
      var colors := FillColors(|m.vertices|, m.colorLoops.value, unset);
      colorArrays := [Raw(FloatsLE(colors))];
    }
    var triangles := FillTriples(Corners(m.triangles));
    arrays := [Raw(FloatsLE(vertices))] + normalArrays + colorArrays + [Raw(WordsLE(triangles))];
  }

  /** What `export_mesh` writes: the `MESH_DATA` element, the `MeshData` header, then the raw arrays. */
  function MeshWrites(m: Mesh, unset: F32): seq<Write>
    requires ValidMesh(m)
  {
    [SceneElement(MESH_DATA, m.name, m.properties, [], ""),
     MeshData(|m.vertices|, |m.triangles|, UsesSmooth(m.triangles), m.colorLoops.Some?)]
    + MeshArrays(m, unset)
  }

  /**
   * The layout of an exported mesh: `NORMALS` is set iff some triangle is
   * smooth and `VERTEX_COLORS` iff the mesh has vertex colours; the raw
   * arrays are 3 floats per vertex, 3 normal floats per vertex iff
   * `NORMALS`, 4 colour floats per vertex iff `VERTEX_COLORS`, then 3 u32
   * per triangle (4 bytes each).
   */
  lemma MeshLayout(m: Mesh, unset: F32)
    requires ValidMesh(m)
    ensures var w := MeshWrites(m, unset);
            var nv, nt := |m.vertices|, |m.triangles|;
            |w| >= 2 &&
            w[0] == SceneElement(MESH_DATA, m.name, m.properties, [], "") &&
            w[1] == MeshData(nv, nt, exists i :: 0 <= i < nt && m.triangles[i].smooth, m.colorLoops.Some?) &&
            Sizes(w[2..]) == [12 * nv] + (if UsesSmooth(m.triangles) then [12 * nv] else [])
                             + (if m.colorLoops.Some? then [16 * nv] else []) + [12 * nt]
  {
    var v, n, c, t := [VertexArray(m)], NormalArrays(m), ColorArrays(m, unset), [TriangleArray(m)];
    SizesAppend(v, n);
    SizesAppend(v + n, c);
    SizesAppend(v + n + c, t);
    assert MeshWrites(m, unset)[2..] == MeshArrays(m, unset);
  }

  /** An object instance of the depsgraph: only mesh objects are exported. */
  datatype Instance =
    | OtherObject
    | MeshObject(objectName: string, mesh: Mesh, isInstance: bool,
                 instanceMatrix: seq<seq<F32>>, objectMatrix: seq<seq<F32>>)

  /** The scene as `export_scene` uses it; the settings other than the image size are opaque. */
  datatype Scene = Scene(width: nat, height: nat, percentage: nat,
                         render: seq<byte>, camera: seq<byte>, lights: seq<byte>,
                         instances: seq<Instance>)

  predicate ValidInstances(xs: seq<Instance>)
  {
    forall i :: 0 <= i < |xs| ==> xs[i].MeshObject? ==> ValidMesh(xs[i].mesh)
  }

  /**
   * What one depsgraph instance adds: for a mesh object, its mesh's data
   * when the mesh was not exported yet, then the `MESH_OBJECT` element that
   * links to the mesh by name; with the set of exported meshes after it.
   */
  function InstanceWrites(exported: set<string>, x: Instance, unset: F32): (seq<Write>, set<string>)
    requires x.MeshObject? ==> ValidMesh(x.mesh)
  {
    match x
    case OtherObject => ([], exported)
    case MeshObject(objectName, mesh, isInstance, instanceMatrix, objectMatrix) =>
      var data := if mesh.name in exported then [] else MeshWrites(mesh, unset);
      var matrix := if isInstance then instanceMatrix else objectMatrix;
      (data + [SceneElement(MESH_OBJECT, objectName, mesh.properties, Matrix2List(matrix), mesh.name)],
       exported + {mesh.name})
  }

  /** The instances' writes in order, threading the set of exported meshes. */
  function InstancesWrites(exported: set<string>, xs: seq<Instance>, unset: F32): (seq<Write>, set<string>)
    requires ValidInstances(xs)
  {
    if xs == [] then ([], exported)
    else
      var prefix := InstancesWrites(exported, xs[..|xs| - 1], unset);
      var last := InstanceWrites(prefix.1, xs[|xs| - 1], unset);
      (prefix.0 + last.0, last.1)
  }

  /** One more instance: the writes so far, then the instance's own. */
  lemma InstancesSnoc(exported: set<string>, xs: seq<Instance>, i: nat, unset: F32)
    requires ValidInstances(xs) && i < |xs|
    ensures ValidInstances(xs[..i]) && ValidInstances(xs[..i + 1])
    ensures var prefix := InstancesWrites(exported, xs[..i], unset);
            var last := InstanceWrites(prefix.1, xs[i], unset);
            InstancesWrites(exported, xs[..i + 1], unset) == (prefix.0 + last.0, last.1)
  {
    assert xs[..i + 1][..i] == xs[..i];
  }

  /** The state of `export_scene`'s loop after the first `i` instances. */
  predicate ExportedSoFar(start: seq<Write>, exported: set<string>, xs: seq<Instance>, i: nat, unset: F32,
                          sent: seq<Write>, known: set<string>)
  {
    ValidInstances(xs) && i <= |xs| &&
    var prefix := InstancesWrites(exported, xs[..i], unset);
    sent == start + prefix.0 && known == prefix.1
  }

  lemma ExportedSoFarStart(start: seq<Write>, exported: set<string>, xs: seq<Instance>, unset: F32)
    requires ValidInstances(xs)
    ensures ExportedSoFar(start, exported, xs, 0, unset, start, exported)
  {
    assert xs[..0] == [];
  }

  lemma ExportedSoFarStep(start: seq<Write>, exported: set<string>, xs: seq<Instance>, i: nat, unset: F32,
                          sent: seq<Write>, known: set<string>, sent': seq<Write>, known': set<string>)
    requires ExportedSoFar(start, exported, xs, i, unset, sent, known) && i < |xs|
    requires sent' == sent + InstanceWrites(known, xs[i], unset).0 && known' == InstanceWrites(known, xs[i], unset).1
    ensures ExportedSoFar(start, exported, xs, i + 1, unset, sent', known')
  {
    InstancesSnoc(exported, xs, i, unset);
    var prefix := InstancesWrites(exported, xs[..i], unset);
    var last := InstanceWrites(prefix.1, xs[i], unset);
    Seqs.Snoc(start, prefix.0, last.0, sent, sent');
  }

  lemma ExportedSoFarEnd(start: seq<Write>, exported: set<string>, xs: seq<Instance>, unset: F32,
                         sent: seq<Write>, known: set<string>)
    requires ExportedSoFar(start, exported, xs, |xs|, unset, sent, known)
    ensures sent == start + InstancesWrites(exported, xs, unset).0 && known == InstancesWrites(exported, xs, unset).1
  {
    assert xs[..|xs|] == xs;
  }

  /** The settings `export_scene` sends after `UPDATE_SCENE`, in order. */
  function SettingsWrites(s: Scene): seq<Write>
  {
    [ImageSettings(s.width, s.height, s.percentage), RenderSettings(s.render),
     CameraSettings(s.camera), LightSettings(s.lights)]
  }

  /** Everything `export_scene` writes, given the meshes exported before it. */
  function SceneWrites(exported: set<string>, s: Scene, unset: F32): seq<Write>
    requires ValidInstances(s.instances)
  {
    [ClientMessage(UPDATE_SCENE, true)] + SettingsWrites(s) + InstancesWrites(exported, s.instances, unset).0
    + [END_OF_SCENE]
  }

  /** The meshes known after `w` to a reader that started out knowing `known`. */
  function Known(known: set<string>, w: seq<Write>): set<string>
    decreases |w|
  {
    if w == [] then known
    else if w[0].SceneElement? && w[0].kind == MESH_DATA then Known(known + {w[0].name}, w[1..])
    else Known(known, w[1..])
  }

  /**
   * Reading `w` with the meshes `known`: each `MESH_DATA` element brings a
   * mesh not seen before, and each `MESH_OBJECT` element links to a mesh
   * already seen.
   */
  predicate WellLinked(known: set<string>, w: seq<Write>)
    decreases |w|
  {
    w == [] ||
    (if w[0].SceneElement? && w[0].kind == MESH_DATA then w[0].name !in known && WellLinked(known + {w[0].name}, w[1..])
     else if w[0].SceneElement? && w[0].kind == MESH_OBJECT then w[0].dataLink in known && WellLinked(known, w[1..])
     else WellLinked(known, w[1..]))
  }

  lemma {:induction false} WellLinkedAppend(known: set<string>, a: seq<Write>, b: seq<Write>)
    ensures WellLinked(known, a + b) <==> WellLinked(known, a) && WellLinked(Known(known, a), b)
    ensures Known(known, a + b) == Known(Known(known, a), b)
    decreases |a|
  {
    if a != [] {
      assert (a + b)[0] == a[0] && (a + b)[1..] == a[1..] + b;
      if a[0].SceneElement? && a[0].kind == MESH_DATA {
        WellLinkedAppend(known + {a[0].name}, a[1..], b);
      } else {
        WellLinkedAppend(known, a[1..], b);
      }
    } else {
      assert a + b == b;
    }
  }

  /** Writes that hold no scene element change nothing for such a reader. */
  lemma {:induction false} NoElements(known: set<string>, w: seq<Write>)
    requires forall i :: 0 <= i < |w| ==> !w[i].SceneElement?
    ensures WellLinked(known, w) && Known(known, w) == known
  {
    if w != [] {
      NoElements(known, w[1..]);
    }
  }

  /** A new mesh's writes bring exactly that mesh. */
  lemma MeshWritesLinked(known: set<string>, m: Mesh, unset: F32)
    requires ValidMesh(m) && m.name !in known
    ensures WellLinked(known, MeshWrites(m, unset))
    ensures Known(known, MeshWrites(m, unset)) == known + {m.name}
  {
    var w := MeshWrites(m, unset);
    var tail := [w[1]] + MeshArrays(m, unset);
    assert w[1..] == tail;
    NoElements(known + {m.name}, tail);
  }

  /**
   * Within one export, each mesh's data goes out once, before any object
   * that links to it, and the set of exported meshes is exactly what a
   * reader of the writes knows.
   */
  lemma {:induction false} InstancesLinked(exported: set<string>, xs: seq<Instance>, unset: F32)
    requires ValidInstances(xs)
    ensures WellLinked(exported, InstancesWrites(exported, xs, unset).0)
    ensures Known(exported, InstancesWrites(exported, xs, unset).0) == InstancesWrites(exported, xs, unset).1
  {
    if xs != [] {
      var init, x := xs[..|xs| - 1], xs[|xs| - 1];
      InstancesLinked(exported, init, unset);
      var prefix := InstancesWrites(exported, init, unset);
      var last := InstanceWrites(prefix.1, x, unset);
      WellLinkedAppend(exported, prefix.0, last.0);
      if x.MeshObject? {
        var obj := [SceneElement(MESH_OBJECT, x.objectName, x.mesh.properties,
                                 Matrix2List(if x.isInstance then x.instanceMatrix else x.objectMatrix), x.mesh.name)];
        if x.mesh.name in prefix.1 {
          assert last.0 == obj;
          assert obj[1..] == [];
        } else {
          var data := MeshWrites(x.mesh, unset);
          assert last.0 == data + obj;
          MeshWritesLinked(prefix.1, x.mesh, unset);
          WellLinkedAppend(prefix.1, data, obj);
          assert obj[1..] == [];
        }
      }
    }
  }

  /** The element type the server's scene loop stops at. */
  predicate IsEnd(w: Write)
  {
    w.SceneElement? && w.kind == NONE
  }

  lemma {:induction false} MeshWritesNoEnd(m: Mesh, unset: F32)
    requires ValidMesh(m)
    ensures forall i :: 0 <= i < |MeshWrites(m, unset)| ==> !IsEnd(MeshWrites(m, unset)[i])
  {
    var w := MeshWrites(m, unset);
    forall i | 0 <= i < |w| ensures !IsEnd(w[i]) {
      if i >= 2 {
        assert w[i] == MeshArrays(m, unset)[i - 2];
      }
    }
  }

  lemma {:induction false} InstancesNoEnd(exported: set<string>, xs: seq<Instance>, unset: F32)
    requires ValidInstances(xs)
    ensures forall i :: 0 <= i < |InstancesWrites(exported, xs, unset).0| ==> !IsEnd(InstancesWrites(exported, xs, unset).0[i])
  {
    if xs != [] {
      var init, x := xs[..|xs| - 1], xs[|xs| - 1];
      InstancesNoEnd(exported, init, unset);
      var prefix := InstancesWrites(exported, init, unset);
      if x.MeshObject? && x.mesh.name !in prefix.1 {
        MeshWritesNoEnd(x.mesh, unset);
      }
    }
  }

  /**
   * The shape of an exported scene: `UPDATE_SCENE` asking to clear the
   * scene, the image, render, camera and light settings, and the one `NONE`
   * element as the very last write.
   */
  lemma SceneShape(exported: set<string>, s: Scene, unset: F32)
    requires ValidInstances(s.instances)
    ensures var w := SceneWrites(exported, s, unset);
            |w| >= 6 &&
            w[0] == ClientMessage(UPDATE_SCENE, true) &&
            w[1] == ImageSettings(s.width, s.height, s.percentage) &&
            w[2].RenderSettings? && w[3].CameraSettings? && w[4].LightSettings? &&
            w[|w| - 1] == END_OF_SCENE &&
            forall i :: 0 <= i < |w| - 1 ==> !IsEnd(w[i])
  {
    var body := InstancesWrites(exported, s.instances, unset).0;
    InstancesNoEnd(exported, s.instances, unset);
    var w := SceneWrites(exported, s, unset);
    forall i | 0 <= i < |w| - 1 ensures !IsEnd(w[i]) {
      if i >= 5 {
        assert w[i] == body[i - 5];
      }
    }
  }

  /** A scene exported right after the set of exported meshes was emptied is well linked from the start. */
  lemma SceneLinked(s: Scene, unset: F32)
    requires ValidInstances(s.instances)
    ensures WellLinked({}, SceneWrites({}, s, unset))
  {
    var head := [ClientMessage(UPDATE_SCENE, true)] + SettingsWrites(s);
    var body := InstancesWrites({}, s.instances, unset).0;
    InstancesLinked({}, s.instances, unset);
    NoElements({}, head);
    WellLinkedAppend({}, head, body);
    WellLinkedAppend({}, head + body, [END_OF_SCENE]);
    assert SceneWrites({}, s, unset) == head + body + [END_OF_SCENE];
  }

  /** What a render result says, as the poll loop reads it. */
  datatype ResultType = FRAME | CANCELED | DONE

  /** One turn of the poll loop: the result read if the socket was readable, and what `test_break` said. */
  datatype Poll = Poll(received: Option<ResultType>, breakRequested: bool)

  datatype Ending = Done | Canceled | Polling

  predicate Final(p: Poll)
  {
    p.received == Some(CANCELED) || p.received == Some(DONE)
  }

  /** How many `FRAME` results the polls read. */
  function Frames(polls: seq<Poll>): nat
  {
    if polls == [] then 0
    else Frames(polls[..|polls| - 1]) + (if polls[|polls| - 1].received == Some(FRAME) then 1 else 0)
  }

  /**
   * The poll loop of `render` over the turns `polls`: it ends at the first
   * `DONE` or `CANCELED` (or, here, when the turns run out, where the source
   * would go on polling). After the k-th `FRAME` it reports progress
   * k/render_samples (`progress` lists the k). It sends `CANCEL_RENDERING`
   * (`cancel`) at most once, iff `test_break` was true in some turn that got
   * as far as asking it; a `CANCELED` result leaves the loop before that.
   */
  method RenderLoop(polls: seq<Poll>) returns (ending: Ending, used: nat, cancel: bool, progress: seq<nat>)
    ensures used <= |polls|
    ensures ending == Polling ==> used == |polls| && forall i :: 0 <= i < used ==> !Final(polls[i])
    ensures ending != Polling ==>
              0 < used && Final(polls[used - 1]) &&
              (forall i :: 0 <= i < used - 1 ==> !Final(polls[i])) &&
              (ending == Done <==> polls[used - 1].received == Some(DONE))
    ensures var asked := if ending == Polling then used else used - 1;
            cancel <==> exists i :: 0 <= i < asked && polls[i].breakRequested
    ensures progress == seq(Frames(polls[..used]), k => k + 1)
  {
    var sample: nat := 1;
    var cancelSent := false;
    cancel, progress, used, ending := false, [], 0, Polling;
    while used < |polls|
      invariant used <= |polls| && ending == Polling
      invariant forall i :: 0 <= i < used ==> !Final(polls[i])
      invariant cancelSent == cancel
      invariant cancel <==> exists i :: 0 <= i < used && polls[i].breakRequested
      invariant progress == seq(Frames(polls[..used]), k => k + 1) && sample == |progress| + 1
    {
      var p := polls[used];
      assert polls[..used + 1][..used] == polls[..used];
      used := used + 1;
      if p.received == Some(FRAME) {
        progress := progress + [sample];
        sample := sample + 1;
      } else if p.received == Some(CANCELED) {
        cancelSent := true;
        ending := Canceled;
        break;
      } else if p.received == Some(DONE) {
        ending := Done;
        break;
      }
      if p.breakRequested && !cancelSent {
        cancel, cancelSent := true, true;
      }
    }
  }

  /** The client's state across calls: what it has written and the meshes exported in this update. */
  class Client {
    var exportedMeshes: set<string>
    var sent: seq<Write>

    constructor ()
      ensures exportedMeshes == {} && sent == []
    {
      exportedMeshes, sent := {}, [];
    }

    /** `export_mesh`: writes the mesh's data and remembers its name. */
    method ExportMesh(m: Mesh, unset: F32)
      requires ValidMesh(m)
      modifies this
      ensures sent == old(sent) + MeshWrites(m, unset)
      ensures exportedMeshes == old(exportedMeshes) + {m.name}
    {
      var useSmooth := FindSmooth(m.triangles);
      var arrays := FillArrays(m, useSmooth, unset);
      sent := sent + ([SceneElement(MESH_DATA, m.name, m.properties, [], ""),
                       MeshData(|m.vertices|, |m.triangles|, useSmooth, m.colorLoops.Some?)] + arrays);
      exportedMeshes := exportedMeshes + {m.name};
    }

    /** One turn of `export_scene`'s loop over the depsgraph's object instances. */
    method ExportInstance(x: Instance, unset: F32)
      requires x.MeshObject? ==> ValidMesh(x.mesh)
      modifies this
      ensures sent == old(sent) + InstanceWrites(old(exportedMeshes), x, unset).0
      ensures exportedMeshes == InstanceWrites(old(exportedMeshes), x, unset).1
    {
      if x.MeshObject? {
        if x.mesh.name !in exportedMeshes {
          ExportMesh(x.mesh, unset);
        }
        var matrix := if x.isInstance then x.instanceMatrix else x.objectMatrix;
        sent := sent + [SceneElement(MESH_OBJECT, x.objectName, x.mesh.properties, Matrix2List(matrix), x.mesh.name)];
        exportedMeshes := exportedMeshes + {x.mesh.name};
      }
    }

    /** The loop of `export_scene` over the depsgraph's object instances. */
    method ExportInstances(xs: seq<Instance>, unset: F32)
      requires ValidInstances(xs)
      modifies this
      ensures sent == old(sent) + InstancesWrites(old(exportedMeshes), xs, unset).0
      ensures exportedMeshes == InstancesWrites(old(exportedMeshes), xs, unset).1
    {
      ghost var start := sent;
      ghost var exported := exportedMeshes;
      ExportedSoFarStart(start, exported, xs, unset);
      for i := 0 to |xs|
        invariant ExportedSoFar(start, exported, xs, i, unset, sent, exportedMeshes)
      {
        ghost var before, known := sent, exportedMeshes;
        ExportInstance(xs[i], unset);
        ExportedSoFarStep(start, exported, xs, i, unset, before, known, sent, exportedMeshes);
      }
      ExportedSoFarEnd(start, exported, xs, unset, sent, exportedMeshes);
    }

    /** `export_scene`: `UPDATE_SCENE`, the settings, each mesh object (with its mesh's data once), then `NONE`. */
    method ExportScene(s: Scene, unset: F32)
      requires ValidInstances(s.instances)
      modifies this
      ensures sent == old(sent) + SceneWrites(old(exportedMeshes), s, unset)
      ensures exportedMeshes == InstancesWrites(old(exportedMeshes), s.instances, unset).1
    {
      ghost var start := sent;
      ghost var exported := exportedMeshes;
      var head := [ClientMessage(UPDATE_SCENE, true)] + SettingsWrites(s);
      sent := sent + head;
      ghost var afterHead := sent;
      ExportInstances(s.instances, unset);
      ghost var body := InstancesWrites(exported, s.instances, unset).0;
      Seqs.Snoc(start, head, body, afterHead, sent);
      ghost var closed := sent + [END_OF_SCENE];
      Seqs.Snoc(start, head + body, [END_OF_SCENE], sent, closed);
      sent := sent + [END_OF_SCENE];
    }

    /** `update`: a new export starts with no meshes exported. */
    method Update(s: Scene, unset: F32)
      requires ValidInstances(s.instances)
      modifies this
      ensures sent == old(sent) + SceneWrites({}, s, unset)
      ensures WellLinked({}, SceneWrites({}, s, unset))
    {
      exportedMeshes := {};
      ExportScene(s, unset);
      SceneLinked(s, unset);
    }

    /**
     * `render`: `START_RENDERING`, the poll loop (with its one possible
     * `CANCEL_RENDERING`), and `QUIT` once the loop has ended.
     */
    method Render(polls: seq<Poll>) returns (ending: Ending, cancel: bool, progress: seq<nat>)
      modifies this
      ensures sent == old(sent) + [ClientMessage(START_RENDERING, false)]
                      + (if cancel then [ClientMessage(CANCEL_RENDERING, false)] else [])
                      + (if ending != Polling then [ClientMessage(QUIT, false)] else [])
      ensures exportedMeshes == old(exportedMeshes)
    {
      sent := sent + [ClientMessage(START_RENDERING, false)];
      var used;
      ending, used, cancel, progress := RenderLoop(polls);
      if cancel {
        sent := sent + [ClientMessage(CANCEL_RENDERING, false)];
      }
      if ending != Polling {
        sent := sent + [ClientMessage(QUIT, false)];
      }
    }
  }

  /**
   * `_read_framebuffer_to_file`: chunks of at most what is left until `size`
   * bytes are in the file. There is no check for an empty chunk.
   */
  method ReadFramebufferToFile(sock: Socket, size: nat) returns (o: PyCommon.Outcome)
    modifies sock
    ensures o.Got? ==> size <= |old(sock.inbox.data)| && o.bytes == old(sock.inbox.data)[..size] &&
                       sock.inbox.data == old(sock.inbox.data)[size..]
    ensures o.Stalled? ==> sock.inbox.closed
    ensures (!old(sock.inbox.closed) && AllPositive(old(sock.inbox.limits)) && size <= |old(sock.inbox.data)|)
              ==> o.Got?
    ensures sock.outbox == old(sock.outbox)
  {
    o := PyCommon.ReceiveChunks(sock, PyCommon.Remaining, size);
    if o.Got? {
      PyCommon.ReadLoopExact(old(sock.inbox), PyCommon.Remaining, size, size);
    }
    if !old(sock.inbox.closed) && AllPositive(old(sock.inbox.limits)) && size <= |old(sock.inbox.data)| {
      PyCommon.ReadLoopCompletes(old(sock.inbox), PyCommon.Remaining, size, size);
    }
  }
}
