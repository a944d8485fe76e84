/**
 * The first-generation OSPRay render server (core/ospray_render_server.cpp):
 * it receives a whole scene after an `UPDATE_SCENE` message (settings, then
 * scene elements until one of type `NONE`), keeps the mesh models and
 * volumes it loaded by name, and renders on a thread of its own that hands
 * `FRAME`, `CANCELED` and `DONE` results to the connection loop through a
 * queue; a second queue carries `CANCEL_RENDERING` the other way.
 *
 * OSPRay objects are values here (a mesh model is its arrays, a volume its
 * handle and settings); protobuf decoding, JSON parsing, `dlopen`, the
 * volume plugins' load functions and the SHA-1 digest are parameters. The
 * replies sent with `send_protobuf` form a log. The render thread runs in
 * steps the caller interleaves with the connection loop's turns.
 */
module CoreServer {
  import opened Bytes
  import opened Wrappers
  import opened TcpSocket
  import opened Framing
  import ServerIO
  import Server
  import Json
  import Plugin2
  import Affine
  import RenderServer
  import Text

  datatype ElementType = NONE | MESH_DATA | MESH_OBJECT | VOLUME_DATA | VOLUME_OBJECT

  /** A `SceneElement` message. */
  datatype SceneElement = SceneElement(kind: ElementType, name: string, dataLink: string,
                                       properties: string, object2world: Plugin2.Matrix)

  /** The part of `ImageSettings` the server uses. */
  datatype ImageSettings = ImageSettings(width: u32, height: u32)

  /** The `ClientMessage` types the loop dispatches on; any other is ignored. */
  datatype ClientKind = UPDATE_SCENE | START_RENDERING | CANCEL_RENDERING | QUIT | OTHER_MESSAGE

  /** A `RenderResult` message. */
  datatype RenderResult = FRAME(sample: int, fileName: string, fileSize: nat) | CANCELED | DONE

  /** A volume plugin's `load` function, once found. */
  datatype Loader = Loader(id: nat)

  /** What `dlopen` and `dlsym(plugin, "load")` give for a plugin file. */
  datatype PluginOpen = OpenFailed | NoLoadSymbol | Opened(loader: Loader)

  /** A `VolumeLoadResult` message. */
  datatype VolumeLoadResult = VolumeLoadResult(success: bool, message: string, hash: string, bbox: seq<F32>)

  /**
   * What a call of a load function gives: the volume (none for NULL), the
   * bounding box it wrote, and the success flag and message it left in the
   * result it was handed.
   */
  datatype LoadCall = LoadCall(volume: Option<nat>, bbox: seq<F32>, success: bool, message: string)

  /** A volume property: the value under its key, or the server's default. */
  datatype Setting<T> = FromProperty(value: Json.Value) | Default(d: T)

  /** The parameters the server sets on a loaded volume. */
  datatype VolumeSettings = VolumeSettings(
    samplingRate: Setting<F32>, gradientShading: Setting<bool>, preIntegration: Setting<bool>,
    singleShade: Setting<bool>, adaptiveSampling: bool, valueRange: Option<Json.Value>)

  datatype Volume = Volume(handle: nat, settings: VolumeSettings)

  /** What the server adds to the world; `V` is what it knows of a loaded volume. */
  datatype WorldItem<V> =
    | MeshInstance(model: Server.Geometry, xform: Affine.Affine3f)
    | Isosurfaces(volume: V, isovalues: Json.Value)
    | Slices(volume: V, plane: Json.Value)
    | VolumeItem(volume: V)

  /** Everything the server gets from outside its own code. */
  datatype Outside = Outside(
    decodeMessage: seq<byte> -> ClientKind,
    decodeImage: seq<byte> -> ImageSettings,
    decodeSamples: seq<byte> -> int,
    decodeElement: seq<byte> -> SceneElement,
    /** A `SceneElement` that was never parsed into. */
    defaultElement: SceneElement,
    decodeMesh: seq<byte> -> Server.MeshHeader,
    parse: string -> Option<Json.Value>,
    open: string -> PluginOpen,
    load: (Loader, Json.Value, Plugin2.Matrix) -> LoadCall,
    digest: string -> string)

  /** The float 0.1, the default sampling rate. */
  const SAMPLING_RATE_DEFAULT: F32 := F32(0x3DCC_CCCD)

  /** The value under `key` when the properties have it, `d` otherwise. */
  function Choose<T>(props: Json.Value, key: string, d: T): Setting<T>
  {
    match Json.Find(props, key)
    case Some(v) => FromProperty(v)
    case None => Default(d)
  }

  /** `s` is the member under `key` when the properties have one, and the default `d` otherwise. */
  predicate Picks<T(==)>(props: Json.Value, key: string, d: T, s: Setting<T>)
  {
    if Json.HasMember(props, key) then s == FromProperty(props.members[key]) else s == Default(d)
  }

  /**
   * The volume parameters: each of `_sampling_rate`, `_gradient_shading`,
   * `_pre_integration` and `_single_shade` is taken from the properties
   * when present, and otherwise defaults to 0.1, false, false and true;
   * adaptive sampling is always off; `data_range` sets the transfer
   * function's value range when present.
   */
  function VolumeDefaults(props: Json.Value): (v: VolumeSettings)
    ensures Picks(props, "_sampling_rate", SAMPLING_RATE_DEFAULT, v.samplingRate)
    ensures Picks(props, "_gradient_shading", false, v.gradientShading)
    ensures Picks(props, "_pre_integration", false, v.preIntegration)
    ensures Picks(props, "_single_shade", true, v.singleShade)
    ensures !v.adaptiveSampling
    ensures v.valueRange.Some? <==> Json.HasMember(props, "data_range")
    ensures v.valueRange.Some? ==> v.valueRange.value == props.members["data_range"]
  {
    VolumeSettings(Choose(props, "_sampling_rate", SAMPLING_RATE_DEFAULT),
                   Choose(props, "_gradient_shading", false),
                   Choose(props, "_pre_integration", false),
                   Choose(props, "_single_shade", true),
                   false, Json.Find(props, "data_range"))
  }

  /** A volume without any of the four properties gets exactly the defaults. */
  lemma {:induction false} NoPropertiesDefaults(props: Json.Value)
    requires forall key :: key in ["_sampling_rate", "_gradient_shading", "_pre_integration", "_single_shade"] ==>
               !Json.HasMember(props, key)
    ensures VolumeDefaults(props).samplingRate == Default(SAMPLING_RATE_DEFAULT)
    ensures VolumeDefaults(props).gradientShading == Default(false)
    ensures VolumeDefaults(props).preIntegration == Default(false)
    ensures VolumeDefaults(props).singleShade == Default(true)
  {
    assert !Json.HasMember(props, "_sampling_rate");
    assert !Json.HasMember(props, "_gradient_shading");
    assert !Json.HasMember(props, "_pre_integration");
    assert !Json.HasMember(props, "_single_shade");
  }

  /** nlohmann's `size()`: 0 for null, the entry count of an array or object, 1 otherwise. */
  function JsonSize(v: Json.Value): nat
  {
    match v
    case JNull => 0
    case JArray(items) => |items|
    case JObject(members) => |members|
    case _ => 1
  }

  /**
   * How a volume object is represented: as isosurfaces when the properties
   * hold `isovalues`, else as a slice when they hold a `slice_plane` of
   * four values (nothing at all when it has another size), else as the
   * volume itself.
   */
  function VolumeRepresentation<V>(vol: V, props: Json.Value): (r: Option<WorldItem<V>>)
    ensures r.None? <==> !Json.HasMember(props, "isovalues") && Json.HasMember(props, "slice_plane") &&
                         JsonSize(props.members["slice_plane"]) != 4
    ensures r.Some? ==> !r.value.MeshInstance? && r.value.volume == vol
    ensures r.Some? && r.value.Isosurfaces? <==> Json.HasMember(props, "isovalues")
    ensures r.Some? && r.value.Isosurfaces? ==> r.value.isovalues == props.members["isovalues"]
    ensures r.Some? && r.value.Slices? ==> Json.HasMember(props, "slice_plane") && r.value.plane == props.members["slice_plane"]
    ensures r.Some? && r.value.VolumeItem? <==>
              !Json.HasMember(props, "isovalues") && !Json.HasMember(props, "slice_plane")
  {
    match Json.Find(props, "isovalues")
    case Some(isovalues) => Some(Isosurfaces(vol, isovalues))
    case None =>
      match Json.Find(props, "slice_plane")
      case Some(plane) => if JsonSize(plane) == 4 then Some(Slices(vol, plane)) else None
      case None => Some(VolumeItem(vol))
  }

  /** `data_range`, when present, has a first and a second entry that convert to floats. */
  predicate RangeConverts(props: Json.Value)
  {
    Json.HasMember(props, "data_range") ==>
      Json.FloatAt(props.members["data_range"], 0) && Json.FloatAt(props.members["data_range"], 1)
  }

  /**
   * The conversions `receive_and_add_volume_data` makes once the load
   * function gave a volume all succeed: `_sampling_rate` to a float and the
   * three shading flags to booleans, each when present, and the value range.
   */
  predicate VolumeConverts(props: Json.Value)
  {
    (Json.HasMember(props, "_sampling_rate") ==> Json.ToFloat(props.members["_sampling_rate"])) &&
    (Json.HasMember(props, "_gradient_shading") ==> props.members["_gradient_shading"].JBool?) &&
    (Json.HasMember(props, "_pre_integration") ==> props.members["_pre_integration"].JBool?) &&
    (Json.HasMember(props, "_single_shade") ==> props.members["_single_shade"].JBool?) &&
    RangeConverts(props)
  }

  /**
   * The conversions of a volume's representation all succeed: each entry of
   * `isovalues` below its `size()` converts to a float; without isovalues,
   * a `slice_plane` of size four has four entries that do.
   */
  predicate RepresentationConverts(props: Json.Value)
  {
    if Json.HasMember(props, "isovalues") then
      var iso := props.members["isovalues"];
      forall i: nat :: i < JsonSize(iso) ==> Json.FloatAt(iso, i)
    else
      Json.HasMember(props, "slice_plane") && JsonSize(props.members["slice_plane"]) == 4 ==>
        forall i: nat :: i < 4 ==> Json.FloatAt(props.members["slice_plane"], i)
  }

  /**
   * Isovalues convert exactly when they are null, an empty object, or an
   * array of numbers and booleans: a scalar or an object with members
   * throws at its first index.
   */
  lemma {:induction false} IsovaluesConvert(iso: Json.Value)
    ensures (forall i: nat :: i < JsonSize(iso) ==> Json.FloatAt(iso, i)) <==>
            iso.JNull? || iso == Json.JObject(map[]) ||
            (iso.JArray? && forall i :: 0 <= i < |iso.items| ==> Json.ToFloat(iso.items[i]))
  {
    if iso.JObject? && iso.members != map[] {
      var k :| k in iso.members;
      assert |iso.members| >= 1;
      assert !Json.FloatAt(iso, 0);
    } else if !iso.JNull? && !iso.JObject? && !iso.JArray? {
      assert !Json.FloatAt(iso, 0);
    } else if iso.JArray? {
      if forall i: nat :: i < JsonSize(iso) ==> Json.FloatAt(iso, i) {
        forall i | 0 <= i < |iso.items|
          ensures Json.ToFloat(iso.items[i])
        {
          assert Json.FloatAt(iso, i);
        }
      }
    }
  }

  /** The plugin file of a volume type. */
  function VolumePluginFile(volumeType: string): string
  {
    "volume_" + volumeType + ".so"
  }

  /** The framebuffer: its size, whether one exists, and how many were made. */
  datatype Framebuffer = Framebuffer(width: u32, height: u32, created: bool, generation: nat)

  /**
   * The framebuffer after image settings arrive: a new one is made exactly
   * when the width or the height differs from the current size.
   */
  function Resize(fb: Framebuffer, s: ImageSettings): (r: Framebuffer)
    ensures r.width == s.width && r.height == s.height
    ensures r.generation == fb.generation + 1 <==> fb.width != s.width || fb.height != s.height
    ensures r.generation == fb.generation || r.generation == fb.generation + 1
    ensures r.created <==> fb.created || r.generation != fb.generation
  {
    if fb.width != s.width || fb.height != s.height then
      Framebuffer(s.width, s.height, true, fb.generation + 1)
    else fb
  }

  /** Receiving the same image settings again makes no second framebuffer. */
  lemma ResizeIdempotent(fb: Framebuffer, s: ImageSettings)
    ensures Resize(Resize(fb, s), s) == Resize(fb, s)
  {
  }

  /** The file a frame of sample `i` is saved to: `/dev/shm/blosprayfb%04d.exr`. */
  function FrameFile(i: nat): string
  {
    "/dev/shm/blosprayfb" + RenderServer.Pad4(i) + ".exr"
  }

  /** Different samples are saved to different files. */
  lemma {:induction false} FrameFilesDiffer(a: nat, b: nat)
    requires FrameFile(a) == FrameFile(b)
    ensures a == b
  {
    var prefix := "/dev/shm/blosprayfb";
    var n := FrameFile(a);
    assert n == prefix + RenderServer.Pad4(a) + ".exr" == prefix + RenderServer.Pad4(b) + ".exr";
    assert |RenderServer.Pad4(a)| == |RenderServer.Pad4(b)|;
    assert RenderServer.Pad4(a) == n[|prefix|..|n| - 4] == RenderServer.Pad4(b);
    Text.ParseNatToString(a);
    Text.ParseNatToString(b);
  }

  function Max0(n: int): nat
  {
    if n < 0 then 0 else n
  }

  /** The results of a render so far: `FRAME` for samples 1, 2, ... in order, each with its file. */
  predicate FrameRun(rs: seq<RenderResult>)
  {
    forall k :: 0 <= k < |rs| ==> rs[k].FRAME? && rs[k].sample == k + 1 && rs[k].fileName == FrameFile(k + 1)
  }

  /**
   * The results of a finished render of `n` samples: its frames, then one
   * `DONE` after all `n` of them, or one `CANCELED` after some frame.
   */
  predicate Ended(run: seq<RenderResult>, n: int)
  {
    |run| >= 1 && FrameRun(run[..|run| - 1]) &&
    ((run[|run| - 1] == DONE && |run| - 1 == Max0(n)) ||
     (run[|run| - 1] == CANCELED && 1 <= |run| - 1 <= Max0(n)))
  }

  /** In a finished render only the last result is not a frame. */
  lemma {:induction false} OnlyLastEnds(run: seq<RenderResult>, n: int)
    requires Ended(run, n)
    ensures forall i :: 0 <= i < |run| ==> (run[i].FRAME? <==> i < |run| - 1)
  {
    forall i | 0 <= i < |run| - 1
      ensures run[i].FRAME?
    {
      assert run[..|run| - 1][i] == run[i];
    }
  }

  /** How a `receive_scene` ended. */
  datatype SceneOutcome =
    | Complete
    /**
     * A `SceneElement` did not arrive on a closed socket: the source handles
     * the element it holds again and again and never returns.
     */
    | Stalled
    /** nlohmann::json threw: the process ends. */
    | Thrown

  /** How a step of the connection loop ended. */
  datatype Outcome =
    | Carry
    | Return(result: bool)
    /** The source would spin on a dead socket or die of an exception from here on. */
    | Stuck

  /** One step of the interleaving: a turn of the connection loop, or a frame of the render thread. */
  datatype Tick = Poll | Work(frameSize: nat)

  /** The part of the scene the elements of `receive_scene` act on. */
  datatype Stage = Stage(meshes: map<string, Server.Geometry>, volumes: map<string, Volume>,
                         loaders: map<string, Loader>, world: seq<WorldItem<Volume>>,
                         replies: seq<VolumeLoadResult>)

  /** What a `VOLUME_OBJECT` element with properties `props` adds to the world. */
  function VolumeObjectItems(e: SceneElement, props: Json.Value, volumes: map<string, Volume>): seq<WorldItem<Volume>>
  {
    if e.dataLink in volumes then
      var rep := VolumeRepresentation(volumes[e.dataLink], props);
      if rep.Some? then [rep.value] else []
    else []
  }

  /**
   * A mesh model arrived for `e`: its `MeshData` frame and its arrays
   * were taken off `before`, leaving `after`, and the model is stored
   * under the element's name.
   */
  ghost predicate MeshStored(e: SceneElement, x: Outside, a: Stage, b: Stage, before: seq<byte>, after: seq<byte>)
  {
    e.name in b.meshes && b.meshes == a.meshes[e.name := b.meshes[e.name]] &&
    exists payload :: Server.SizedBy(b.meshes[e.name], x.decodeMesh(payload)) &&
                      ParseFrame(before) == Some(Split(payload, Server.Wire(b.meshes[e.name]) + after))
  }

  /**
   * Whether `receive_and_add_volume_data` raises, given the load functions
   * `loaders` cached once it looked for the element's: the properties do not
   * parse, `_plugin` is not a string, or the load function gave a volume
   * and one of its settings does not convert.
   */
  predicate DataRaises(e: SceneElement, x: Outside, loaders: map<string, Loader>)
  {
    x.parse(e.properties).None? ||
    var props := x.parse(e.properties).value;
    Json.StringMember(props, "_plugin").None? ||
    var t := Json.StringMember(props, "_plugin").value;
    t in loaders && x.load(loaders[t], props, e.object2world).volume.Some? && !VolumeConverts(props)
  }

  /**
   * Whether `receive_and_add_volume_object` raises with the volumes
   * `volumes` loaded: the properties do not parse, or the linked volume
   * was loaded and its representation does not convert.
   */
  predicate ObjectRaises(e: SceneElement, x: Outside, volumes: map<string, Volume>)
  {
    x.parse(e.properties).None? ||
    (e.dataLink in volumes && !RepresentationConverts(x.parse(e.properties).value))
  }

  /**
   * The load function cached for the element's `_plugin` gave a volume,
   * which is stored under the element's name with the parameters its
   * properties pick, and the success is replied with the digest and box.
   */
  predicate VolumeStored(e: SceneElement, x: Outside, a: Stage, b: Stage)
  {
    x.parse(e.properties).Some? &&
    var props := x.parse(e.properties).value;
    Json.StringMember(props, "_plugin").Some? && Json.StringMember(props, "_plugin").value in b.loaders &&
    var call := x.load(b.loaders[Json.StringMember(props, "_plugin").value], props, e.object2world);
    call.volume.Some? && VolumeConverts(props) &&
    b.volumes == a.volumes[e.name := Volume(call.volume.value, VolumeDefaults(props))] &&
    b.replies == a.replies + [VolumeLoadResult(call.success, call.message, x.digest(e.properties), call.bbox)]
  }

  /**
   * One element handled without an exception, taking the stage `a` to `b`
   * and the inbox from `before` (just after the element's own frame) to
   * `after`. Mesh data is the only kind that reads more of the inbox: its
   * model is stored, or, when a receive fails, the models stay as they
   * were. Mesh and volume objects are the only kinds that add to the
   * world: the model or volume they link to, when it was loaded. Volume
   * data stores the volume its plugin loads, or no volume at all. A volume
   * element handled this way did not raise.
   */
  ghost predicate Handles(e: SceneElement, x: Outside, a: Stage, b: Stage, before: seq<byte>, after: seq<byte>)
  {
    match e.kind
    case NONE => b == a && after == before
    case MESH_DATA =>
      b == a.(meshes := b.meshes) && |after| <= |before| &&
      (MeshStored(e, x, a, b, before, after) || b.meshes == a.meshes)
    case MESH_OBJECT =>
      after == before &&
      b == a.(world := a.world + if e.dataLink in a.meshes
                                 then [MeshInstance(a.meshes[e.dataLink], Affine.FromMatrix(e.object2world))]
                                 else [])
    case VOLUME_DATA =>
      after == before && b.meshes == a.meshes && b.world == a.world && !DataRaises(e, x, b.loaders) &&
      (VolumeStored(e, x, a, b) || b.volumes == a.volumes)
    case VOLUME_OBJECT =>
      after == before && !ObjectRaises(e, x, a.volumes) &&
      b == a.(world := a.world + VolumeObjectItems(e, x.parse(e.properties).value, a.volumes))
  }

  /**
   * One element of a scene as it went by: whether its `SceneElement` frame
   * arrived, the inbox `at` that frame, its `payload`, the inbox `from`
   * after the receive, the `element` handled, the inbox `to` after it was
   * handled, and the stage before and after it. When the receive failed the
   * element is the one held before it, or, for the first, the
   * default-constructed one.
   */
  datatype Passage = Passage(framed: bool, at: seq<byte>, payload: seq<byte>, from: seq<byte>,
                             element: SceneElement, to: seq<byte>, before: Stage, after: Stage)

  /** A passage whose frame arrived starts with it, and its element is the frame's. */
  predicate Entered(x: Outside, p: Passage)
  {
    if p.framed then |p.payload| < U32_LIMIT && p.at == Frame(p.payload) + p.from && p.element == x.decodeElement(p.payload)
    else |p.from| <= |p.at|
  }

  /**
   * The element of `p` was handled, and `q` takes over where it left off,
   * with its own element or, when its frame did not arrive, `p`'s again.
   */
  ghost predicate Link(x: Outside, p: Passage, q: Passage)
  {
    p.element.kind != NONE && Handles(p.element, x, p.before, p.after, p.from, p.to) &&
    p.to == q.at && p.after == q.before && (q.framed || q.element == p.element)
  }

  /** The first passage of a scene: at `start`, on `s0`, with the default element unless a frame arrived. */
  predicate First(x: Outside, start: seq<byte>, s0: Stage, p: Passage)
  {
    p.at == start && p.before == s0 && (p.framed || p.element == x.defaultElement)
  }

  /**
   * The passages of a scene, in order: the first starts at `start` on the
   * stage `s0`, each was entered, and each but the last was handled and
   * handed the inbox and the stage to the next.
   */
  ghost predicate Chain(x: Outside, start: seq<byte>, s0: Stage, ps: seq<Passage>)
  {
    (|ps| >= 1 ==> First(x, start, s0, ps[0])) &&
    (forall k :: 0 <= k < |ps| ==> Entered(x, ps[k])) &&
    (forall k :: 0 <= k < |ps| - 1 ==> Link(x, ps[k], ps[k + 1]))
  }

  /** The frames of the elements of `ps`, one after the other. */
  function ElementFrames(ps: seq<Passage>): seq<byte>
    requires forall k :: 0 <= k < |ps| ==> |ps[k].payload| < U32_LIMIT
  {
    if |ps| == 0 then [] else Frame(ps[0].payload) + ElementFrames(ps[1..])
  }

  /**
   * Apart from mesh data, which brings arrays of its own, an element reads
   * nothing beyond its frame: the inbox a scene consumed, when every frame
   * arrived and none was mesh data, is exactly the frames of its elements,
   * in order.
   */
  lemma {:induction false} ChainIsFrames(x: Outside, start: seq<byte>, s0: Stage, ps: seq<Passage>)
    requires Chain(x, start, s0, ps) && |ps| >= 1
    requires forall k :: 0 <= k < |ps| ==> ps[k].framed && ps[k].element.kind != MESH_DATA
    ensures start == ElementFrames(ps) + ps[|ps| - 1].from
    decreases |ps|
  {
    assert Entered(x, ps[0]);
    if |ps| > 1 {
      assert Link(x, ps[0], ps[1]);
      assert ps[0].from == ps[0].to;
      var tail := ps[1..];
      assert Chain(x, ps[1].at, ps[1].before, tail) by {
        assert ps[1].framed;
        forall k | 0 <= k < |tail| - 1
          ensures Link(x, tail[k], tail[k + 1])
        {
          assert tail[k] == ps[k + 1] && tail[k + 1] == ps[k + 2];
        }
      }
      ChainIsFrames(x, ps[1].at, ps[1].before, tail);
    }
  }

  /** A chain of handled passages `ps` followed by `cur`, the element in hand. */
  ghost predicate Chained(x: Outside, start: seq<byte>, s0: Stage, ps: seq<Passage>, cur: Passage)
  {
    Entered(x, cur) &&
    (forall k :: 0 <= k < |ps| ==> Entered(x, ps[k])) &&
    (forall k :: 0 <= k < |ps| - 1 ==> Link(x, ps[k], ps[k + 1])) &&
    if |ps| == 0 then First(x, start, s0, cur)
    else First(x, start, s0, ps[0]) && Link(x, ps[|ps| - 1], cur)
  }

  /** The element in hand was handled and the next one entered. */
  lemma ChainedStep(x: Outside, start: seq<byte>, s0: Stage, ps: seq<Passage>, cur: Passage, next: Passage)
    requires Chained(x, start, s0, ps, cur) && Link(x, cur, next) && Entered(x, next)
    ensures Chained(x, start, s0, ps + [cur], next)
  {
  }

  /** The scene ends with the element in hand, whatever became of it. */
  lemma ChainedDone(x: Outside, start: seq<byte>, s0: Stage, ps: seq<Passage>, cur: Passage, last: Passage)
    requires Chained(x, start, s0, ps, cur)
    requires last.framed == cur.framed && last.at == cur.at && last.payload == cur.payload && last.from == cur.from
    requires last.element == cur.element && last.before == cur.before
    ensures Chain(x, start, s0, ps + [last])
  {
  }

  /**
   * How the element loop of a scene ended, with the stage `now` and the
   * inbox `rest`: complete with the first element of type `NONE`, the inbox
   * just after its frame when that arrived; `Thrown` at a volume element
   * that raises, nothing of it done but a load function cached; `Stalled`
   * when, after the last element was handled, its successor did not arrive
   * on a closed socket.
   */
  ghost predicate Ending(x: Outside, o: SceneOutcome, ps: seq<Passage>, now: Stage, rest: seq<byte>)
  {
    |ps| >= 1 &&
    var last := ps[|ps| - 1];
    match o
    case Complete =>
      last.element.kind == NONE && now == last.before && (last.framed ==> rest == last.from)
    case Thrown =>
      ((last.element.kind == VOLUME_DATA && DataRaises(last.element, x, now.loaders)) ||
       (last.element.kind == VOLUME_OBJECT && ObjectRaises(last.element, x, now.volumes))) &&
      now == last.before.(loaders := now.loaders) && rest == last.from
    case Stalled =>
      last.element.kind != NONE && Handles(last.element, x, last.before, last.after, last.from, last.to) &&
      now == last.after && |rest| <= |last.to|
  }

  /** The settings frames at the head of a scene, and the inbox after them. */
  datatype Heading = Heading(image: Option<seq<byte>>, render: Option<seq<byte>>,
                             camera: Option<seq<byte>>, lights: Option<seq<byte>>, rest: seq<byte>)

  /** When the four settings arrived, they are the first four frames of `before`. */
  predicate HeadingRead(h: Heading, before: seq<byte>)
  {
    h.image.Some? && h.render.Some? && h.camera.Some? && h.lights.Some? ==>
      Framed4(before, h.image.value, h.render.value, h.camera.value, h.lights.value, h.rest)
  }

  /** The scene the server holds: the globals `receive_scene` fills. */
  class SceneState {
    var fb: Framebuffer
    /** `render_settings.samples()`. */
    var samples: int
    var loadedMeshes: map<string, Server.Geometry>
    var loadedVolumes: map<string, Volume>
    /** `volume_load_functions`: the load function found for each volume type. */
    var loaders: map<string, Loader>
    var world: seq<WorldItem<Volume>>
    /** The `VolumeLoadResult`s sent back, in order. */
    var replies: seq<VolumeLoadResult>

    /** The fields the scene elements act on. */
    function Now(): Stage
      reads this
    {
      Stage(loadedMeshes, loadedVolumes, loaders, world, replies)
    }

    /** The scene as `main` leaves it before the first connection. */
    constructor ()
      ensures fb == Framebuffer(0, 0, false, 0) && samples == 0
      ensures loadedMeshes == map[] && loadedVolumes == map[] && loaders == map[] && world == [] && replies == []
    {
      fb := Framebuffer(0, 0, false, 0);
      samples := 0;
      loadedMeshes := map[];
      loadedVolumes := map[];
      loaders := map[];
      world := [];
      replies := [];
    }

    /**
     * `receive_and_add_mesh_data`: receives the `MeshData` header, then the
     * vertex array, the normals if flagged, the colours if flagged and the
     * triangles, and stores the model under the element's name, replacing
     * any earlier one. Nothing is stored when a receive fails.
     */
    method ReceiveMeshData(sock: Socket, e: SceneElement, decodeMesh: seq<byte> -> Server.MeshHeader)
      returns (ok: bool)
      modifies this, sock
      ensures ok ==> e.name in loadedMeshes && loadedMeshes == old(loadedMeshes)[e.name := loadedMeshes[e.name]]
      ensures ok ==> exists payload ::
                       Server.SizedBy(loadedMeshes[e.name], decodeMesh(payload)) &&
                       ParseFrame(old(sock.inbox.data)) ==
                         Some(Split(payload, Server.Wire(loadedMeshes[e.name]) + sock.inbox.data))
      ensures !ok ==> loadedMeshes == old(loadedMeshes)
      ensures fb == old(fb) && samples == old(samples) && loadedVolumes == old(loadedVolumes)
      ensures loaders == old(loaders) && world == old(world) && replies == old(replies)
      ensures |sock.inbox.data| <= |old(sock.inbox.data)| && sock.outbox == old(sock.outbox)
      ensures Budget(sock.inbox) <= Budget(old(sock.inbox))
    {
      var payload := ServerIO.ReceiveProtobuf(sock);
      if payload.None? {
        return false;
      }
      var h := decodeMesh(payload.value);
      var g := Server.ReceiveMeshArrays(sock, h);
      if g.None? {
        return false;
      }
      loadedMeshes := loadedMeshes[e.name := g.value];
      return true;
    }

    /**
     * `receive_and_add_mesh_object`: an instance of the model the element
     * links to, placed by its object-to-world matrix, is added to the world;
     * a link to a model that was never loaded is refused and adds nothing.
     */
    method ReceiveMeshObject(e: SceneElement) returns (ok: bool)
      modifies this
      ensures ok <==> e.dataLink in loadedMeshes
      ensures ok ==> world == old(world) + [MeshInstance(loadedMeshes[e.dataLink], Affine.FromMatrix(e.object2world))]
      ensures !ok ==> world == old(world)
      ensures fb == old(fb) && samples == old(samples) && loadedMeshes == old(loadedMeshes)
      ensures loadedVolumes == old(loadedVolumes) && loaders == old(loaders) && replies == old(replies)
    {
      if e.dataLink !in loadedMeshes {
        return false;
      }
      world := world + [MeshInstance(loadedMeshes[e.dataLink], Affine.FromMatrix(e.object2world))];
      return true;
    }

    /**
     * The load function for a volume type: the cached one, or the `load`
     * symbol of its plugin file, which is then cached. When the plugin
     * cannot be opened or has no `load`, the failure is replied and there
     * is none.
     */
    method FindLoader(volumeType: string, x: Outside) returns (loader: Option<Loader>)
      modifies this
      ensures volumeType in old(loaders) ==> loader == Some(old(loaders)[volumeType]) && replies == old(replies)
      ensures volumeType !in old(loaders) ==>
                match x.open(VolumePluginFile(volumeType))
                case OpenFailed =>
                  loader.None? && replies == old(replies) + [VolumeLoadResult(false, "Failed to open plugin", "", [])]
                case NoLoadSymbol =>
                  loader.None? &&
                  replies == old(replies) + [VolumeLoadResult(false, "Failed to get load function from plugin", "", [])]
                case Opened(l) => loader == Some(l) && replies == old(replies)
      ensures loader.Some? ==> loaders == old(loaders)[volumeType := loader.value]
      ensures loader.None? ==> loaders == old(loaders)
      ensures fb == old(fb) && samples == old(samples) && loadedMeshes == old(loadedMeshes)
      ensures loadedVolumes == old(loadedVolumes) && world == old(world)
    {
      if volumeType in loaders {
        return Some(loaders[volumeType]);
      }
      match x.open(VolumePluginFile(volumeType))
      case OpenFailed =>
        replies := replies + [VolumeLoadResult(false, "Failed to open plugin", "", [])];
        return None;
      case NoLoadSymbol =>
        replies := replies + [VolumeLoadResult(false, "Failed to get load function from plugin", "", [])];
        return None;
      case Opened(l) =>
        loaders := loaders[volumeType := l];
        return Some(l);
    }

    /**
     * `receive_and_add_volume_data`: finds the load function of the type
     * under `_plugin` and calls it. When it returns no volume, the result it
     * left is replied; otherwise the volume's settings are converted, it is
     * stored under the element's name, and the reply carries the digest of
     * the properties text and the bounding box. A setting that does not
     * convert raises after the load function was cached, before anything
     * else changed.
     */
    method ReceiveVolumeData(e: SceneElement, x: Outside) returns (o: SceneOutcome, ok: bool)
      modifies this
      ensures o == Thrown <==> DataRaises(e, x, loaders)
      ensures o != Thrown ==> o == Complete
      ensures ok ==> (o == Complete && x.parse(e.properties).Some? &&
                var props := x.parse(e.properties).value;
                Json.StringMember(props, "_plugin").Some? && Json.StringMember(props, "_plugin").value in loaders &&
                var call := x.load(loaders[Json.StringMember(props, "_plugin").value], props, e.object2world);
                call.volume.Some? && VolumeConverts(props) &&
                loadedVolumes == old(loadedVolumes)[e.name := Volume(call.volume.value, VolumeDefaults(props))] &&
                replies == old(replies) + [VolumeLoadResult(call.success, call.message, x.digest(e.properties), call.bbox)])
      ensures !ok ==> loadedVolumes == old(loadedVolumes)
      ensures o == Thrown ==> replies == old(replies)
      ensures forall t :: t in old(loaders) ==> t in loaders && loaders[t] == old(loaders)[t]
      ensures fb == old(fb) && samples == old(samples) && loadedMeshes == old(loadedMeshes) && world == old(world)
    {
      var parsed := x.parse(e.properties);
      if parsed.None? {
        return Thrown, false;
      }
      var props := parsed.value;
      var volumeType := Json.StringMember(props, "_plugin");
      if volumeType.None? {
        return Thrown, false;
      }
      var loader := FindLoader(volumeType.value, x);
      if loader.None? {
        return Complete, false;
      }
      var call := x.load(loader.value, props, e.object2world);
      if call.volume.None? {
        replies := replies + [VolumeLoadResult(call.success, call.message, "", [])];
        return Complete, false;
      }
      if !VolumeConverts(props) {
        return Thrown, false;
      }
      loadedVolumes := loadedVolumes[e.name := Volume(call.volume.value, VolumeDefaults(props))];
      replies := replies + [VolumeLoadResult(call.success, call.message, x.digest(e.properties), call.bbox)];
      return Complete, true;
    }

    /**
     * `receive_and_add_volume_object`: the volume the element links to is
     * added to the world as `VolumeRepresentation` says; a link to a volume
     * that was never loaded is refused and adds nothing. Isovalues or a
     * slice plane that do not convert raise before the world changes.
     */
    method ReceiveVolumeObject(e: SceneElement, x: Outside) returns (o: SceneOutcome, ok: bool)
      modifies this
      ensures o == Thrown <==> ObjectRaises(e, x, loadedVolumes)
      ensures o == Thrown ==> !ok
      ensures o != Thrown ==> o == Complete && (ok <==> e.dataLink in loadedVolumes)
      ensures ok ==> (x.parse(e.properties).Some? && e.dataLink in loadedVolumes &&
                var rep := VolumeRepresentation(loadedVolumes[e.dataLink], x.parse(e.properties).value);
                world == old(world) + (if rep.Some? then [rep.value] else []))
      ensures !ok ==> world == old(world)
      ensures fb == old(fb) && samples == old(samples) && loadedMeshes == old(loadedMeshes)
      ensures loadedVolumes == old(loadedVolumes) && loaders == old(loaders) && replies == old(replies)
    {
      var parsed := x.parse(e.properties);
      if parsed.None? {
        return Thrown, false;
      }
      if e.dataLink !in loadedVolumes {
        return Complete, false;
      }
      if !RepresentationConverts(parsed.value) {
        return Thrown, false;
      }
      var rep := VolumeRepresentation(loadedVolumes[e.dataLink], parsed.value);
      if rep.Some? {
        world := world + [rep.value];
      }
      return Complete, true;
    }

    /**
     * One scene element, handled by its type. It raises only for a volume
     * element, as `DataRaises` and `ObjectRaises` say, and then nothing has
     * changed but a load function cached.
     */
    method ReceiveElement(sock: Socket, e: SceneElement, x: Outside) returns (o: SceneOutcome)
      requires e.kind != NONE
      modifies this, sock
      ensures o != Stalled
      ensures o == Thrown <==> (e.kind == VOLUME_DATA && DataRaises(e, x, loaders)) ||
                               (e.kind == VOLUME_OBJECT && ObjectRaises(e, x, loadedVolumes))
      ensures o == Thrown ==> Now() == old(Now()).(loaders := loaders) && sock.inbox == old(sock.inbox)
      ensures o == Complete ==> Handles(e, x, old(Now()), Now(), old(sock.inbox.data), sock.inbox.data)
      ensures Budget(sock.inbox) <= Budget(old(sock.inbox))
      ensures fb == old(fb) && samples == old(samples) && sock.outbox == old(sock.outbox)
    {
      o := Complete;
      match e.kind
      case MESH_DATA =>
        var ok := ReceiveMeshData(sock, e, x.decodeMesh);
      case MESH_OBJECT =>
        var ok := ReceiveMeshObject(e);
      case VOLUME_DATA =>
        var ok;
        o, ok := ReceiveVolumeData(e, x);
      case VOLUME_OBJECT =>
        var ok;
        o, ok := ReceiveVolumeObject(e, x);
    }

    /**
     * The settings at the head of `receive_scene`: image, render, camera and
     * light settings, one message each in that order. The framebuffer is
     * resized to the image settings and the sample count taken from the
     * render settings; a message that does not arrive leaves its part as it
     * was. Cameras and lights are not modelled beyond their messages.
     */
    method ReceiveSettings(sock: Socket, x: Outside) returns (image: Option<seq<byte>>, render: Option<seq<byte>>,
                                                              camera: Option<seq<byte>>, lights: Option<seq<byte>>)
      modifies this, sock
      ensures image.Some? && render.Some? && camera.Some? && lights.Some? ==>
                Framed4(old(sock.inbox.data), image.value, render.value, camera.value, lights.value, sock.inbox.data)
      ensures fb == if image.Some? then Resize(old(fb), x.decodeImage(image.value)) else old(fb)
      ensures samples == if render.Some? then x.decodeSamples(render.value) else old(samples)
      ensures loadedMeshes == old(loadedMeshes) && loadedVolumes == old(loadedVolumes) && loaders == old(loaders)
      ensures world == old(world) && replies == old(replies)
      ensures |sock.inbox.data| <= |old(sock.inbox.data)|
    {
      ghost var d0 := sock.inbox.data;
      image := ServerIO.ReceiveProtobuf(sock);
      if image.Some? {
        fb := Resize(fb, x.decodeImage(image.value));
      }
      ghost var d1 := sock.inbox.data;
      render := ServerIO.ReceiveProtobuf(sock);
      if render.Some? {
        samples := x.decodeSamples(render.value);
      }
      ghost var d2 := sock.inbox.data;
      camera := ServerIO.ReceiveProtobuf(sock);
      ghost var d3 := sock.inbox.data;
      lights := ServerIO.ReceiveProtobuf(sock);
      if image.Some? && render.Some? && camera.Some? && lights.Some? {
        FramedOfParsed(d0, d1, d2, d3, sock.inbox.data, image.value, render.value, camera.value, lights.value);
      }
    }

    /**
     * `receive_scene`: the settings, then a fresh world filled from scene
     * elements by `ReceiveElements`.
     */
    method ReceiveScene(sock: Socket, x: Outside) returns (o: SceneOutcome, ghost h: Heading, ghost passages: seq<Passage>)
      modifies this, sock
      ensures HeadingRead(h, old(sock.inbox.data))
      ensures fb == if h.image.Some? then Resize(old(fb), x.decodeImage(h.image.value)) else old(fb)
      ensures samples == if h.render.Some? then x.decodeSamples(h.render.value) else old(samples)
      ensures Chain(x, h.rest, old(Now()).(world := []), passages)
      ensures Ending(x, o, passages, Now(), sock.inbox.data)
      ensures o == Stalled ==> sock.inbox.closed
    {
      var image, render, camera, lights := ReceiveSettings(sock, x);
      h := Heading(image, render, camera, lights, sock.inbox.data);
      world := [];
      o, passages := ReceiveElements(sock, x);
    }

    /**
     * The element loop of `receive_scene`: elements are received one after
     * the other and each handled by its type, until one of type `NONE`. No
     * receive is checked: when one fails, the element held is handled
     * again, and before the first that is a default-constructed element.
     * `passages` are the elements handled, in order: the first at the head
     * of the inbox, each later one where the element before it left the
     * inbox, with its own frame or the element before it again, and every
     * element before the last handled as `Handles` says; so the inbox a
     * scene whose frames all arrived consumed is its element frames, in
     * order, with the arrays of its mesh data between them. How the loop
     * ended is told by `Ending`; a stalled loop is left on a closed socket.
     */
    method ReceiveElements(sock: Socket, x: Outside) returns (o: SceneOutcome, ghost passages: seq<Passage>)
      modifies this, sock
      ensures Chain(x, old(sock.inbox.data), old(Now()), passages)
      ensures Ending(x, o, passages, Now(), sock.inbox.data)
      ensures o == Stalled ==> sock.inbox.closed
      ensures fb == old(fb) && samples == old(samples)
    {
      ghost var start, s0 := sock.inbox.data, Now();
      passages := [];
      var e, arrived;
      ghost var cur;
      e, arrived, cur := NextElement(sock, x, x.defaultElement);
      while e.kind != NONE
        invariant Chained(x, start, s0, passages, cur) && e == cur.element
        invariant sock.inbox.data == cur.from && Now() == cur.before
        invariant fb == old(fb) && samples == old(samples)
        decreases Budget(sock.inbox)
      {
        o := ReceiveElement(sock, e, x);
        if o == Thrown {
          ChainedDone(x, start, s0, passages, cur, cur);
          assert (passages + [cur])[|passages|] == cur;
          return o, passages + [cur];
        }
        ghost var done := cur.(to := sock.inbox.data, after := Now());
        ghost var next;
        e, arrived, next := NextElement(sock, x, e);
        if !arrived && sock.inbox.closed {
          ChainedDone(x, start, s0, passages, cur, done);
          assert (passages + [done])[|passages|] == done;
          return Stalled, passages + [done];
        }
        ChainedStep(x, start, s0, passages, done, next);
        passages, cur := passages + [done], next;
      }
      ChainedDone(x, start, s0, passages, cur, cur);
      assert (passages + [cur])[|passages|] == cur;
      return Complete, passages + [cur];
    }

    /**
     * The unchecked `SceneElement` receive of `receive_scene`: the element
     * whose frame arrived, or else the element `held`. `next` is the
     * passage that starts with it, on the scene as it is.
     */
    method NextElement(sock: Socket, x: Outside, held: SceneElement)
      returns (e: SceneElement, arrived: bool, ghost next: Passage)
      modifies sock
      ensures Entered(x, next) && next.framed == arrived && next.element == e && (arrived || e == held)
      ensures next.at == old(sock.inbox.data) && next.from == sock.inbox.data && next.to == sock.inbox.data
      ensures next.before == Now() && next.after == Now()
      ensures !old(sock.inbox.closed) ==> Budget(sock.inbox) < Budget(old(sock.inbox))
      ensures old(sock.inbox.closed) ==> sock.inbox == old(sock.inbox)
    {
      var payload := ServerIO.ReceiveProtobuf(sock);
      next := Passage(false, old(sock.inbox.data), [], sock.inbox.data, held, sock.inbox.data, Now(), Now());
      e, arrived := held, false;
      if payload.Some? {
        FrameOfParseFrame(old(sock.inbox.data));
        e, arrived := x.decodeElement(payload.value), true;
        next := next.(framed := true, payload := payload.value, element := e);
      }
    }
  }

  /** `b` is the four messages `m0` to `m3`, each length-prefixed, followed by `rest`. */
  predicate Framed4(b: seq<byte>, m0: seq<byte>, m1: seq<byte>, m2: seq<byte>, m3: seq<byte>, rest: seq<byte>)
  {
    |m0| < U32_LIMIT && |m1| < U32_LIMIT && |m2| < U32_LIMIT && |m3| < U32_LIMIT &&
    b == Frame(m0) + (Frame(m1) + (Frame(m2) + (Frame(m3) + rest)))
  }

  /** Four frames parsed off a stream one after the other are, together, a prefix of it. */
  lemma FramedOfParsed(d0: seq<byte>, d1: seq<byte>, d2: seq<byte>, d3: seq<byte>, d4: seq<byte>,
                       m0: seq<byte>, m1: seq<byte>, m2: seq<byte>, m3: seq<byte>)
    requires ParseFrame(d0) == Some(Split(m0, d1)) && ParseFrame(d1) == Some(Split(m1, d2))
    requires ParseFrame(d2) == Some(Split(m2, d3)) && ParseFrame(d3) == Some(Split(m3, d4))
    ensures Framed4(d0, m0, m1, m2, m3, d4)
  {
    FrameOfParseFrame(d0);
    FrameOfParseFrame(d1);
    FrameOfParseFrame(d2);
    FrameOfParseFrame(d3);
  }

  /**
   * The state `handle_connection` shares with its render thread: the
   * rendering flag, the thread (the next sample it renders, while it runs),
   * the input queue of client messages for the thread, the queue of render
   * results for the loop, and the results forwarded to the client.
   */
  class RenderLoop {
    var rendering: bool
    var worker: Option<int>
    /** The sample count the current render was started with. */
    var renderSamples: int
    var inputQueue: seq<ClientKind>
    var resultQueue: seq<RenderResult>
    var forwarded: seq<RenderResult>
    /** Every result the current render's thread pushed, and those of them the loop forwarded. */
    ghost var run: seq<RenderResult>
    ghost var delivered: seq<RenderResult>
    /** Whether a `CANCEL_RENDERING` was queued since the current render started. */
    ghost var cancelSinceStart: bool
    /** Whether a message was already waiting in the input queue when the current render started. */
    ghost var leftover: bool

    /**
     * The render thread runs only while the flag is set; it has pushed
     * frames 1, 2, ... in order and, once it has ended, one `DONE` or
     * `CANCELED`; the loop forwards them in the order they were pushed.
     * When the flag is clear no thread runs and no result waits.
     */
    ghost predicate Valid()
      reads this
    {
      (!rendering ==> worker.None? && resultQueue == []) &&
      (rendering ==> run == delivered + resultQueue) &&
      (worker.Some? ==> rendering && Running(run, worker.value, renderSamples)) &&
      (rendering && worker.None? ==> Ended(run, renderSamples))
    }

    /**
     * A queued cancel, and a render that ended canceled, both come from a
     * cancel received since the render's start, or from one left waiting in
     * the queue when it started.
     */
    ghost predicate CancelsAccounted()
      reads this
    {
      (|inputQueue| > 0 ==> cancelSinceStart || leftover) && (CANCELED in run ==> cancelSinceStart || leftover)
    }

    /** A connection's loop before its first message. */
    constructor ()
      ensures Valid() && CancelsAccounted()
      ensures !rendering && inputQueue == [] && forwarded == []
    {
      rendering := false;
      worker := None;
      renderSamples := 0;
      inputQueue := [];
      resultQueue := [];
      forwarded := [];
      run := [];
      delivered := [];
      cancelSinceStart := false;
      leftover := false;
    }

    /**
     * One frame of `render_thread_func`: while samples remain, the next one
     * is rendered and saved, its `FRAME` is pushed, and a message waiting in
     * the input queue is taken; a cancel then pushes `CANCELED` and ends the
     * thread. Past the last sample the thread pushes `DONE` and ends.
     */
    method WorkerStep(frameSize: nat)
      requires Valid() && worker.Some?
      modifies this
      ensures Valid() && rendering
      ensures old(worker.value) <= renderSamples ==>
                var cancel := |old(inputQueue)| > 0 && old(inputQueue)[0] == CANCEL_RENDERING;
                inputQueue == (if |old(inputQueue)| > 0 then old(inputQueue)[1..] else []) &&
                resultQueue == old(resultQueue) + [FRAME(old(worker.value), FrameFile(old(worker.value)), frameSize)] +
                               (if cancel then [CANCELED] else []) &&
                worker == (if cancel then None else Some(old(worker.value) + 1))
      ensures old(worker.value) > renderSamples ==>
                inputQueue == old(inputQueue) && resultQueue == old(resultQueue) + [DONE] && worker.None?
      ensures renderSamples == old(renderSamples) && forwarded == old(forwarded) && delivered == old(delivered)
      ensures cancelSinceStart == old(cancelSinceStart) && leftover == old(leftover)
      ensures old(CancelsAccounted()) ==> CancelsAccounted()
    {
      var i := worker.value;
      if i > renderSamples {
        FinishRun();
      } else {
        RenderSample(frameSize);
        TakeInput();
      }
    }

    /** Past the last sample: `DONE` is pushed and the thread ends. */
    method FinishRun()
      requires Valid() && worker.Some? && worker.value > renderSamples
      modifies this
      ensures Valid() && rendering && worker.None?
      ensures resultQueue == old(resultQueue) + [DONE] && run == old(run) + [DONE]
      ensures inputQueue == old(inputQueue) && renderSamples == old(renderSamples)
      ensures forwarded == old(forwarded) && delivered == old(delivered)
      ensures cancelSinceStart == old(cancelSinceStart) && leftover == old(leftover)
    {
      EndDone(run, renderSamples);
      resultQueue := resultQueue + [DONE];
      run := run + [DONE];
      worker := None;
    }

    /** Sample `worker` is rendered and saved, and its `FRAME` pushed. */
    method RenderSample(frameSize: nat)
      requires Valid() && worker.Some? && worker.value <= renderSamples
      modifies this
      ensures Valid() && rendering && worker == Some(old(worker.value) + 1) && worker.value >= 2
      ensures resultQueue == old(resultQueue) + [FRAME(old(worker.value), FrameFile(old(worker.value)), frameSize)]
      ensures run == old(run) + [FRAME(old(worker.value), FrameFile(old(worker.value)), frameSize)]
      ensures inputQueue == old(inputQueue) && renderSamples == old(renderSamples)
      ensures forwarded == old(forwarded) && delivered == old(delivered)
      ensures cancelSinceStart == old(cancelSinceStart) && leftover == old(leftover)
    {
      var i := worker.value;
      var frame := FRAME(i, FrameFile(i), frameSize);
      RunGrows(run, i, renderSamples, frameSize);
      assert run + [frame] == delivered + (resultQueue + [frame]);
      resultQueue := resultQueue + [frame];
      run := run + [frame];
      worker := Some(i + 1);
    }

    /** After a frame, a message waiting for the thread is taken; a cancel pushes `CANCELED` and ends it. */
    method TakeInput()
      requires Valid() && worker.Some? && worker.value >= 2
      modifies this
      ensures Valid() && rendering
      ensures var cancel := |old(inputQueue)| > 0 && old(inputQueue)[0] == CANCEL_RENDERING;
              inputQueue == (if |old(inputQueue)| > 0 then old(inputQueue)[1..] else []) &&
              resultQueue == old(resultQueue) + (if cancel then [CANCELED] else []) &&
              run == old(run) + (if cancel then [CANCELED] else []) &&
              worker == (if cancel then None else old(worker))
      ensures renderSamples == old(renderSamples)
      ensures forwarded == old(forwarded) && delivered == old(delivered)
      ensures cancelSinceStart == old(cancelSinceStart) && leftover == old(leftover)
    {
      if |inputQueue| == 0 {
        return;
      }
      var cm := inputQueue[0];
      inputQueue := inputQueue[1..];
      if cm == CANCEL_RENDERING {
        EndCanceled(run, renderSamples);
        assert run + [CANCELED] == delivered + (resultQueue + [CANCELED]);
        resultQueue := resultQueue + [CANCELED];
        run := run + [CANCELED];
        worker := None;
      }
    }

    /**
     * `START_RENDERING`: ignored while rendering; otherwise a render thread
     * starts, with whatever waits in the input queue still there.
     */
    method OnStartAsWritten(samples: int)
      requires Valid()
      modifies this
      ensures Valid()
      ensures old(rendering) ==> rendering && worker == old(worker) && inputQueue == old(inputQueue) &&
                                 resultQueue == old(resultQueue) && run == old(run) &&
                                 cancelSinceStart == old(cancelSinceStart) && leftover == old(leftover)
      ensures !old(rendering) ==>
                rendering && worker == Some(1) && renderSamples == samples && resultQueue == [] &&
                inputQueue == old(inputQueue) && run == [] && !cancelSinceStart &&
                (leftover <==> |old(inputQueue)| > 0)
      ensures old(CancelsAccounted()) || !old(rendering) ==> CancelsAccounted()
      ensures forwarded == old(forwarded)
    {
      if rendering {
        return;
      }
      leftover := |inputQueue| > 0;
      worker := Some(1);
      renderSamples := samples;
      rendering := true;
      run := [];
      delivered := [];
      cancelSinceStart := false;
    }

    /**
     * `START_RENDERING` as evidently intended: as `OnStartAsWritten`, but
     * the input queue is emptied before the thread starts, so a cancel left
     * over from the previous render cannot reach the new one.
     */
    method OnStart(samples: int)
      requires Valid()
      modifies this
      ensures Valid()
      ensures old(rendering) ==> rendering && worker == old(worker) && inputQueue == old(inputQueue) &&
                                 resultQueue == old(resultQueue) && run == old(run) &&
                                 cancelSinceStart == old(cancelSinceStart) && leftover == old(leftover)
      ensures !old(rendering) ==>
                rendering && worker == Some(1) && renderSamples == samples && resultQueue == [] &&
                inputQueue == [] && run == [] && !cancelSinceStart && !leftover
      ensures old(CancelsAccounted()) || !old(rendering) ==> CancelsAccounted()
      ensures forwarded == old(forwarded)
    {
      if rendering {
        return;
      }
      inputQueue := [];
      leftover := false;
      worker := Some(1);
      renderSamples := samples;
      rendering := true;
      run := [];
      delivered := [];
      cancelSinceStart := false;
    }

    /** `CANCEL_RENDERING`: passed on to the render thread only while rendering. */
    method OnCancel()
      requires Valid()
      modifies this
      ensures Valid()
      ensures old(rendering) ==> inputQueue == old(inputQueue) + [CANCEL_RENDERING] && cancelSinceStart
      ensures !old(rendering) ==> inputQueue == old(inputQueue) && cancelSinceStart == old(cancelSinceStart)
      ensures leftover == old(leftover)
      ensures rendering == old(rendering) && worker == old(worker) && renderSamples == old(renderSamples)
      ensures resultQueue == old(resultQueue) && run == old(run) && forwarded == old(forwarded)
      ensures old(CancelsAccounted()) ==> CancelsAccounted()
    {
      if rendering {
        inputQueue := inputQueue + [CANCEL_RENDERING];
        cancelSinceStart := true;
      }
    }

    /**
     * The second half of a turn of `handle_connection`: while rendering,
     * the oldest waiting result is forwarded; `CANCELED` or `DONE` joins
     * the thread, which has ended by then, and clears the flag, after which
     * no result is left waiting.
     */
    method ForwardResult()
      requires Valid()
      modifies this
      ensures Valid()
      ensures old(rendering) && |old(resultQueue)| > 0 ==>
                forwarded == old(forwarded) + [old(resultQueue)[0]] && resultQueue == old(resultQueue)[1..] &&
                (rendering <==> old(resultQueue)[0].FRAME?)
      ensures !old(rendering) || |old(resultQueue)| == 0 ==>
                forwarded == old(forwarded) && resultQueue == old(resultQueue) && rendering == old(rendering)
      ensures old(rendering) && !rendering ==> worker.None? && resultQueue == []
      ensures worker == old(worker) && inputQueue == old(inputQueue) && renderSamples == old(renderSamples)
      ensures run == old(run) && cancelSinceStart == old(cancelSinceStart) && leftover == old(leftover)
    {
      if !rendering || |resultQueue| == 0 {
        return;
      }
      var r := resultQueue[0];
      if !r.FRAME? {
        EndIsLast(run, delivered, resultQueue, worker, renderSamples);
      }
      assert delivered + resultQueue == (delivered + [r]) + resultQueue[1..];
      resultQueue := resultQueue[1..];
      delivered := delivered + [r];
      forwarded := forwarded + [r];
      if !r.FRAME? {
        rendering := false;
      }
    }
  }

  /** The first result still waiting that is not a frame was pushed by a thread that has ended, and is the last. */
  lemma EndIsLast(run: seq<RenderResult>, delivered: seq<RenderResult>, waiting: seq<RenderResult>,
                  worker: Option<int>, n: int)
    requires run == delivered + waiting && |waiting| > 0 && !waiting[0].FRAME?
    requires worker.Some? ==> Running(run, worker.value, n)
    requires worker.None? ==> Ended(run, n)
    ensures worker.None? && |waiting| == 1
  {
    assert run[|delivered|] == waiting[0];
    if worker.Some? {
      assert false;
    }
    OnlyLastEnds(run, n);
  }

  /** A running render thread about to render `next`: frames 1 to `next - 1` are pushed. */
  predicate Running(run: seq<RenderResult>, next: int, n: int)
  {
    1 <= next && |run| == next - 1 && |run| <= Max0(n) && FrameRun(run)
  }

  /** Pushing the frame of the next sample keeps a render running. */
  lemma RunGrows(run: seq<RenderResult>, i: int, n: int, size: nat)
    requires Running(run, i, n) && i <= n
    ensures Running(run + [FRAME(i, FrameFile(i), size)], i + 1, n)
  {
    var r := run + [FRAME(i, FrameFile(i), size)];
    assert forall k :: 0 <= k < |run| ==> r[k] == run[k];
  }

  /** After the last sample, `DONE` ends a render. */
  lemma EndDone(run: seq<RenderResult>, n: int)
    requires Running(run, |run| + 1, n) && |run| + 1 > n
    ensures Ended(run + [DONE], n)
  {
    assert (run + [DONE])[..|run|] == run;
  }

  /** After a frame, a cancel ends a render. */
  lemma EndCanceled(run: seq<RenderResult>, n: int)
    requires Running(run, |run| + 1, n) && |run| >= 1
    ensures Ended(run + [CANCELED], n)
  {
    assert (run + [CANCELED])[..|run|] == run;
  }

  /**
   * The first half of a turn of `handle_connection`: a waiting message is
   * received and dispatched. A failed receive ends the connection with
   * false and `QUIT` with true; a scene that does not arrive whole leaves
   * the source stuck.
   */
  method ClientTurn(sock: Socket, scene: SceneState, loop: RenderLoop, x: Outside) returns (o: Outcome)
    requires loop.Valid()
    modifies sock, scene, loop
    ensures loop.Valid()
    ensures old(loop.CancelsAccounted()) ==> loop.CancelsAccounted()
    ensures !old(loop.rendering) && loop.rendering ==>
              loop.worker == Some(1) && loop.run == [] && !loop.cancelSinceStart &&
              loop.inputQueue == old(loop.inputQueue) && (loop.leftover <==> |old(loop.inputQueue)| > 0)
    ensures RenderServer.Quiet(old(sock.inbox)) ==>
              o == Carry && loop.rendering == old(loop.rendering) && loop.resultQueue == old(loop.resultQueue)
  {
    var readable := sock.IsReadable();
    if !readable {
      return Carry;
    }
    var payload := ServerIO.ReceiveProtobuf(sock);
    if payload.None? {
      return Return(false);
    }
    match x.decodeMessage(payload.value)
    case UPDATE_SCENE =>
      var so, h, passages := scene.ReceiveScene(sock, x);
      o := if so == Complete then Carry else Stuck;
    case START_RENDERING =>
      loop.OnStartAsWritten(scene.samples);
      o := Carry;
    case CANCEL_RENDERING =>
      loop.OnCancel();
      o := Carry;
    case QUIT =>
      o := Return(true);
    case OTHER_MESSAGE =>
      o := Carry;
  }

  /**
   * `handle_connection` over a schedule: each `Poll` is one turn of its
   * loop (a message, if one waits, then at most one result forwarded),
   * each `Work` one frame of the render thread, when it runs. `used` is
   * the number of ticks taken; the loop runs until the connection ends or
   * the schedule does.
   */
  method HandleConnection(sock: Socket, scene: SceneState, loop: RenderLoop, x: Outside, ticks: seq<Tick>)
    returns (o: Outcome, used: nat)
    requires loop.Valid()
    modifies sock, scene, loop
    ensures loop.Valid() && used <= |ticks|
    ensures old(loop.CancelsAccounted()) ==> loop.CancelsAccounted()
    ensures o == Carry ==> used == |ticks|
    ensures o != Carry ==> 1 <= used && ticks[used - 1] == Poll
  {
    used := 0;
    o := Carry;
    ghost var accounted := loop.CancelsAccounted();
    while used < |ticks|
      invariant loop.Valid() && used <= |ticks|
      invariant accounted ==> loop.CancelsAccounted()
      invariant o == Carry
    {
      var t := ticks[used];
      used := used + 1;
      match t
      case Poll =>
        o := ClientTurn(sock, scene, loop, x);
        if o != Carry {
          return;
        }
        loop.ForwardResult();
      case Work(size) =>
        if loop.worker.Some? {
          loop.WorkerStep(size);
        }
    }
  }

  /**
   * A render of one sample on a connection whose loop is idle, with the
   * client's cancel arriving after the thread pushed `DONE` but before the
   * loop forwarded it: the loop still has the flag set, so the cancel is
   * queued, and it outlives the render. `fixStart` picks `OnStart` over
   * `OnStartAsWritten`.
   */
  method LateCancel(loop: RenderLoop, fixStart: bool)
    requires loop.Valid() && !loop.rendering && loop.inputQueue == [] && loop.forwarded == []
    modifies loop
    ensures loop.Valid() && !loop.rendering && loop.inputQueue == [CANCEL_RENDERING]
    ensures loop.forwarded == [FRAME(1, FrameFile(1), 0), DONE]
  {
    if fixStart {
      loop.OnStart(1);
    } else {
      loop.OnStartAsWritten(1);
    }
    loop.WorkerStep(0);
    loop.WorkerStep(0);
    loop.OnCancel();
    loop.ForwardResult();
    loop.ForwardResult();
  }

  /**
   * The next render of one sample on the same connection, started with the
   * earlier cancel still queued, and run to its end.
   */
  method NextRender(loop: RenderLoop, fixStart: bool)
    requires loop.Valid() && !loop.rendering && loop.inputQueue == [CANCEL_RENDERING]
    requires loop.forwarded == [FRAME(1, FrameFile(1), 0), DONE]
    modifies loop
    ensures loop.forwarded == [FRAME(1, FrameFile(1), 0), DONE, FRAME(1, FrameFile(1), 0), if fixStart then DONE else CANCELED]
  {
    if fixStart {
      loop.OnStart(1);
    } else {
      loop.OnStartAsWritten(1);
    }
    loop.WorkerStep(0);
    if loop.worker.Some? {
      loop.WorkerStep(0);
    }
    loop.ForwardResult();
    loop.ForwardResult();
  }

  /**
   * The race as written: the cancel left over from a render that had
   * already ended cancels the next render on the connection after its
   * first frame, though no cancel was received after its start.
   */
  method LeftoverCancelAsWritten() returns (log: seq<RenderResult>)
    ensures log == [FRAME(1, FrameFile(1), 0), DONE, FRAME(1, FrameFile(1), 0), CANCELED]
  {
    var loop := new RenderLoop();
    LateCancel(loop, false);
    NextRender(loop, false);
    log := loop.forwarded;
  }

  /** The same run with the input queue emptied at the start: the second render completes. */
  method LeftoverCancelCorrected() returns (log: seq<RenderResult>)
    ensures log == [FRAME(1, FrameFile(1), 0), DONE, FRAME(1, FrameFile(1), 0), DONE]
  {
    var loop := new RenderLoop();
    LateCancel(loop, true);
    NextRender(loop, true);
    log := loop.forwarded;
  }
}
