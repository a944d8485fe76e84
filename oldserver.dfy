/**
 * The earliest OSPRay render server (ospray_render_server.cpp): one scene
 * per connection. It receives image, render, camera and light settings,
 * then `SceneElement` messages until one of type `NONE`, each `MESH` or
 * `VOLUME` element followed by its own message and data; then it renders
 * the configured number of samples, sending the framebuffer as a
 * length-prefixed EXR file after each one.
 *
 * Protobuf decoding, JSON parsing, `dlopen`, the volume plugins' load
 * functions, SHA-1 and the EXR files are parameters; OSPRay objects are
 * values.
 */
module OldServer {
  import opened Bytes
  import opened Wrappers
  import opened TcpSocket
  import opened Framing
  import ServerIO
  import Server
  import Json
  import Plugin2
  import Affine
  import CoreServer

  // ---------------------------------------------------------------------
  // get_sha1
  // ---------------------------------------------------------------------

  /** The five 32-bit words of a SHA-1 digest. */
  type Digest = w: seq<u32> | |w| == 5 witness [0, 0, 0, 0, 0]

  predicate IsHexDigit(c: char)
  {
    '0' <= c <= '9' || 'a' <= c <= 'f'
  }

  predicate AllHex(s: string)
  {
    forall i :: 0 <= i < |s| ==> IsHexDigit(s[i])
  }

  function HexValue(c: char): (d: nat)
    requires IsHexDigit(c)
    ensures d < 16
  {
    if c <= '9' then c as int - '0' as int else c as int - 'a' as int + 10
  }

  /** The lowercase hex digit of `d`, as `printf`'s `%x` writes it. */
  function HexDigit(d: nat): (c: char)
    requires d < 16
    ensures IsHexDigit(c) && HexValue(c) == d
  {
    if d < 10 then ('0' as int + d) as char else ('a' as int + d - 10) as char
  }

  /** `%0kx`: the `k` lowest hex digits of `n`, most significant first, zero-padded. */
  function Hex(n: nat, k: nat): (s: string)
    ensures |s| == k && AllHex(s)
  {
    if k == 0 then "" else Hex(n / 16, k - 1) + [HexDigit(n % 16)]
  }

  /** The value of a string of hex digits. */
  function ParseHex(s: string): nat
    requires AllHex(s)
  {
    if s == "" then 0 else ParseHex(s[..|s| - 1]) * 16 + HexValue(s[|s| - 1])
  }

  function Pow16(k: nat): (p: nat)
    ensures p >= 1
  {
    if k == 0 then 1 else 16 * Pow16(k - 1)
  }

  lemma DivBelow(n: nat, p: nat)
    requires n < 16 * p
    ensures n / 16 < p
  {
  }

  /** `k` hex digits hold every value below `16^k`, and reading them back gives the value. */
  lemma {:induction false} ParseHexOfHex(n: nat, k: nat)
    requires n < Pow16(k)
    ensures ParseHex(Hex(n, k)) == n
  {
    if k > 0 {
      var s := Hex(n, k);
      assert s[..|s| - 1] == Hex(n / 16, k - 1);
      DivBelow(n, Pow16(k - 1));
      ParseHexOfHex(n / 16, k - 1);
    }
  }

  /** The words of a digest, each as `%08x`, one after the other. */
  function HexWords(ws: seq<u32>): (s: string)
    ensures |s| == 8 * |ws| && AllHex(s)
  {
    if ws == [] then "" else HexWords(ws[..|ws| - 1]) + Hex(ws[|ws| - 1], 8)
  }

  /** Characters `8i` to `8i + 8` of the text are word `i`. */
  lemma {:induction false} HexWordsAt(ws: seq<u32>, i: nat)
    requires i < |ws|
    ensures HexWords(ws)[8 * i..8 * i + 8] == Hex(ws[i], 8)
  {
    var init := ws[..|ws| - 1];
    if i < |ws| - 1 {
      HexWordsAt(init, i);
      assert HexWords(ws)[8 * i..8 * i + 8] == HexWords(init)[8 * i..8 * i + 8];
    } else {
      assert HexWords(ws)[8 * i..8 * i + 8] == HexWords(ws)[|HexWords(init)|..];
    }
  }

  /** `get_sha1`: the five digest words, each as eight lowercase hex digits. */
  function Sha1Hex(w: Digest): (s: string)
    ensures |s| == 40 && AllHex(s)
  {
    HexWords(w)
  }

  /** Each group of eight characters of the text reads back as its digest word. */
  lemma {:induction false} Sha1HexWords(w: Digest, i: nat)
    requires i < 5
    ensures AllHex(Sha1Hex(w)[8 * i..8 * i + 8]) && ParseHex(Sha1Hex(w)[8 * i..8 * i + 8]) == w[i]
  {
    HexWordsAt(w, i);
    assert Pow16(8) == U32_LIMIT;
    ParseHexOfHex(w[i], 8);
  }

  /** Different digests give different texts: the formatting loses nothing. */
  lemma {:induction false} Sha1HexInjective(a: Digest, b: Digest)
    requires Sha1Hex(a) == Sha1Hex(b)
    ensures a == b
  {
    forall i | 0 <= i < 5
      ensures a[i] == b[i]
    {
      Sha1HexWords(a, i);
      Sha1HexWords(b, i);
    }
  }

  /** The bytes of a text of characters below 256, one byte per character. */
  function Latin1(s: string): (b: seq<byte>)
    requires forall i :: 0 <= i < |s| ==> s[i] as int < 256
    ensures |b| == |s| && forall i :: 0 <= i < |s| ==> b[i] == s[i] as int
  {
    if s == "" then [] else Latin1(s[..|s| - 1]) + [s[|s| - 1] as int]
  }

  // ---------------------------------------------------------------------
  // Messages and what the server gets from outside
  // ---------------------------------------------------------------------

  /** A `SceneElement`: only its type is used; any type other than these three is skipped. */
  datatype ElementType = NONE | MESH | VOLUME | OTHER_ELEMENT

  /** A `MeshInfo` message. */
  datatype MeshInfo = MeshInfo(numVertices: u32, numTriangles: u32, normals: bool, object2world: Plugin2.Matrix)

  /** A `VolumeInfo` message: the matrix and the JSON text of the properties. */
  datatype VolumeInfo = VolumeInfo(object2world: Plugin2.Matrix, properties: string)

  /** The bounding box a load function writes: six floats. */
  type Box = b: seq<F32> | |b| == 6 witness [F32(0), F32(0), F32(0), F32(0), F32(0), F32(0)]

  /** What a load function gives: the volume and its bounding box. */
  datatype Loaded = Loaded(volume: nat, bbox: Box)

  datatype Outside = Outside(
    decodeImage: seq<byte> -> CoreServer.ImageSettings,
    decodeSamples: seq<byte> -> int,
    decodeElement: seq<byte> -> ElementType,
    /** The type of a `SceneElement` that was never parsed into. */
    defaultElement: ElementType,
    decodeMeshInfo: seq<byte> -> MeshInfo,
    decodeVolumeInfo: seq<byte> -> VolumeInfo,
    parse: string -> Option<Json.Value>,
    open: string -> CoreServer.PluginOpen,
    load: (CoreServer.Loader, Json.Value, Plugin2.Matrix) -> Loaded,
    sha1: string -> Digest)

  /** The header under which `receive_mesh` reads a mesh: no colour array, ever. */
  function Header(info: MeshInfo): (h: Server.MeshHeader)
    ensures !h.vertexColors
  {
    Server.MeshHeader(info.numVertices, info.numTriangles, info.normals, false)
  }

    /** The plugin file of a volume type. */
  function PluginFile(volumeType: string): string
  {
    "voltype_" + volumeType + ".so"
  }

  /** The parameters set on a loaded volume. */
  datatype VolumeSettings = VolumeSettings(samplingRate: CoreServer.Setting<F32>, adaptiveSampling: bool,
                                           gradientShading: bool, valueRange: Option<Json.Value>)

  datatype Volume = Volume(handle: nat, settings: VolumeSettings)

  function VolumeDefaults(props: Json.Value): VolumeSettings
  {
    VolumeSettings(CoreServer.Choose(props, "sampling_rate", CoreServer.SAMPLING_RATE_DEFAULT), false, true,
                   Json.Find(props, "data_range"))
  }

  /**
   * The sampling rate is the property's when there is one and 0.1
   * otherwise; adaptive sampling is off and gradient shading on, whatever
   * the properties say; `data_range` is the value range when present.
   */
  lemma {:induction false} VolumeDefaultsMeaning(props: Json.Value)
    ensures CoreServer.Picks(props, "sampling_rate", CoreServer.SAMPLING_RATE_DEFAULT, VolumeDefaults(props).samplingRate)
    ensures !VolumeDefaults(props).adaptiveSampling && VolumeDefaults(props).gradientShading
    ensures VolumeDefaults(props).valueRange.Some? <==> Json.HasMember(props, "data_range")
    ensures VolumeDefaults(props).valueRange.Some? ==> VolumeDefaults(props).valueRange.value == props.members["data_range"]
  {
  }

  /** What a loaded volume adds to the world. */
  function VolumeItems(call: Loaded, props: Json.Value): (r: seq<CoreServer.WorldItem<Volume>>)
    ensures |r| <= 1
  {
    match CoreServer.VolumeRepresentation(Volume(call.volume, VolumeDefaults(props)), props)
    case Some(item) => [item]
    case None => []
  }

  /** The reply to a loaded volume: the 40 characters of the digest, then the six floats of the box. */
  function VolumeReply(hash: string, bbox: Box): (r: seq<byte>)
    requires |hash| == 40 && AllHex(hash)
    ensures |r| == 64 && r[..40] == Latin1(hash) && r[40..] == FloatsLE(bbox)
  {
    Latin1(hash) + FloatsLE(bbox)
  }

  /** `send_framebuffer`'s bytes: the file size as a 32-bit word (truncated), then the file. */
  function FramebufferBytes(file: seq<byte>): seq<byte>
  {
    LE32(|file| % U32_LIMIT) + file
  }

  /** A file below 4 GiB goes out as one frame, which a reader of frames gets back whole. */
  lemma {:induction false} FramebufferIsFrame(file: seq<byte>, rest: seq<byte>)
    requires |file| < U32_LIMIT
    ensures FramebufferBytes(file) == Frame(file)
    ensures ParseFrame(FramebufferBytes(file) + rest) == Some(Split(file, rest))
  {
    assert |file| % U32_LIMIT == |file|;
    assert FramebufferBytes(file) == LE32(|file|) + file;
    ParseFrameOfFrame(file, rest);
  }

  /** The framebuffers sent after samples 1 to `n`, in order. */
  function Framebuffers(exr: nat -> seq<byte>, n: int): seq<byte>
    decreases if n < 0 then 0 else n
  {
    if n <= 0 then [] else Framebuffers(exr, n - 1) + FramebufferBytes(exr(n))
  }

  /** The clear flags of the frames of a render of `n` samples: only the first clears. */
  function ClearFlags(n: int): (r: seq<bool>)
    ensures |r| == CoreServer.Max0(n) && forall k :: 0 <= k < |r| ==> (r[k] <==> k == 0)
  {
    seq(CoreServer.Max0(n), k => k == 0)
  }

  lemma ClearFlagsNext(n: nat)
    ensures ClearFlags(n + 1) == ClearFlags(n) + [n == 0]
  {
    assert ClearFlags(n + 1)[..n] == ClearFlags(n);
  }

  /**
   * After samples 1 to `n`: one clear flag each, and, when every send goes
   * out whole (`exact`), their framebuffers sent in order.
   */
  predicate SampledSoFar(exr: nat -> seq<byte>, n: nat, r0: seq<bool>, renders: seq<bool>,
                         exact: bool, out0: seq<byte>, ob: Outbox)
  {
    renders == r0 + ClearFlags(n) &&
    (exact ==> |ob.limits| == 0 && ob.data == out0 + Framebuffers(exr, n))
  }

  lemma SampleStep(exr: nat -> seq<byte>, i: nat, r0: seq<bool>, renders: seq<bool>, renders1: seq<bool>,
                   exact: bool, out0: seq<byte>, ob: Outbox, ob1: Outbox)
    requires i >= 1 && SampledSoFar(exr, i - 1, r0, renders, exact, out0, ob)
    requires renders1 == renders + [i == 1]
    requires |ob.limits| == 0 ==> |ob1.limits| == 0 && ob1.data == ob.data + FramebufferBytes(exr(i))
    ensures SampledSoFar(exr, i, r0, renders1, exact, out0, ob1)
  {
    ClearFlagsNext(i - 1);
  }

  /** How a volume receive ended. */
  datatype Step = Done | Failed | Thrown

  /** How `receive_scene` ended. */
  datatype SceneOutcome =
    | Complete
    /** It returned false. */
    | Refused
    /**
     * A `SceneElement` did not arrive on a closed socket while an element
     * of a skipped type was held: the source skips it again and again and
     * never returns.
     */
    | Stalled
    /** nlohmann::json threw: the process ends. */
    | Crashed

  /** The properties of a `VolumeInfo` payload, when they parse. */
  function Properties(x: Outside, info: seq<byte>): Option<Json.Value>
  {
    x.parse(x.decodeVolumeInfo(info).properties)
  }

  /** The volume type a `VolumeInfo` payload's properties name, when they parse and name one. */
  function VolumeType(x: Outside, info: seq<byte>): Option<string>
  {
    var props := Properties(x, info);
    if props.None? then None else Json.StringMember(props.value, "voltype")
  }

  /**
   * The conversions `receive_volume` makes once the load function was
   * called all succeed: `sampling_rate`, when present, to a float, the
   * value range, and the isovalues or the slice plane.
   */
  predicate Converts(props: Json.Value)
  {
    (Json.HasMember(props, "sampling_rate") ==> Json.ToFloat(props.members["sampling_rate"])) &&
    CoreServer.RangeConverts(props) && CoreServer.RepresentationConverts(props)
  }

  /**
   * Whether `receive_volume` raises on the `VolumeInfo` payload `info` with
   * the load functions `loaders` cached: the properties do not parse or
   * name no string `voltype`, or a load function was found for the type
   * and a setting does not convert.
   */
  predicate Raises(x: Outside, info: seq<byte>, loaders: map<string, CoreServer.Loader>)
  {
    VolumeType(x, info).None? ||
    var t := VolumeType(x, info).value;
    (t in loaders || x.open(PluginFile(t)).Opened?) && !Converts(Properties(x, info).value)
  }

  /**
   * What an element of type `kind` adds to the world, from its `MeshInfo`
   * or `VolumeInfo` payload `info`: one instance of the mesh `g`, placed by
   * the message's matrix, or what the load function `loader` gives, as the
   * volume's properties say; nothing for any other type.
   */
  function Adds(x: Outside, kind: ElementType, info: seq<byte>, g: Server.Geometry, loader: CoreServer.Loader)
    : seq<CoreServer.WorldItem<Volume>>
  {
    match kind
    case MESH => [CoreServer.MeshInstance(g, Affine.FromMatrix(x.decodeMeshInfo(info).object2world))]
    case VOLUME =>
      var vi := x.decodeVolumeInfo(info);
      var props := x.parse(vi.properties);
      if props.None? then [] else VolumeItems(x.load(loader, props.value, vi.object2world), props.value)
    case _ => []
  }

  /**
   * An element of type `kind` took its data off the inbox, from `before`
   * (just after the element's own frame) to `after`: a mesh its `MeshInfo`
   * frame and the arrays it announces, a volume its `VolumeInfo` frame,
   * with properties naming a type and converting; any other type nothing.
   */
  predicate Takes(x: Outside, kind: ElementType, info: seq<byte>, g: Server.Geometry, before: seq<byte>, after: seq<byte>)
  {
    match kind
    case MESH =>
      Server.SizedBy(g, Header(x.decodeMeshInfo(info))) && g.colors.None? &&
      ParseFrame(before) == Some(Split(info, Server.Wire(g) + after))
    case VOLUME =>
      ParseFrame(before) == Some(Split(info, after)) && VolumeType(x, info).Some? && Converts(Properties(x, info).value)
    case _ => after == before
  }

  /**
   * One element of a scene as it went by: whether its `SceneElement` frame
   * arrived, the inbox `at` that frame, its payload `element`, the inbox
   * `from` after the receive, the type `kind` handled, the `info` payload,
   * mesh and load function its handling used, and the inbox `to` after it.
   * When the receive failed the type is the one held before, or, for the
   * first, the default-constructed element's.
   */
  datatype Passage = Passage(framed: bool, at: seq<byte>, element: seq<byte>, from: seq<byte>, kind: ElementType,
                             info: seq<byte>, geometry: Server.Geometry, loader: CoreServer.Loader, to: seq<byte>)

  /** A passage whose frame arrived starts with that frame, and its type is the frame's. */
  predicate Entered(x: Outside, p: Passage)
  {
    if p.framed then |p.element| < U32_LIMIT && p.at == Frame(p.element) + p.from && p.kind == x.decodeElement(p.element)
    else |p.from| <= |p.at|
  }

  /**
   * The element of `p` was handled in full, and `q` follows where it left
   * off, with its own frame or, when that did not arrive, `p`'s type again.
   */
  predicate Link(x: Outside, p: Passage, q: Passage)
  {
    p.kind != NONE && Takes(x, p.kind, p.info, p.geometry, p.from, p.to) && p.to == q.at &&
    (q.framed || q.kind == p.kind)
  }

  /** The world that the elements of `ps` build, in order. */
  function Added(x: Outside, ps: seq<Passage>): seq<CoreServer.WorldItem<Volume>>
  {
    if |ps| == 0 then []
    else
      var p := ps[|ps| - 1];
      Added(x, ps[..|ps| - 1]) + Adds(x, p.kind, p.info, p.geometry, p.loader)
  }

  /** Each element adds at most one item to the world. */
  lemma {:induction false} AddedSize(x: Outside, ps: seq<Passage>)
    ensures |Added(x, ps)| <= |ps|
    decreases |ps|
  {
    if |ps| > 0 {
      AddedSize(x, ps[..|ps| - 1]);
    }
  }

  /** The first passage of a scene: at `start`, with the default type unless its frame arrived. */
  predicate First(x: Outside, start: seq<byte>, p: Passage)
  {
    p.at == start && (p.framed || p.kind == x.defaultElement)
  }

  /**
   * The passages of a scene, in order: the first starts at `start`, each
   * was entered, and each but the last was handled in full and left the
   * inbox where the next one starts.
   */
  predicate Chain(x: Outside, start: seq<byte>, ps: seq<Passage>)
  {
    (|ps| >= 1 ==> First(x, start, ps[0])) &&
    (forall k :: 0 <= k < |ps| ==> Entered(x, ps[k])) &&
    (forall k :: 0 <= k < |ps| - 1 ==> Link(x, ps[k], ps[k + 1]))
  }

  /** A chain of handled passages `ps` followed by `cur`, the element in hand. */
  predicate Chained(x: Outside, start: seq<byte>, ps: seq<Passage>, cur: Passage)
  {
    Entered(x, cur) &&
    (forall k :: 0 <= k < |ps| ==> Entered(x, ps[k])) &&
    (forall k :: 0 <= k < |ps| - 1 ==> Link(x, ps[k], ps[k + 1])) &&
    if |ps| == 0 then First(x, start, cur)
    else First(x, start, ps[0]) && Link(x, ps[|ps| - 1], cur)
  }

  /** The element in hand was handled, adding to the world, and the next one entered. */
  lemma ChainedStep(x: Outside, start: seq<byte>, ps: seq<Passage>, cur: Passage, next: Passage,
                    world: seq<CoreServer.WorldItem<Volume>>)
    requires Chained(x, start, ps, cur) && Link(x, cur, next) && Entered(x, next)
    requires world == Added(x, ps) + Adds(x, cur.kind, cur.info, cur.geometry, cur.loader)
    ensures Chained(x, start, ps + [cur], next) && world == Added(x, ps + [cur])
  {
    assert (ps + [cur])[..|ps|] == ps;
  }

  /** The scene ends with the element in hand, whatever became of it. */
  lemma ChainedDone(x: Outside, start: seq<byte>, ps: seq<Passage>, cur: Passage, last: Passage)
    requires Chained(x, start, ps, cur)
    requires last.framed == cur.framed && last.at == cur.at && last.element == cur.element && last.from == cur.from
    requires last.kind == cur.kind
    ensures Chain(x, start, ps + [last])
  {
  }

  /**
   * How the element loop ended, with the world `world` and the inbox
   * `rest`: complete at the first element of type `NONE`, the world built
   * by the elements before it and, when its frame arrived, the inbox just
   * after that frame; crashed at a volume whose properties raise, refused
   * at a mesh or volume whose receive failed (a mesh then adding nothing),
   * stalled at an element of a skipped type, handled, after which no
   * `SceneElement` arrived on a closed socket.
   */
  predicate Ending(x: Outside, o: SceneOutcome, ps: seq<Passage>, world: seq<CoreServer.WorldItem<Volume>>, rest: seq<byte>)
  {
    |ps| >= 1 &&
    var last := ps[|ps| - 1];
    match o
    case Complete =>
      last.kind == NONE && world == Added(x, ps[..|ps| - 1]) && (last.framed ==> rest == last.from)
    case Crashed =>
      last.kind == VOLUME && world == Added(x, ps[..|ps| - 1])
    case Refused =>
      (last.kind == MESH || last.kind == VOLUME) && (last.kind == MESH ==> world == Added(x, ps[..|ps| - 1]))
    case Stalled =>
      last.kind == OTHER_ELEMENT && last.to == last.from && world == Added(x, ps) && |rest| <= |last.to|
  }

  /** `Ending` for the passages `ps` and then `last`, stated on `ps`. */
  lemma EndingAt(x: Outside, o: SceneOutcome, ps: seq<Passage>, last: Passage,
                 world: seq<CoreServer.WorldItem<Volume>>, rest: seq<byte>)
    requires match o
      case Complete => last.kind == NONE && world == Added(x, ps) && (last.framed ==> rest == last.from)
      case Crashed => last.kind == VOLUME && world == Added(x, ps)
      case Refused => (last.kind == MESH || last.kind == VOLUME) && (last.kind == MESH ==> world == Added(x, ps))
      case Stalled =>
        last.kind == OTHER_ELEMENT && last.to == last.from && world == Added(x, ps) && |rest| <= |last.to|
    ensures Ending(x, o, ps + [last], world, rest)
  {
    assert (ps + [last])[..|ps|] == ps;
  }

  // ---------------------------------------------------------------------
  // The server
  // ---------------------------------------------------------------------

  /** The globals of the server. */
  class ServerState {
    /** `image_settings`, kept from one connection to the next. */
    var imageSettings: CoreServer.ImageSettings
    /** `render_settings.samples()`. */
    var samples: int
    var fb: CoreServer.Framebuffer
    /** `volume_load_functions`. */
    var loaders: map<string, CoreServer.Loader>
    var world: seq<CoreServer.WorldItem<Volume>>
    /** Whether each `render_frame` so far cleared the framebuffer first. */
    var renders: seq<bool>

    /** The server as `main` starts it. */
    constructor ()
      ensures imageSettings == CoreServer.ImageSettings(0, 0) && fb == CoreServer.Framebuffer(0, 0, false, 0)
      ensures samples == 0 && loaders == map[] && world == [] && renders == []
    {
      imageSettings := CoreServer.ImageSettings(0, 0);
      samples := 0;
      fb := CoreServer.Framebuffer(0, 0, false, 0);
      loaders := map[];
      world := [];
      renders := [];
    }

    /**
     * `receive_mesh`: the `MeshInfo` message, then the vertex array, the
     * normals if flagged and the triangles; one instance of the mesh, placed
     * by the message's matrix, joins the world. False as soon as a receive
     * fails, and then the world is as it was.
     */
    method ReceiveMesh(sock: Socket, x: Outside) returns (ok: bool, ghost payload: seq<byte>, ghost g: Server.Geometry)
      modifies this, sock
      ensures ok ==> Server.SizedBy(g, Header(x.decodeMeshInfo(payload))) && g.colors.None? &&
                     ParseFrame(old(sock.inbox.data)) == Some(Split(payload, Server.Wire(g) + sock.inbox.data)) &&
                     world == old(world) + [CoreServer.MeshInstance(g, Affine.FromMatrix(x.decodeMeshInfo(payload).object2world))]
      ensures !ok ==> world == old(world)
      ensures imageSettings == old(imageSettings) && samples == old(samples) && fb == old(fb)
      ensures loaders == old(loaders) && renders == old(renders)
      ensures |sock.inbox.data| <= |old(sock.inbox.data)| && sock.outbox == old(sock.outbox)
      ensures Budget(sock.inbox) <= Budget(old(sock.inbox))
      ensures ok ==> Budget(sock.inbox) < Budget(old(sock.inbox))
    {
      payload, g := [], Server.NEW_GEOMETRY;
      var p := ServerIO.ReceiveProtobuf(sock);
      if p.None? {
        return false, payload, g;
      }
      payload := p.value;
      var info := x.decodeMeshInfo(p.value);
      var arrays := Server.ReceiveMeshArrays(sock, Header(info));
      if arrays.None? {
        return false, payload, g;
      }
      g := arrays.value;
      world := world + [CoreServer.MeshInstance(arrays.value, Affine.FromMatrix(info.object2world))];
      return true, payload, g;
    }

    /**
     * The load function of a volume type: the cached one, or the `load`
     * symbol of `voltype_<type>.so`, which is then cached; none when the
     * plugin does not open or has no `load`.
     */
    method FindLoader(volumeType: string, x: Outside) returns (loader: Option<CoreServer.Loader>)
      modifies this
      ensures volumeType in old(loaders) ==> loader == Some(old(loaders)[volumeType])
      ensures volumeType !in old(loaders) ==>
                loader == (match x.open(PluginFile(volumeType))
                           case Opened(l) => Some(l)
                           case _ => None)
      ensures loaders == if loader.Some? then old(loaders)[volumeType := loader.value] else old(loaders)
      ensures imageSettings == old(imageSettings) && samples == old(samples) && fb == old(fb)
      ensures world == old(world) && renders == old(renders)
    {
      if volumeType in loaders {
        return Some(loaders[volumeType]);
      }
      match x.open(PluginFile(volumeType))
      case Opened(l) =>
        loaders := loaders[volumeType := l];
        return Some(l);
      case _ =>
        return None;
    }

    /**
     * The second half of `receive_volume`: the load function is called and
     * the volume's settings converted, raising when one does not convert;
     * otherwise the volume joins the world as the properties say, and the
     * reply goes out: the digest of the properties text as 40 hex
     * characters, in one `send` whose short count goes unnoticed, then the
     * six floats of the box with `sendall`. `Failed` when a send fails.
     */
    method AddVolume(sock: Socket, x: Outside, info: VolumeInfo, props: Json.Value, loader: CoreServer.Loader)
      returns (step: Step, ghost hashSent: nat)
      modifies this, sock
      ensures step == Thrown <==> !Converts(props)
      ensures step == Thrown ==> world == old(world) && sock.outbox == old(sock.outbox)
      ensures step != Thrown ==> world == old(world) + VolumeItems(x.load(loader, props, info.object2world), props)
      ensures step == Done ==>
                hashSent <= 40 &&
                sock.outbox.data == old(sock.outbox.data) + Latin1(Sha1Hex(x.sha1(info.properties)))[..hashSent] +
                                    FloatsLE(x.load(loader, props, info.object2world).bbox)
      ensures step == Done && |old(sock.outbox.limits)| == 0 ==>
                sock.outbox.data == old(sock.outbox.data) +
                                    VolumeReply(Sha1Hex(x.sha1(info.properties)), x.load(loader, props, info.object2world).bbox)
      ensures Converts(props) && |old(sock.outbox.limits)| == 0 ==> step == Done
      ensures imageSettings == old(imageSettings) && samples == old(samples) && fb == old(fb)
      ensures loaders == old(loaders) && renders == old(renders) && sock.inbox == old(sock.inbox)
    {
      var call := x.load(loader, props, info.object2world);
      if !Converts(props) {
        return Thrown, 0;
      }
      world := world + VolumeItems(call, props);
      var ok;
      ok, hashSent := SendVolumeReply(sock, Sha1Hex(x.sha1(info.properties)), call.bbox);
      step := if ok then Done else Failed;
    }

    /**
     * The reply of `receive_volume`: the hex digest in one `send`, whatever
     * part of it goes out, then the box with `sendall`.
     */
    method SendVolumeReply(sock: Socket, hash: seq<char>, bbox: Box) returns (ok: bool, ghost hashSent: nat)
      requires |hash| == 40 && AllHex(hash)
      modifies sock
      ensures ok ==> hashSent <= 40 && sock.outbox.data == old(sock.outbox.data) + Latin1(hash)[..hashSent] + FloatsLE(bbox)
      ensures ok && |old(sock.outbox.limits)| == 0 ==> sock.outbox.data == old(sock.outbox.data) + VolumeReply(hash, bbox)
      ensures |old(sock.outbox.limits)| == 0 ==> ok
      ensures sock.inbox == old(sock.inbox)
    {
      hashSent := 0;
      var bytes := Latin1(hash);
      var sent := sock.Send(bytes);
      if sent == -1 {
        return false, hashSent;
      }
      hashSent := sent;
      var res := sock.SendAll(FloatsLE(bbox));
      if res == -1 {
        return false, hashSent;
      }
      if |old(sock.outbox.limits)| == 0 {
        assert bytes[..hashSent] == bytes;
      }
      return true, hashSent;
    }

    /**
     * `receive_volume`: the `VolumeInfo` message, then the load function of
     * the type under the properties' `voltype`, which `AddVolume` calls.
     * False when the message does not arrive, the plugin has no load
     * function or a send fails; it raises exactly as `Raises` says, once
     * the message arrived.
     */
    method ReceiveVolume(sock: Socket, x: Outside)
      returns (o: Step, ghost arrived: bool, ghost payload: seq<byte>, ghost loader: CoreServer.Loader)
      modifies this, sock
      ensures arrived ==> ParseFrame(old(sock.inbox.data)) == Some(Split(payload, sock.inbox.data))
      ensures !arrived ==> o == Failed && world == old(world) && loaders == old(loaders)
      ensures arrived ==> (o == Thrown <==> Raises(x, payload, old(loaders)))
      ensures o == Done ==> VolumeType(x, payload).Some? && VolumeType(x, payload).value in loaders &&
                            loaders[VolumeType(x, payload).value] == loader && Converts(Properties(x, payload).value) &&
                            world == old(world) + Adds(x, VOLUME, payload, Server.NEW_GEOMETRY, loader)
      ensures forall t :: t in old(loaders) ==> t in loaders && loaders[t] == old(loaders)[t]
      ensures o == Done ==> (
                var info := x.decodeVolumeInfo(payload);
                var props := x.parse(info.properties).value;
                Json.StringMember(props, "voltype").Some? && Json.StringMember(props, "voltype").value in loaders &&
                world == old(world) + VolumeItems(x.load(loaders[Json.StringMember(props, "voltype").value], props, info.object2world), props))
      ensures o != Done ==> |world| <= |old(world)| + 1
      ensures o == Thrown ==> world == old(world) && sock.outbox == old(sock.outbox)
      ensures imageSettings == old(imageSettings) && samples == old(samples) && fb == old(fb) && renders == old(renders)
      ensures |sock.inbox.data| <= |old(sock.inbox.data)|
      ensures Budget(sock.inbox) <= Budget(old(sock.inbox))
      ensures arrived ==> Budget(sock.inbox) < Budget(old(sock.inbox))
    {
      arrived, payload, loader := false, [], CoreServer.Loader(0);
      var p := ServerIO.ReceiveProtobuf(sock);
      if p.None? {
        return Failed, arrived, payload, loader;
      }
      arrived, payload := true, p.value;
      var info := x.decodeVolumeInfo(p.value);
      var parsed := x.parse(info.properties);
      if parsed.None? {
        return Thrown, arrived, payload, loader;
      }
      var volumeType := Json.StringMember(parsed.value, "voltype");
      if volumeType.None? {
        return Thrown, arrived, payload, loader;
      }
      var found := FindLoader(volumeType.value, x);
      if found.None? {
        return Failed, arrived, payload, loader;
      }
      loader := found.value;
      ghost var hashSent;
      o, hashSent := AddVolume(sock, x, info, parsed.value, found.value);
    }

    /**
     * The image settings of `receive_scene`, and the framebuffer resized to
     * them.
     */
    method ReceiveImageSettings(sock: Socket, x: Outside) returns (image: Option<seq<byte>>)
      modifies this, sock
      ensures imageSettings == if image.Some? then x.decodeImage(image.value) else old(imageSettings)
      ensures fb == CoreServer.Resize(old(fb), imageSettings)
      ensures image.Some? ==> ParseFrame(old(sock.inbox.data)).Some? &&
                              ParseFrame(old(sock.inbox.data)).value.payload == image.value
      ensures loaders == old(loaders) && world == old(world) && renders == old(renders) && samples == old(samples)
      ensures |sock.inbox.data| <= |old(sock.inbox.data)|
    {
      image := ServerIO.ReceiveProtobuf(sock);
      if image.Some? {
        imageSettings := x.decodeImage(image.value);
      }
      fb := CoreServer.Resize(fb, imageSettings);
    }

    /**
     * The settings at the head of `receive_scene`: image, render, camera and
     * light settings, one message each, none of the receives checked. A
     * message that does not arrive leaves the settings from before; the
     * framebuffer is then made to match the image settings.
     */
    method ReceiveSettings(sock: Socket, x: Outside) returns (image: Option<seq<byte>>, render: Option<seq<byte>>)
      modifies this, sock
      ensures imageSettings == if image.Some? then x.decodeImage(image.value) else old(imageSettings)
      ensures fb == CoreServer.Resize(old(fb), imageSettings)
      ensures samples == if render.Some? then x.decodeSamples(render.value) else old(samples)
      ensures image.Some? ==> ParseFrame(old(sock.inbox.data)).Some? &&
                              ParseFrame(old(sock.inbox.data)).value.payload == image.value
      ensures loaders == old(loaders) && world == old(world) && renders == old(renders)
      ensures |sock.inbox.data| <= |old(sock.inbox.data)|
    {
      image := ReceiveImageSettings(sock, x);
      render := ServerIO.ReceiveProtobuf(sock);
      if render.Some? {
        samples := x.decodeSamples(render.value);
      }
      var camera := ServerIO.ReceiveProtobuf(sock);
      var lights := ServerIO.ReceiveProtobuf(sock);
    }

    /**
     * One element of `receive_scene`'s loop: a mesh or a volume is received,
     * any other type is skipped. `Failed` when the mesh or volume receive
     * returns false, `Thrown` when the volume raises, exactly as `Raises`
     * says once its message `arrived`. A handled element took its data off
     * the inbox as `Takes` says and added to the world what `Adds` says, a
     * volume with the load function now cached for its type; a mesh that
     * failed or a volume that raised added nothing.
     */
    method ReceiveElement(sock: Socket, x: Outside, element: ElementType)
      returns (step: Step, ghost arrived: bool, ghost info: seq<byte>, ghost g: Server.Geometry, ghost loader: CoreServer.Loader)
      modifies this, sock
      ensures step == Thrown ==> element == VOLUME && arrived && Raises(x, info, old(loaders))
      ensures element == VOLUME && arrived ==> (step == Thrown <==> Raises(x, info, old(loaders)))
      ensures step != Done ==> element == MESH || element == VOLUME
      ensures step == Done ==> Takes(x, element, info, g, old(sock.inbox.data), sock.inbox.data) &&
                               world == old(world) + Adds(x, element, info, g, loader)
      ensures step == Done && element == VOLUME ==>
                VolumeType(x, info).value in loaders && loaders[VolumeType(x, info).value] == loader
      ensures step == Thrown || (step == Failed && element == MESH) ==> world == old(world)
      ensures renders == old(renders)
      ensures |sock.inbox.data| <= |old(sock.inbox.data)|
      ensures Budget(sock.inbox) <= Budget(old(sock.inbox))
      ensures step == Done && (element == MESH || element == VOLUME) ==> Budget(sock.inbox) < Budget(old(sock.inbox))
    {
      step, arrived, info, g, loader := Done, false, [], Server.NEW_GEOMETRY, CoreServer.Loader(0);
      if element == MESH {
        var ok;
        ok, info, g := ReceiveMesh(sock, x);
        if !ok {
          step := Failed;
        }
      } else if element == VOLUME {
        step, arrived, info, loader := ReceiveVolume(sock, x);
      }
    }

    /**
     * `receive_scene`: the settings, then a new world filled from scene
     * elements by `ReceiveElements`.
     */
    method ReceiveScene(sock: Socket, x: Outside) returns (o: SceneOutcome, ghost start: seq<byte>, ghost passages: seq<Passage>)
      modifies this, sock
      ensures |start| <= |old(sock.inbox.data)|
      ensures Chain(x, start, passages) && Ending(x, o, passages, world, sock.inbox.data)
      ensures o == Stalled ==> sock.inbox.closed
      ensures renders == old(renders)
    {
      var image, render := ReceiveSettings(sock, x);
      world := [];
      start := sock.inbox.data;
      o, passages := ReceiveElements(sock, x);
    }

    /**
     * The element loop of `receive_scene`, on a new world: elements are
     * handled until one of type `NONE`. No `SceneElement` receive is
     * checked: when one fails, the element held is handled again, and
     * before the first that is a default-constructed element. `passages`
     * are the elements handled, in order: the first starts at the head of
     * the inbox, each later one where the one before it left the inbox,
     * with its own frame or the type before it again, and each but the
     * last was handled in full, so the inbox a complete scene whose frames
     * all arrived consumed is its element frames, each followed by its
     * element's data; the world is what those elements added. A mesh or
     * volume held when the socket closed is refused at its next receive.
     * How the loop ended is told by `Ending`; a stalled loop is left on a
     * closed socket.
     */
    method ReceiveElements(sock: Socket, x: Outside) returns (o: SceneOutcome, ghost passages: seq<Passage>)
      requires world == []
      modifies this, sock
      ensures Chain(x, old(sock.inbox.data), passages) && Ending(x, o, passages, world, sock.inbox.data)
      ensures o == Stalled ==> sock.inbox.closed
      ensures renders == old(renders)
    {
      ghost var start := sock.inbox.data;
      passages := [];
      var element, arrived;
      ghost var cur;
      element, arrived, cur := NextElement(sock, x, x.defaultElement);
      while element != NONE
        invariant Chained(x, start, passages, cur) && element == cur.kind
        invariant sock.inbox.data == cur.from && world == Added(x, passages) && renders == old(renders)
        decreases Budget(sock.inbox)
      {
        var step, infoArrived, info, g, loader := ReceiveElement(sock, x, element);
        ghost var done := cur.(info := info, geometry := g, loader := loader, to := sock.inbox.data);
        if step == Thrown {
          ChainedDone(x, start, passages, cur, done);
          EndingAt(x, Crashed, passages, done, world, sock.inbox.data);
          return Crashed, passages + [done];
        } else if step == Failed {
          ChainedDone(x, start, passages, cur, done);
          EndingAt(x, Refused, passages, done, world, sock.inbox.data);
          return Refused, passages + [done];
        }
        var held := element;
        ghost var next;
        element, arrived, next := NextElement(sock, x, held);
        if !arrived && held == OTHER_ELEMENT && sock.inbox.closed {
          ChainedDone(x, start, passages, cur, done);
          EndingAt(x, Stalled, passages, done, world, sock.inbox.data);
          return Stalled, passages + [done];
        }
        ChainedStep(x, start, passages, done, next, world);
        passages, cur := passages + [done], next;
      }
      ChainedDone(x, start, passages, cur, cur);
      EndingAt(x, Complete, passages, cur, world, sock.inbox.data);
      return Complete, passages + [cur];
    }

    /**
     * The unchecked `SceneElement` receive of `receive_scene`: the type of
     * the element whose frame arrived, or else the type `held`. `next` is
     * the passage that starts with it.
     */
    method NextElement(sock: Socket, x: Outside, held: ElementType)
      returns (element: ElementType, arrived: bool, ghost next: Passage)
      modifies sock
      ensures Entered(x, next) && next.framed == arrived && next.kind == element && (arrived || element == held)
      ensures next.at == old(sock.inbox.data) && next.from == sock.inbox.data && next.to == sock.inbox.data
      ensures next.info == [] && next.geometry == Server.NEW_GEOMETRY && next.loader == CoreServer.Loader(0)
      ensures !old(sock.inbox.closed) ==> Budget(sock.inbox) < Budget(old(sock.inbox))
      ensures old(sock.inbox.closed) ==> sock.inbox == old(sock.inbox)
    {
      var payload := ServerIO.ReceiveProtobuf(sock);
      next := Passage(false, old(sock.inbox.data), [], sock.inbox.data, held, [], Server.NEW_GEOMETRY,
                      CoreServer.Loader(0), sock.inbox.data);
      element, arrived := held, false;
      if payload.Some? {
        FrameOfParseFrame(old(sock.inbox.data));
        element, arrived := x.decodeElement(payload.value), true;
        next := next.(framed := true, element := payload.value, kind := element);
      }
    }

    /**
     * `send_framebuffer`: one `send` of the file's size, its result not
     * looked at, then the file. Over a socket that accepts every send whole,
     * exactly `FramebufferBytes(file)` goes out.
     */
    method SendFramebuffer(sock: Socket, file: seq<byte>)
      modifies sock
      ensures |old(sock.outbox.limits)| == 0 ==> sock.outbox.data == old(sock.outbox.data) + FramebufferBytes(file)
      ensures |old(sock.outbox.limits)| == 0 ==> |sock.outbox.limits| == 0
      ensures sock.inbox == old(sock.inbox)
    {
      var r := sock.Send(LE32(|file| % U32_LIMIT));
      var res := sock.SendAll(file);
    }

    /**
     * The sample loop of `main`: for samples 1 to N, a frame (which clears
     * the framebuffer only for the first sample), then the framebuffer
     * written after it, `exr(i)`, is sent.
     */
    method RenderSamples(sock: Socket, exr: nat -> seq<byte>)
      modifies this, sock
      ensures renders == old(renders) + ClearFlags(samples)
      ensures |old(sock.outbox.limits)| == 0 ==> sock.outbox.data == old(sock.outbox.data) + Framebuffers(exr, samples)
      ensures imageSettings == old(imageSettings) && samples == old(samples) && fb == old(fb)
      ensures loaders == old(loaders) && world == old(world)
      ensures sock.inbox == old(sock.inbox)
    {
      ghost var exact := |sock.outbox.limits| == 0;
      var i := 1;
      while i <= samples
        invariant 1 <= i && (samples >= 1 ==> i <= samples + 1) && (samples < 1 ==> i == 1)
        invariant SampledSoFar(exr, i - 1, old(renders), renders, exact, old(sock.outbox.data), sock.outbox)
        invariant imageSettings == old(imageSettings) && samples == old(samples) && fb == old(fb)
        invariant loaders == old(loaders) && world == old(world)
        invariant sock.inbox == old(sock.inbox)
      {
        ghost var r, ob := renders, sock.outbox;
        RenderSample(sock, exr, i);
        SampleStep(exr, i, old(renders), r, renders, exact, old(sock.outbox.data), ob, sock.outbox);
        i := i + 1;
      }
    }

    /** Sample `i` of the loop in `main`: its frame, then its framebuffer sent. */
    method RenderSample(sock: Socket, exr: nat -> seq<byte>, i: nat)
      modifies this, sock
      ensures renders == old(renders) + [i == 1]
      ensures |old(sock.outbox.limits)| == 0 ==>
                |sock.outbox.limits| == 0 && sock.outbox.data == old(sock.outbox.data) + FramebufferBytes(exr(i))
      ensures imageSettings == old(imageSettings) && samples == old(samples) && fb == old(fb)
      ensures loaders == old(loaders) && world == old(world)
      ensures sock.inbox == old(sock.inbox)
    {
      renders := renders + [i == 1];
      SendFramebuffer(sock, exr(i));
    }

    /**
     * One connection of `main`: the scene, then, when it came whole, every
     * sample rendered and sent; when `receive_scene` returned false the
     * socket is closed. A stalled scene never hands control back.
     */
    method Serve(sock: Socket, x: Outside, exr: nat -> seq<byte>) returns (o: SceneOutcome, closed: bool)
      modifies this, sock
      ensures closed <==> o == Refused
      ensures o == Complete ==> renders == old(renders) + ClearFlags(samples)
      ensures o != Complete ==> renders == old(renders)
    {
      ghost var start, passages;
      o, start, passages := ReceiveScene(sock, x);
      closed := o == Refused;
      if o == Complete {
        RenderSamples(sock, exr);
      }
    }
  }
}
