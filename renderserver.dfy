/**
 * The render side of the scene server in `server/main.cpp`, protocol
 * version 2: the `HELLO` handshake, the framebuffer settings, the dispatch
 * of client messages, and the progressive render loop of
 * `handle_connection`.
 *
 * A render starts at sample 1 and at the client's reduction factor. After
 * each frame the factor is halved until it reaches 1, and only then does
 * the sample count go up; the render is done once the last sample has been
 * rendered at full resolution. In final mode the frame is saved to a file
 * and sent every `rate` samples and always for the last sample.
 */
module RenderServer {
  import opened Bytes
  import opened Wrappers
  import opened TcpSocket
  import opened Framing
  import Text
  import Server
  import ServerIO
  import BoundingMesh
  import Plugin2

  // ---------------------------------------------------------------------
  // Integers as C sees them
  // ---------------------------------------------------------------------

  /** The protocol version this server speaks. */
  const PROTOCOL_VERSION: u32 := 2

  /**
   * A `uint32_t` read as a two's-complement 32-bit `int`: what an
   * assignment to an `int` keeps and what `%d` prints.
   */
  function Int32(x: u32): (i: int)
    ensures -0x8000_0000 <= i < 0x8000_0000
    ensures (i + U32_LIMIT) % U32_LIMIT == x
  {
    if x < 0x8000_0000 then x as int else x as int - U32_LIMIT
  }

  /** Two words that read as the same `int` are the same word. */
  lemma Int32Injective(a: u32, b: u32)
    requires Int32(a) == Int32(b)
    ensures a == b
  {
  }

  /** `%d` of an `int`: a minus sign for negative values, then the decimal digits. */
  function Decimal(i: int): (s: string)
    ensures |s| > 0
  {
    if i < 0 then "-" + Text.NatToString(-i) else Text.NatToString(i)
  }

  /** Different integers print differently. */
  lemma DecimalInjective(a: int, b: int)
    requires Decimal(a) == Decimal(b)
    ensures a == b
  {
    if a < 0 && b < 0 {
      assert Text.NatToString(-a) == Decimal(a)[1..];
      Text.NatToStringInjective(-a, -b);
    } else if a >= 0 && b >= 0 {
      Text.NatToStringInjective(a, b);
    }
  }

  /** C's `/` on `int`: the quotient rounded toward zero. */
  function CDiv(a: int, b: int): int
    requires b != 0
  {
    if a >= 0 then (if b > 0 then a / b else -(a / -b))
    else (if b > 0 then -(-a / b) else -a / -b)
  }

  // ---------------------------------------------------------------------
  // HELLO
  // ---------------------------------------------------------------------

  /** The `HelloResult` reply. */
  datatype HelloResult = HelloResult(success: bool, message: string)

  /** The failure text of `handle_hello`, with the client's version printed by `%d`. */
  function VersionMismatch(clientVersion: u32): (m: string)
    ensures |m| > 0
  {
    "Client protocol version " + Decimal(Int32(clientVersion)) +
    " does not match our protocol version " + Decimal(Int32(PROTOCOL_VERSION))
  }

  /**
   * `handle_hello`: success exactly when the client speaks this server's
   * version; otherwise a message naming both versions.
   */
  function HandleHello(clientVersion: u32): (r: HelloResult)
    ensures r.success <==> clientVersion == PROTOCOL_VERSION
    ensures r.success ==> r.message == ""
    ensures !r.success ==> r.message == VersionMismatch(clientVersion)
  {
    if clientVersion != PROTOCOL_VERSION then HelloResult(false, VersionMismatch(clientVersion))
    else HelloResult(true, "")
  }

  /** A refusal names the client's version: two clients refused with the same text sent the same version. */
  lemma {:induction false} RefusalNamesVersion(a: u32, b: u32)
    requires !HandleHello(a).success && !HandleHello(b).success
    requires HandleHello(a).message == HandleHello(b).message
    ensures a == b
  {
    var prefix := "Client protocol version ";
    var suffix := " does not match our protocol version " + Decimal(Int32(PROTOCOL_VERSION));
    var m := HandleHello(a).message;
    assert m == prefix + Decimal(Int32(a)) + suffix;
    assert m == prefix + Decimal(Int32(b)) + suffix;
    assert |Decimal(Int32(a))| == |Decimal(Int32(b))|;
    assert Decimal(Int32(a)) == m[|prefix|..|m| - |suffix|] == Decimal(Int32(b));
    DecimalInjective(Int32(a), Int32(b));
    Int32Injective(a, b);
  }

  /** A version word of 2^31 or more is printed negative, as `%d` prints a `uint32_t`. */
  lemma {:induction false} RefusalPrintsLargeVersionNegative(v: u32)
    requires v >= 0x8000_0000
    ensures HandleHello(v).message[|"Client protocol version "|] == '-'
  {
    var prefix := "Client protocol version ";
    var d := Decimal(Int32(v));
    var rest := d + " does not match our protocol version " + Decimal(Int32(PROTOCOL_VERSION));
    assert d[0] == '-';
    assert rest[0] == '-';
    assert HandleHello(v).message == prefix + rest;
  }

  // ---------------------------------------------------------------------
  // Progressive rendering
  // ---------------------------------------------------------------------

  /** After a frame: the render is done, or the next sample and reduction factor to render. */
  datatype Next = Finished | Continue(sample: int, factor: int)

  /**
   * The check at the end of a frame in `handle_connection`: done after the
   * last sample at factor 1; otherwise a factor above 1 is halved and the
   * same sample rendered again at the higher resolution, and at factor 1
   * (or below) the sample count goes up.
   */
  function AfterFrame(samples: int, sample: int, factor: int): (r: Next)
    ensures r.Finished? <==> sample == samples && factor == 1
    ensures r.Continue? && factor > 1 ==> r.sample == sample && 2 * r.factor <= factor < 2 * r.factor + 2
    ensures r.Continue? && factor <= 1 ==> r.sample == sample + 1 && r.factor == factor
    ensures r.Continue? && factor >= 1 ==> 1 <= r.factor <= factor
  {
    if sample == samples && factor == 1 then Finished
    else if factor > 1 then Continue(sample, factor / 2)
    else Continue(sample + 1, factor)
  }

  /**
   * The (sample, factor) of every frame rendered from the given point until
   * the render is done.
   */
  function Frames(samples: int, sample: int, factor: int): seq<(int, int)>
    requires 1 <= factor && sample <= samples
    decreases samples - sample, factor
  {
    [(sample, factor)] +
    match AfterFrame(samples, sample, factor)
    case Finished => []
    case Continue(s, f) => Frames(samples, s, f)
  }

  /** The frames at reduced resolution: the factor and its halvings down to 2, all of one sample. */
  function Halvings(sample: int, factor: int): seq<(int, int)>
    decreases factor
  {
    if factor <= 1 then [] else [(sample, factor)] + Halvings(sample, factor / 2)
  }

  /** The full-resolution frames of samples `first` to `last`, in order. */
  function Samples(first: int, last: int): seq<(int, int)>
    decreases last - first
  {
    if first > last then [] else [(first, 1)] + Samples(first + 1, last)
  }

  /** How often a factor can be halved before it reaches 1. */
  function Log2(factor: int): (n: nat)
    decreases factor
  {
    if factor <= 1 then 0 else 1 + Log2(factor / 2)
  }

  /**
   * A render runs its reduced-resolution frames of the first sample, each
   * at half the factor of the one before, and then every sample to the last
   * at full resolution, in order.
   */
  lemma {:induction false} FramesInOrder(samples: int, sample: int, factor: int)
    requires 1 <= factor && sample <= samples
    ensures Frames(samples, sample, factor) == Halvings(sample, factor) + Samples(sample, samples)
    decreases samples - sample, factor
  {
    if factor > 1 {
      assert AfterFrame(samples, sample, factor) == Continue(sample, factor / 2);
      FramesInOrder(samples, sample, factor / 2);
    } else if sample < samples {
      assert AfterFrame(samples, sample, factor) == Continue(sample + 1, factor);
      FramesInOrder(samples, sample + 1, factor);
      assert Halvings(sample, factor) == [];
    } else {
      assert AfterFrame(samples, sample, factor) == Finished;
      assert Samples(sample + 1, samples) == [];
    }
  }

  lemma {:induction false} HalvingsLength(sample: int, factor: int)
    ensures |Halvings(sample, factor)| == Log2(factor)
    decreases factor
  {
    if factor > 1 {
      HalvingsLength(sample, factor / 2);
    }
  }

  lemma {:induction false} SamplesLength(first: int, last: int)
    requires first <= last + 1
    ensures |Samples(first, last)| == last - first + 1
    decreases last - first
  {
    if first <= last {
      SamplesLength(first + 1, last);
    }
  }

  /**
   * A render of `samples` samples started at factor `factor` takes
   * `Log2(factor) + samples` frames, and its last frame is the last sample
   * at full resolution.
   */
  lemma {:induction false} RenderLength(samples: int, factor: int)
    requires 1 <= factor && 1 <= samples
    ensures |Frames(samples, 1, factor)| == Log2(factor) + samples
    ensures Frames(samples, 1, factor)[|Frames(samples, 1, factor)| - 1] == (samples, 1)
  {
    FramesInOrder(samples, 1, factor);
    HalvingsLength(1, factor);
    SamplesLength(1, samples);
    assert Samples(samples, samples) == [(samples, 1)];
    SamplesLast(1, samples);
  }

  lemma {:induction false} SamplesLast(first: int, last: int)
    requires first <= last
    ensures Samples(first, last)[|Samples(first, last)| - 1] == (last, 1)
    decreases last - first
  {
    if first < last {
      SamplesLast(first + 1, last);
    }
  }

  /** The point a render has reached after `n` more frames. */
  function After(samples: int, sample: int, factor: int, n: nat): Next
    decreases n
  {
    if n == 0 then Continue(sample, factor)
    else match AfterFrame(samples, sample, factor)
      case Finished => Finished
      case Continue(s, f) => After(samples, s, f, n - 1)
  }

  /**
   * A render that is already past its last sample never finishes: with
   * `render_samples` 0, the server renders until the client cancels.
   */
  lemma {:induction false} PastLastSampleNeverFinishes(samples: int, sample: int, factor: int, n: nat)
    requires samples < sample
    ensures After(samples, sample, factor, n).Continue?
    decreases n
  {
    if n > 0 {
      var next := AfterFrame(samples, sample, factor);
      PastLastSampleNeverFinishes(samples, next.sample, next.factor, n - 1);
    }
  }

  // ---------------------------------------------------------------------
  // Final-mode frames
  // ---------------------------------------------------------------------

  /**
   * In final mode a frame is saved and sent when the update rate is set and
   * divides the sample number, and always for the last sample.
   */
  predicate SendsFile(rate: int, sample: int, samples: int)
    requires sample >= 1
  {
    (rate > 0 && sample % rate == 0) || sample == samples
  }

  /** How many of the samples 1 to `k` of a final render send their frame. */
  function FilesSent(rate: int, samples: int, k: nat): nat
  {
    if k == 0 then 0 else FilesSent(rate, samples, k - 1) + if SendsFile(rate, k, samples) then 1 else 0
  }

  /** Quotient and remainder are the only ones with `k == q * r + m` and `0 <= m < r`. */
  lemma DivUnique(k: int, r: int, q: int, m: int)
    requires 0 < r && 0 <= m < r && k == q * r + m
    ensures k / r == q && k % r == m
  {
    var q' := k / r;
    if q' > q {
      MulLt(q, q', r);
    } else if q' < q {
      MulLt(q', q, r);
    }
  }

  lemma MulLt(a: int, b: int, r: int)
    requires a < b && 0 < r
    ensures a * r + r <= b * r
  {
    assert a * r + r == (a + 1) * r;
  }

  /** Going from `k - 1` to `k`, the quotient by `r` goes up exactly when `r` divides `k`. */
  lemma DivStep(k: int, r: int)
    requires 1 <= k && 0 < r
    ensures k / r == (k - 1) / r + if k % r == 0 then 1 else 0
  {
    var q := (k - 1) / r;
    var m := (k - 1) % r;
    if m == r - 1 {
      DivUnique(k, r, q + 1, 0);
    } else {
      DivUnique(k, r, q, m + 1);
    }
  }

  /** Before the last sample, the frames sent are those of the multiples of the rate. */
  lemma {:induction false} FilesSentBeforeLast(rate: int, samples: int, k: nat)
    requires 0 < rate && k < samples
    ensures FilesSent(rate, samples, k) == k / rate
  {
    if k > 0 {
      FilesSentBeforeLast(rate, samples, k - 1);
      DivStep(k, rate);
    }
  }

  /**
   * A final render of `samples` samples sends `samples / rate` frames, plus
   * the last one when the rate does not divide it; without an update rate it
   * sends only the last frame.
   */
  lemma {:induction false} FilesSentByRender(rate: int, samples: nat)
    requires 1 <= samples
    ensures rate > 0 ==> FilesSent(rate, samples, samples) == samples / rate + if samples % rate == 0 then 0 else 1
    ensures rate <= 0 ==> FilesSent(rate, samples, samples) == 1
  {
    if rate > 0 {
      FilesSentBeforeLast(rate, samples, samples - 1);
      DivStep(samples, rate);
    } else {
      NoRateSendsNothingEarly(rate, samples, samples - 1);
    }
  }

  lemma {:induction false} NoRateSendsNothingEarly(rate: int, samples: int, k: nat)
    requires rate <= 0 && k < samples
    ensures FilesSent(rate, samples, k) == 0
  {
    if k > 0 {
      NoRateSendsNothingEarly(rate, samples, k - 1);
    }
  }

  /** `%04d`: the digits of `n`, padded with zeros on the left to at least four characters. */
  function Pad4(n: nat): (s: string)
    ensures |s| >= 4 && forall k :: 0 <= k < |s| ==> Text.IsDigit(s[k])
  {
    ZeroPad(Text.NatToString(n), 4)
  }

  function ZeroPad(s: string, width: nat): (r: string)
    requires forall k :: 0 <= k < |s| ==> Text.IsDigit(s[k])
    ensures |r| >= width && forall k :: 0 <= k < |r| ==> Text.IsDigit(r[k])
    ensures Text.ParseDigits(r) == Text.ParseDigits(s)
    decreases width - |s|
  {
    if |s| >= width then s
    else
      LeadingZero(s);
      ZeroPad("0" + s, width)
  }

  /** A leading zero does not change the value of a digit string. */
  lemma {:induction false} LeadingZero(s: string)
    requires forall k :: 0 <= k < |s| ==> Text.IsDigit(s[k])
    ensures Text.ParseDigits("0" + s) == Text.ParseDigits(s)
    decreases |s|
  {
    var z := "0" + s;
    if s != [] {
      assert z[..|z| - 1] == "0" + s[..|s| - 1];
      LeadingZero(s[..|s| - 1]);
    } else {
      assert z[..|z| - 1] == [];
    }
  }

  /** The file a final frame is saved to before it is sent. */
  function FinalFileName(sample: nat): (name: string)
  {
    "/dev/shm/blospray-final-" + Pad4(sample) + ".exr"
  }

  /** Every sample of a final render is saved to a file of its own. */
  lemma {:induction false} FinalFileNamesDiffer(a: nat, b: nat)
    requires FinalFileName(a) == FinalFileName(b)
    ensures a == b
  {
    var prefix := "/dev/shm/blospray-final-";
    var n := FinalFileName(a);
    assert n == prefix + Pad4(a) + ".exr" == prefix + Pad4(b) + ".exr";
    assert |Pad4(a)| == |Pad4(b)|;
    assert Pad4(a) == n[|prefix|..|n| - 4] == Pad4(b);
    Text.ParseNatToString(a);
    Text.ParseNatToString(b);
  }

  // ---------------------------------------------------------------------
  // Messages and replies
  // ---------------------------------------------------------------------

  datatype RenderMode = RM_IDLE | RM_FINAL | RM_INTERACTIVE

  /** Framebuffer dimensions in pixels. */
  datatype Dims = Dims(width: int, height: int)

  /** Where a reply goes: the connection's own socket, or the separate render output socket. */
  datatype Channel = MainSocket | OutputSocket

  /** The `RenderResult` message. */
  datatype RenderResult =
    | FRAME(sample: int, reductionFactor: int, width: int, height: int, fileName: string, fileSize: int)
    | CANCELED
    | DONE

  /**
   * What the server writes to a socket, in order: a reply message or the raw
   * data after one. `ServerState` is the `ServerStateResult` message, whose
   * JSON text is left opaque.
   */
  datatype Reply =
    | Hello(hello: HelloResult)
    | PluginResult(result: Server.GenerateFunctionResult)
    | Bound(bound: Server.BoundReply)
    | Result(rendered: RenderResult)
    | ExrFile(fileName: string)
    | Pixels(size: int)
    | ServerState

  datatype Sent = Sent(channel: Channel, reply: Reply)

  datatype MessageType =
    | HELLO | BYE | QUIT | UPDATE_RENDERER_TYPE | CLEAR_SCENE | UPDATE_RENDER_SETTINGS | UPDATE_WORLD_SETTINGS
    | UPDATE_PLUGIN_INSTANCE | UPDATE_BLENDER_MESH | UPDATE_OBJECT | UPDATE_FRAMEBUFFER | UPDATE_CAMERA
    | UPDATE_MATERIAL | GET_SERVER_STATE | QUERY_BOUND | START_RENDERING | CANCEL_RENDERING
    | REQUEST_RENDER_OUTPUT | UNHANDLED

  /** The `ClientMessage` fields the server reads. */
  datatype ClientMessage = ClientMessage(kind: MessageType, uintValue: u32, uintValue2: u32, uintValue3: u32,
                                         stringValue: string)

  /** The messages whose handling starts by stopping any render. */
  predicate StopsRender(kind: MessageType)
  {
    kind in {BYE, QUIT, UPDATE_RENDERER_TYPE, CLEAR_SCENE, UPDATE_RENDER_SETTINGS, UPDATE_WORLD_SETTINGS,
             UPDATE_PLUGIN_INSTANCE, UPDATE_BLENDER_MESH, UPDATE_OBJECT, UPDATE_FRAMEBUFFER, UPDATE_CAMERA,
             UPDATE_MATERIAL}
  }

  /**
   * What the server does not compute itself: decoding the protobuf
   * payloads, the SHA-1 digest, and what a plugin library does when it is
   * loaded (by internal name) and asked to generate. `objectFollowed` says
   * of an `UpdateObject` payload whether its type (volume, slices or light)
   * makes a second message follow; `materialFollowed` says the same of a
   * `MaterialUpdate` of a known type, followed by its settings.
   */
  datatype Outside = Outside(
    decodeMessage: seq<byte> -> Option<ClientMessage>,
    decodeUpdate: seq<byte> -> Option<Server.PluginUpdate>,
    decodeMesh: seq<byte> -> Option<Server.MeshHeader>,
    digest: string -> string,
    load: string -> Server.LoadOutcome,
    generate: Server.PluginUpdate -> Server.Generation,
    objectFollowed: seq<byte> -> bool,
    materialFollowed: seq<byte> -> bool)

  /** Whether the first message of an object or material update is followed by a second one. */
  predicate Followed(x: Outside, kind: MessageType, payload: seq<byte>)
  {
    (kind == UPDATE_OBJECT && x.objectFollowed(payload)) || (kind == UPDATE_MATERIAL && x.materialFollowed(payload))
  }

  /**
   * What an object or material update leaves of the inbox `data`: the
   * update's frame is consumed, and the frame of a second message after it
   * when the update says one follows.
   */
  predicate ConsumesUpdate(x: Outside, kind: MessageType, data: seq<byte>, left: seq<byte>)
    requires ParseFrame(data).Some?
  {
    var first := ParseFrame(data).value;
    if Followed(x, kind, first.payload) then
      ParseFrame(first.rest).Some? ==> left == ParseFrame(first.rest).value.rest
    else left == first.rest
  }

  /** Every bound a plugin sets has counts that fit 32 bits. */
  ghost predicate BoundsFit(x: Outside)
  {
    forall u :: x.generate(u).bound.Some? ==> BoundingMesh.Encodable(x.generate(u).bound.value)
  }

  /**
   * How handling a message, or one turn of the connection loop, ends: carry
   * on, return from `handle_connection` with a result, or stop the process
   * (a failed `assert`, or behaviour C leaves undefined).
   */
  datatype Outcome = Carry | Return(result: bool) | Abort

  /** The render progress: mode, sample count, current sample and factor, final-mode update rate, current size. */
  datatype Render = Render(mode: RenderMode, samples: int, sample: int, factor: int, rate: int, reduced: Dims,
                           cancel: bool)

  /** `framebuffers` as `start_rendering` builds it: entry `k` for reduction factor `k`, entry 0 unused. */
  predicate IsLadder(buffers: seq<Option<Dims>>, size: Dims, factor: int)
  {
    |buffers| == (if factor > 0 then factor else 0) + 1 && buffers[0].None? &&
    forall k :: 1 <= k < |buffers| ==> buffers[k] == Some(Dims(CDiv(size.width, k), CDiv(size.height, k)))
  }

  /** The framebuffers of `start_rendering`, one per reduction factor up to `factor`. */
  method BuildFramebuffers(size: Dims, factor: int) returns (buffers: seq<Option<Dims>>)
    ensures IsLadder(buffers, size, factor)
  {
    buffers := [None];
    var k := 1;
    while k <= factor
      invariant 1 <= k && |buffers| == k && buffers[0].None?
      invariant k <= (if factor > 0 then factor else 0) + 1
      invariant forall j :: 1 <= j < k ==> buffers[j] == Some(Dims(CDiv(size.width, j), CDiv(size.height, j)))
    {
      buffers := buffers + [Some(Dims(CDiv(size.width, k), CDiv(size.height, k)))];
      k := k + 1;
    }
  }

  /** `2^64`: `framebuffers.size() - 1` is a `size_t`, and `factor` is converted to one to compare. */
  const SIZE_LIMIT: int := 0x1_0000_0000_0000_0000

  /**
   * The FRAME result of a finished frame and the data that follows it. In
   * final mode a saved frame is named by its sample and followed by the
   * file (`exrSize` is its size on disk); any other frame is `<skipped>`.
   * In interactive mode the colour buffer, four floats per pixel, follows
   * `<memory>` on the render output socket when there is one, announced
   * with the size `PixelBytes` gives.
   */
  /**
   * `n` as a 32-bit `int` holds it: `n` itself when it fits, otherwise `n`
   * moved into range by multiples of 2^32.
   */
  function Wrap32(n: int): (i: int)
    ensures -0x8000_0000 <= i < 0x8000_0000
    decreases if n < 0 then -n else n + 1
  {
    if n < -0x8000_0000 then Wrap32(n + U32_LIMIT)
    else if n >= 0x8000_0000 then Wrap32(n - U32_LIMIT)
    else n
  }

  /** Wrapping to 32 bits keeps the value modulo 2^32. */
  lemma {:induction false} Wrap32Congruent(n: int)
    ensures (Wrap32(n) - n) % U32_LIMIT == 0
    decreases if n < 0 then -n else n + 1
  {
    if n < -0x8000_0000 {
      Wrap32Congruent(n + U32_LIMIT);
    } else if n >= 0x8000_0000 {
      Wrap32Congruent(n - U32_LIMIT);
    }
  }

  /**
   * The size of a colour buffer of `d`, four floats per pixel, as the `int`
   * that holds it; `PixelBytesWrap` says what it is.
   */
  function PixelBytes(d: Dims): (size: int)
    ensures -0x8000_0000 <= size < 0x8000_0000
  {
    Wrap32(d.width * d.height * 4 * 4)
  }

  /**
   * `PixelBytes` is the byte count while that is below 2^31, and otherwise
   * the count wrapped to 32 bits.
   */
  lemma PixelBytesWrap(d: Dims)
    ensures (PixelBytes(d) - d.width * d.height * 16) % U32_LIMIT == 0
    ensures 0 <= d.width * d.height * 16 < 0x8000_0000 ==> PixelBytes(d) == d.width * d.height * 16
  {
    var bytes := d.width * d.height * 4 * 4;
    assert bytes == d.width * d.height * 16;
    Wrap32Congruent(bytes);
  }

  function FrameReplies(r: Render, hasOutput: bool, exrSize: nat): (out: seq<Sent>)
    requires r.mode != RM_IDLE && r.sample >= 1
    ensures 1 <= |out| <= 2 && out[0].reply.Result? && out[0].reply.rendered.FRAME?
    ensures var f := out[0].reply.rendered;
            f.sample == r.sample && f.reductionFactor == r.factor && Dims(f.width, f.height) == r.reduced
    ensures r.mode == RM_FINAL ==>
              (forall k :: 0 <= k < |out| ==> out[k].channel == MainSocket) &&
              (|out| == 2 <==> SendsFile(r.rate, r.sample, r.samples))
    ensures r.mode == RM_FINAL && SendsFile(r.rate, r.sample, r.samples) ==>
              out[0].reply.rendered.fileName == FinalFileName(r.sample) && out[0].reply.rendered.fileSize == exrSize &&
              out[1].reply == ExrFile(FinalFileName(r.sample))
    ensures r.mode == RM_FINAL && !SendsFile(r.rate, r.sample, r.samples) ==>
              out[0].reply.rendered.fileName == "<skipped>" && out[0].reply.rendered.fileSize == 0
    ensures r.mode == RM_INTERACTIVE ==>
              |out| == 2 && out[0].reply.rendered.fileName == "<memory>" &&
              out[0].reply.rendered.fileSize == PixelBytes(r.reduced) &&
              out[1].reply == Pixels(out[0].reply.rendered.fileSize) &&
              out[0].channel == out[1].channel == (if hasOutput then OutputSocket else MainSocket)
  {
    var frame := FRAME(r.sample, r.factor, r.reduced.width, r.reduced.height, "", 0);
    if r.mode == RM_FINAL then
      if SendsFile(r.rate, r.sample, r.samples) then
        var name := FinalFileName(r.sample);
        [Sent(MainSocket, Result(frame.(fileName := name, fileSize := exrSize))), Sent(MainSocket, ExrFile(name))]
      else
        [Sent(MainSocket, Result(frame.(fileName := "<skipped>", fileSize := 0)))]
    else
      var size := PixelBytes(r.reduced);
      var channel := if hasOutput then OutputSocket else MainSocket;
      [Sent(channel, Result(frame.(fileName := "<memory>", fileSize := size))), Sent(channel, Pixels(size))]
  }

  /** A reduced framebuffer of 16384 by 8192 pixels announces a negative size. */
  lemma PixelSizeWraps(r: Render, hasOutput: bool, exrSize: nat)
    requires r.mode == RM_INTERACTIVE && r.sample >= 1 && r.reduced == Dims(16384, 8192)
    ensures FrameReplies(r, hasOutput, exrSize)[0].reply.rendered.fileSize == -0x8000_0000
  {
    assert r.reduced.width * r.reduced.height * 4 * 4 == 0x8000_0000;
    assert Wrap32(0x8000_0000) == Wrap32(0x8000_0000 - U32_LIMIT) == -0x8000_0000;
  }

  /** The DONE result, on the render output socket when there is one. */
  function DoneReply(hasOutput: bool): Sent
  {
    Sent(if hasOutput then OutputSocket else MainSocket, Result(DONE))
  }

  /**
   * A turn of `handle_connection` in which no message arrives, from render
   * `r`: a running render that was cancelled stops and CANCELED goes to the
   * connection's own socket; a finished frame is sent as `FrameReplies`
   * says and the render moves on as `AfterFrame` says, with DONE after the
   * last frame; otherwise nothing happens.
   */
  function Advance(r: Render, size: Dims, hasOutput: bool, frameReady: bool, exrSize: nat): (out: (Render, seq<Sent>))
    requires r.mode != RM_IDLE ==> r.sample >= 1
    ensures out.0.mode != RM_IDLE ==> out.0.sample >= 1
  {
    if r.mode == RM_IDLE || (!r.cancel && !frameReady) then (r, [])
    else if r.cancel then (r.(mode := RM_IDLE, cancel := false), [Sent(MainSocket, Result(CANCELED))])
    else
      var replies := FrameReplies(r, hasOutput, exrSize);
      match AfterFrame(r.samples, r.sample, r.factor)
      case Finished => (r.(mode := RM_IDLE), replies + [DoneReply(hasOutput)])
      case Continue(sample, factor) =>
        var reduced := if factor == r.factor then r.reduced else Dims(CDiv(size.width, factor), CDiv(size.height, factor));
        (r.(sample := sample, factor := factor, reduced := reduced), replies)
  }

  /** The render and the replies after turns without messages, each turn's frame readiness and file size given. */
  function QuietRun(r: Render, size: Dims, hasOutput: bool, turns: seq<(bool, nat)>): (out: (Render, seq<Sent>))
    requires r.mode != RM_IDLE ==> r.sample >= 1
    ensures out.0.mode != RM_IDLE ==> out.0.sample >= 1
    decreases |turns|
  {
    if turns == [] then (r, [])
    else
      var first := Advance(r, size, hasOutput, turns[0].0, turns[0].1);
      var rest := QuietRun(first.0, size, hasOutput, turns[1..]);
      (rest.0, first.1 + rest.1)
  }

  /**
   * After `used` of the quiet turns from `start`, with `log` sent before
   * them, the render is at `r` with `sent` sent: what is still to come is
   * the rest of the run.
   */
  predicate QuietSoFar(start: Render, log: seq<Sent>, size: Dims, hasOutput: bool, turns: seq<(bool, nat)>,
                       used: nat, r: Render, sent: seq<Sent>)
  {
    used <= |turns| && |log| <= |sent| &&
    (start.mode != RM_IDLE ==> start.sample >= 1) && (r.mode != RM_IDLE ==> r.sample >= 1) &&
    var whole := QuietRun(start, size, hasOutput, turns);
    var rest := QuietRun(r, size, hasOutput, turns[used..]);
    whole.0 == rest.0 && whole.1 == sent[|log|..] + rest.1
  }

  /** One more quiet turn keeps the rest of the run ahead. */
  lemma QuietSoFarStep(start: Render, log: seq<Sent>, size: Dims, hasOutput: bool, turns: seq<(bool, nat)>,
                       used: nat, r: Render, sent: seq<Sent>)
    requires QuietSoFar(start, log, size, hasOutput, turns, used, r, sent) && used < |turns|
    ensures var step := Advance(r, size, hasOutput, turns[used].0, turns[used].1);
            QuietSoFar(start, log, size, hasOutput, turns, used + 1, step.0, sent + step.1)
  {
    var step := Advance(r, size, hasOutput, turns[used].0, turns[used].1);
    var rest := QuietRun(step.0, size, hasOutput, turns[used + 1..]);
    assert turns[used..][0] == turns[used] && turns[used..][1..] == turns[used + 1..];
    QuietRunCons(r, size, hasOutput, turns[used..]);
    assert QuietRun(r, size, hasOutput, turns[used..]) == (rest.0, step.1 + rest.1);
    assert (sent + step.1)[|log|..] + rest.1 == sent[|log|..] + (step.1 + rest.1);
  }

  /** The whole quiet run, once every turn is taken. */
  lemma QuietSoFarDone(start: Render, log: seq<Sent>, size: Dims, hasOutput: bool, turns: seq<(bool, nat)>,
                       r: Render, sent: seq<Sent>)
    requires QuietSoFar(start, log, size, hasOutput, turns, |turns|, r, sent) && log <= sent
    ensures var whole := QuietRun(start, size, hasOutput, turns);
            r == whole.0 && sent == log + whole.1
  {
    assert turns[|turns|..] == [];
    assert sent == log + sent[|log|..];
  }

  /** Before any turn, the whole run is ahead. */
  lemma QuietSoFarStart(start: Render, log: seq<Sent>, size: Dims, hasOutput: bool, turns: seq<(bool, nat)>)
    requires start.mode != RM_IDLE ==> start.sample >= 1
    ensures QuietSoFar(start, log, size, hasOutput, turns, 0, start, log)
  {
    assert turns[0..] == turns;
    assert log[|log|..] == [];
  }

  /** The (sample, factor) of every FRAME result in a reply log, in order. */
  function FrameResults(log: seq<Sent>): seq<(int, int)>
    decreases |log|
  {
    if log == [] then []
    else
      var head := log[0].reply;
      (if head.Result? && head.rendered.FRAME? then [(head.rendered.sample, head.rendered.reductionFactor)] else []) +
      FrameResults(log[1..])
  }

  lemma {:induction false} FrameResultsAppend(a: seq<Sent>, b: seq<Sent>)
    ensures FrameResults(a + b) == FrameResults(a) + FrameResults(b)
    decreases |a|
  {
    if a != [] {
      assert (a + b)[1..] == a[1..] + b;
      FrameResultsAppend(a[1..], b);
    } else {
      assert a + b == b;
    }
  }

  lemma FrameRepliesResults(r: Render, hasOutput: bool, exrSize: nat)
    requires r.mode != RM_IDLE && r.sample >= 1
    ensures FrameResults(FrameReplies(r, hasOutput, exrSize)) == [(r.sample, r.factor)]
  {
    var out := FrameReplies(r, hasOutput, exrSize);
    if |out| == 2 {
      assert !out[1].reply.Result?;
      assert out[1..][1..] == [];
      assert FrameResults(out[1..]) == [];
    } else {
      assert out[1..] == [];
    }
  }

  /**
   * A running render, not cancelled, whose every frame finishes in the
   * turn it is checked, with no message arriving, sends the FRAME results
   * of exactly the frames `Frames` lists, in order: the halvings of its
   * factor and then every sample to the last. It then sends DONE and is
   * idle, after as many turns as it has frames.
   */
  lemma {:induction false} QuietRenderSendsFrames(r: Render, size: Dims, hasOutput: bool, turns: seq<(bool, nat)>)
    requires r.mode != RM_IDLE && !r.cancel && 1 <= r.sample <= r.samples && 1 <= r.factor
    requires |turns| == |Frames(r.samples, r.sample, r.factor)|
    requires forall k :: 0 <= k < |turns| ==> turns[k].0
    ensures var out := QuietRun(r, size, hasOutput, turns);
            out.0.mode == RM_IDLE &&
            FrameResults(out.1) == Frames(r.samples, r.sample, r.factor) == Halvings(r.sample, r.factor) + Samples(r.sample, r.samples) &&
            |out.1| > 0 && out.1[|out.1| - 1] == DoneReply(hasOutput)
  {
    FramesInOrder(r.samples, r.sample, r.factor);
    QuietRunFrames(r, size, hasOutput, turns);
  }

  /**
   * A running render, not cancelled, with one quiet turn ahead for each of
   * its frames and every frame finished when it is checked.
   */
  predicate FramesAhead(r: Render, turns: seq<(bool, nat)>)
  {
    r.mode != RM_IDLE && !r.cancel && 1 <= r.sample <= r.samples && 1 <= r.factor &&
    |turns| == |Frames(r.samples, r.sample, r.factor)| &&
    forall k :: 0 <= k < |turns| ==> turns[k].0
  }

  /** A run that ends idle, having sent the FRAME results `frames` and DONE last. */
  predicate SendsFrames(out: (Render, seq<Sent>), frames: seq<(int, int)>, hasOutput: bool)
  {
    out.0.mode == RM_IDLE && FrameResults(out.1) == frames &&
    |out.1| > 0 && out.1[|out.1| - 1] == DoneReply(hasOutput)
  }

  /** `QuietRenderSendsFrames` with the frames as `Frames` lists them. */
  lemma {:induction false} QuietRunFrames(r: Render, size: Dims, hasOutput: bool, turns: seq<(bool, nat)>)
    requires FramesAhead(r, turns)
    ensures SendsFrames(QuietRun(r, size, hasOutput, turns), Frames(r.samples, r.sample, r.factor), hasOutput)
    decreases |turns|
  {
    if AfterFrame(r.samples, r.sample, r.factor).Finished? {
      QuietLastFrame(r, size, hasOutput, turns);
    } else {
      var first := Advance(r, size, hasOutput, turns[0].0, turns[0].1);
      var rest := QuietRun(first.0, size, hasOutput, turns[1..]);
      QuietRunCons(r, size, hasOutput, turns);
      QuietNextFrame(r, size, hasOutput, turns);
      QuietRunFrames(first.0, size, hasOutput, turns[1..]);
      QuietFramesJoin((r.sample, r.factor), first.1, rest, Frames(first.0.samples, first.0.sample, first.0.factor), hasOutput);
    }
  }

  /** A quiet run is its first turn followed by the rest of the run. */
  lemma QuietRunCons(r: Render, size: Dims, hasOutput: bool, turns: seq<(bool, nat)>)
    requires r.mode != RM_IDLE ==> r.sample >= 1
    requires turns != []
    ensures var first := Advance(r, size, hasOutput, turns[0].0, turns[0].1);
            var rest := QuietRun(first.0, size, hasOutput, turns[1..]);
            QuietRun(r, size, hasOutput, turns) == (rest.0, first.1 + rest.1)
  {
  }

  /**
   * The replies of one frame followed by a run that sends the frames after
   * it report all the frames, and end as that run ends.
   */
  lemma QuietFramesJoin(head: (int, int), first: seq<Sent>, rest: (Render, seq<Sent>), tail: seq<(int, int)>, hasOutput: bool)
    requires FrameResults(first) == [head] && SendsFrames(rest, tail, hasOutput)
    ensures SendsFrames((rest.0, first + rest.1), [head] + tail, hasOutput)
  {
    FrameResultsAppend(first, rest.1);
  }

  /**
   * A frame that is not the last: its turn sends the frame's FRAME result
   * and leaves a running render whose frames are the rest of the list.
   */
  lemma QuietNextFrame(r: Render, size: Dims, hasOutput: bool, turns: seq<(bool, nat)>)
    requires FramesAhead(r, turns) && AfterFrame(r.samples, r.sample, r.factor).Continue?
    ensures var first := Advance(r, size, hasOutput, turns[0].0, turns[0].1);
            FramesAhead(first.0, turns[1..]) &&
            Frames(r.samples, r.sample, r.factor) == [(r.sample, r.factor)] + Frames(first.0.samples, first.0.sample, first.0.factor) &&
            FrameResults(first.1) == [(r.sample, r.factor)]
  {
    var next := AfterFrame(r.samples, r.sample, r.factor);
    assert Frames(r.samples, r.sample, r.factor) == [(r.sample, r.factor)] + Frames(r.samples, next.sample, next.factor);
    assert forall k :: 0 <= k < |turns[1..]| ==> turns[1..][k] == turns[k + 1];
    FrameRepliesResults(r, hasOutput, turns[0].1);
  }

  /** The last frame: its turn sends its FRAME result and then DONE, and the render is idle. */
  lemma QuietLastFrame(r: Render, size: Dims, hasOutput: bool, turns: seq<(bool, nat)>)
    requires FramesAhead(r, turns) && AfterFrame(r.samples, r.sample, r.factor).Finished?
    ensures SendsFrames(QuietRun(r, size, hasOutput, turns), Frames(r.samples, r.sample, r.factor), hasOutput)
  {
    assert Frames(r.samples, r.sample, r.factor) == [(r.sample, r.factor)];
    var replies := FrameReplies(r, hasOutput, exrSize := turns[0].1);
    FrameRepliesResults(r, hasOutput, turns[0].1);
    assert turns[1..] == [];
    FrameResultsAppend(replies, [DoneReply(hasOutput)]);
    assert FrameResults([DoneReply(hasOutput)]) == [];
    assert QuietRun(r, size, hasOutput, turns).1 == replies + [DoneReply(hasOutput)] + [];
    assert replies + [DoneReply(hasOutput)] + [] == replies + [DoneReply(hasOutput)];
  }

  /** `Server.UpdatePluginInstance` with the digest and the plugin's behaviour taken from `x`. */
  function ApplyUpdate(s: Server.Store, u: Server.PluginUpdate, x: Outside): (r: Server.Update)
    requires Server.Valid(s) && BoundsFit(x)
    ensures Server.Valid(r.store)
  {
    Server.UpdatePluginInstance(s, u, x.digest, x.load(Server.InternalName(u.pluginType, u.pluginName)), x.generate(u))
  }

  // ---------------------------------------------------------------------
  // The server
  // ---------------------------------------------------------------------

  /**
   * The server's global state: the scene store, the framebuffer settings
   * and the framebuffers per reduction factor, the render progress, whether
   * a render output socket is set, and every reply written so far.
   */
  class RenderServer {
    var store: Server.Store
    var size: Dims
    var format: u32
    var framebuffers: seq<Option<Dims>>
    var recreate: bool
    var render: Render
    var hasOutput: bool
    var sent: seq<Sent>

    /**
     * The store is consistent, the reduction factor is positive, and while
     * a render runs its sample is positive and its factor has a
     * framebuffer.
     */
    ghost predicate Valid()
      reads this
    {
      Server.Valid(store) && 1 <= render.factor < 0x8000_0000 && |framebuffers| <= 0x8000_0000 &&
      (render.mode != RM_IDLE ==> render.sample >= 1 && render.factor < |framebuffers|)
    }

    /** Start-up: an empty scene, no framebuffers, idle. */
    constructor (ambient: Plugin2.Handle, rendererType: string)
      ensures Valid()
      ensures store == Server.InitialStore(ambient, rendererType)
      ensures size == Dims(0, 0) && framebuffers == [] && !recreate && !hasOutput && sent == []
      ensures render.mode == RM_IDLE && render.factor == 1 && render.rate == 1 && !render.cancel
    {
      store := Server.InitialStore(ambient, rendererType);
      size := Dims(0, 0);
      format := 0;
      framebuffers := [];
      recreate := false;
      render := Render(RM_IDLE, 1, 0, 1, 1, Dims(0, 0), false);
      hasOutput := false;
      sent := [];
    }

    /**
     * `update_framebuffer`: new settings drop every framebuffer; the same
     * settings change nothing.
     */
    method UpdateFramebuffer(fmt: u32, width: u32, height: u32)
      modifies this
      ensures size == Dims(Int32(width), Int32(height)) && format == fmt
      ensures old(size) == size && old(format) == fmt ==> framebuffers == old(framebuffers)
      ensures old(size) != size || old(format) != fmt ==> framebuffers == []
      ensures store == old(store) && recreate == old(recreate) && render == old(render)
      ensures hasOutput == old(hasOutput) && sent == old(sent)
    {
      if size == Dims(Int32(width), Int32(height)) && format == fmt {
        return;
      }
      framebuffers := [];
      size := Dims(Int32(width), Int32(height));
      format := fmt;
    }

    /**
     * `ensure_idle_render_mode`: a running render is cancelled, and the
     * framebuffer of its factor is made anew at the current size.
     */
    method EnsureIdle()
      requires Valid()
      modifies this
      ensures Valid()
      ensures render == old(render).(mode := RM_IDLE)
      ensures old(render.mode) == RM_IDLE ==> framebuffers == old(framebuffers)
      ensures old(render.mode) != RM_IDLE ==>
                framebuffers == old(framebuffers)[render.factor := Some(render.reduced)]
      ensures store == old(store) && size == old(size) && format == old(format) && recreate == old(recreate)
      ensures hasOutput == old(hasOutput) && sent == old(sent)
    {
      if render.mode == RM_IDLE {
        return;
      }
      render := render.(mode := RM_IDLE);
      framebuffers := framebuffers[render.factor := Some(render.reduced)];
    }

    /**
     * `start_rendering`, when idle: the sample count and mode come from the
     * message; final mode renders at full resolution with the message's
     * update rate, interactive mode starts at the message's reduction
     * factor. The framebuffers are rebuilt when their number does not fit
     * the factor or a cancel spoilt them. An interactive factor of 0
     * divides by zero and a negative one indexes before the vector: both
     * stop the model.
     */
    method StartRendering(msg: ClientMessage) returns (o: Outcome)
      requires Valid()
      modifies this
      ensures o != Abort ==> Valid() && o == Carry
      ensures o == Abort <==>
                old(render.mode) == RM_IDLE && msg.stringValue == "interactive" && Int32(msg.uintValue2) <= 0
      ensures old(render.mode) != RM_IDLE ==>
                render == old(render) && framebuffers == old(framebuffers) && recreate == old(recreate)
      ensures old(render.mode) == RM_IDLE && o == Carry ==>
                render.samples == Int32(msg.uintValue) && render.sample == 1 && !render.cancel &&
                render.reduced == Dims(CDiv(size.width, render.factor), CDiv(size.height, render.factor))
      ensures old(render.mode) == RM_IDLE && msg.stringValue == "final" ==>
                render.mode == RM_FINAL && render.factor == 1 && render.rate == Int32(msg.uintValue2)
      ensures old(render.mode) == RM_IDLE && msg.stringValue == "interactive" && o == Carry ==>
                render.mode == RM_INTERACTIVE && render.factor == Int32(msg.uintValue2) && render.rate == 1
      ensures old(render.mode) == RM_IDLE && msg.stringValue != "final" && msg.stringValue != "interactive" ==>
                render.mode == RM_IDLE && render.factor == old(render.factor) && render.rate == old(render.rate)
      ensures old(render.mode) == RM_IDLE && o == Carry ==>
                if |old(framebuffers)| != render.factor + 1 || old(recreate)
                then IsLadder(framebuffers, size, render.factor) && !recreate
                else framebuffers == old(framebuffers) && !recreate
      ensures store == old(store) && size == old(size) && format == old(format)
      ensures hasOutput == old(hasOutput) && sent == old(sent)
    {
      if render.mode != RM_IDLE {
        return Carry;
      }
      if msg.stringValue == "interactive" && Int32(msg.uintValue2) <= 0 {
        return Abort;
      }
      var r := render.(samples := Int32(msg.uintValue), sample := 1);
      if msg.stringValue == "final" {
        r := r.(mode := RM_FINAL, factor := 1, rate := Int32(msg.uintValue2));
      } else if msg.stringValue == "interactive" {
        r := r.(mode := RM_INTERACTIVE, factor := Int32(msg.uintValue2), rate := 1);
      }
      PrepareFramebuffers(r.factor);
      render := r.(reduced := Dims(CDiv(size.width, r.factor), CDiv(size.height, r.factor)), cancel := false);
      o := Carry;
    }

    /**
     * The framebuffer check of `start_rendering`: the framebuffers are
     * rebuilt for reduction factors 1 to `factor` when their number does not
     * fit the factor (compared as `size_t`) or a cancel spoilt them.
     * Either way there is one per factor afterwards.
     */
    method PrepareFramebuffers(factor: int)
      requires 1 <= factor < 0x8000_0000 && |framebuffers| <= 0x8000_0000
      modifies this
      ensures if |old(framebuffers)| != factor + 1 || old(recreate)
              then IsLadder(framebuffers, size, factor)
              else framebuffers == old(framebuffers)
      ensures |framebuffers| == factor + 1 && !recreate
      ensures store == old(store) && size == old(size) && format == old(format) && render == old(render)
      ensures hasOutput == old(hasOutput) && sent == old(sent)
    {
      if (|framebuffers| - 1) % SIZE_LIMIT != factor % SIZE_LIMIT || recreate {
        framebuffers := BuildFramebuffers(size, factor);
        recreate := false;
      }
    }

    /**
     * A cancel seen by `handle_connection`: the render stops, the
     * framebuffers are to be rebuilt, and CANCELED is sent. The mode is set
     * to idle before the test for interactive mode, so CANCELED always goes
     * to the connection's own socket.
     */
    method CancelRender()
      requires Valid() && render.mode != RM_IDLE && render.cancel
      modifies this
      ensures Valid()
      ensures render == old(render).(mode := RM_IDLE, cancel := false) && recreate
      ensures sent == old(sent) + [Sent(MainSocket, Result(CANCELED))]
      ensures store == old(store) && size == old(size) && format == old(format)
      ensures framebuffers == old(framebuffers) && hasOutput == old(hasOutput)
    {
      recreate := true;
      render := render.(mode := RM_IDLE, cancel := false);
      var channel := if render.mode == RM_INTERACTIVE && hasOutput then OutputSocket else MainSocket;
      sent := sent + [Sent(channel, Result(CANCELED))];
    }

    /**
     * A finished frame in `handle_connection`: its result is sent; then the
     * render is done (DONE goes to the render output socket when there is
     * one, whatever the mode), or it goes on at the next sample or halved
     * factor, with the size recomputed for a new factor.
     */
    method FrameFinished(exrSize: nat)
      requires Valid() && render.mode != RM_IDLE
      modifies this
      ensures Valid()
      ensures var next := AfterFrame(old(render.samples), old(render.sample), old(render.factor));
              var done := Sent(if hasOutput then OutputSocket else MainSocket, Result(DONE));
              sent == old(sent) + FrameReplies(old(render), hasOutput, exrSize) + (if next.Finished? then [done] else [])
      ensures var next := AfterFrame(old(render.samples), old(render.sample), old(render.factor));
              match next
              case Finished => render == old(render).(mode := RM_IDLE)
              case Continue(sample, factor) =>
                render == old(render).(sample := sample, factor := factor,
                                       reduced := if factor == old(render.factor) then old(render.reduced)
                                                  else Dims(CDiv(size.width, factor), CDiv(size.height, factor)))
      ensures store == old(store) && size == old(size) && format == old(format)
      ensures framebuffers == old(framebuffers) && recreate == old(recreate) && hasOutput == old(hasOutput)
    {
      sent := sent + FrameReplies(render, hasOutput, exrSize);
      var next := AfterFrame(render.samples, render.sample, render.factor);
      match next
      case Finished =>
        sent := sent + [Sent(if hasOutput then OutputSocket else MainSocket, Result(DONE))];
        render := render.(mode := RM_IDLE);
      case Continue(sample, factor) =>
        if factor != render.factor {
          render := render.(factor := factor, reduced := Dims(CDiv(size.width, factor), CDiv(size.height, factor)));
        } else {
          render := render.(sample := sample);
        }
    }

    /**
     * `handle_update_plugin_instance`: receives the update and applies it to
     * the store, sending the plugin's result when there is one. `update` is
     * the decoded message, or `None` when it did not arrive or did not
     * decode, in which case nothing changes.
     */
    method UpdatePluginInstance(sock: Socket, x: Outside) returns (update: Option<Server.PluginUpdate>)
      requires Valid() && BoundsFit(x)
      modifies this, sock
      ensures Valid()
      ensures update.None? ==> store == old(store) && sent == old(sent)
      ensures update.Some? ==>
                ParseFrame(old(sock.inbox.data)).Some? &&
                update == x.decodeUpdate(ParseFrame(old(sock.inbox.data)).value.payload) &&
                var res := ApplyUpdate(old(store), update.value, x);
                store == res.store &&
                sent == old(sent) + (if res.reply.Some? then [Sent(MainSocket, PluginResult(res.reply.value))] else [])
      ensures size == old(size) && format == old(format) && framebuffers == old(framebuffers)
      ensures recreate == old(recreate) && render == old(render) && hasOutput == old(hasOutput)
    {
      update := ReceiveUpdate(sock, x);
      if update.Some? {
        var res := ApplyUpdate(store, update.value, x);
        store := res.store;
        if res.reply.Some? {
          sent := sent + [Sent(MainSocket, PluginResult(res.reply.value))];
        }
      }
    }

    /**
     * `handle_client_message`. HELLO answers the version check and ends the
     * connection on a mismatch; BYE and QUIT end it; scene updates first
     * stop any render; a settings message that does not arrive ends the
     * connection with failure; START_RENDERING while a render runs fails the
     * server's `assert`; CANCEL_RENDERING only flags a running render;
     * REQUEST_RENDER_OUTPUT makes this connection the render output socket
     * unless a render runs or one is already set.
     */
    method HandleClientMessage(sock: Socket, msg: ClientMessage, x: Outside) returns (o: Outcome)
      requires Valid() && BoundsFit(x)
      modifies this, sock
      ensures o != Abort ==> Valid()
      ensures old(sent) <= sent
      ensures o == Return(true) ==> msg.kind in {BYE, QUIT, REQUEST_RENDER_OUTPUT}
      ensures o == Return(false) ==>
                msg.kind in {HELLO, UPDATE_RENDER_SETTINGS, UPDATE_WORLD_SETTINGS, UPDATE_CAMERA, REQUEST_RENDER_OUTPUT}
      ensures o == Abort ==> msg.kind == START_RENDERING
      ensures msg.kind == HELLO ==>
                sent == old(sent) + [Sent(MainSocket, Hello(HandleHello(msg.uintValue)))] &&
                o == (if msg.uintValue == PROTOCOL_VERSION then Carry else Return(false))
      ensures StopsRender(msg.kind) && o != Abort ==> render.mode == RM_IDLE
      ensures msg.kind in {BYE, QUIT} ==> o == Return(true)
      ensures msg.kind == UPDATE_FRAMEBUFFER ==>
                size == Dims(Int32(msg.uintValue2), Int32(msg.uintValue3)) && format == msg.uintValue
      ensures msg.kind == QUERY_BOUND ==>
                o == Carry && store == old(store) && render == old(render) &&
                sent == old(sent) + [Sent(MainSocket, Bound(Server.QueryBound(old(store), msg.stringValue)))]
      ensures msg.kind == START_RENDERING && old(render.mode) != RM_IDLE ==> o == Abort
      ensures msg.kind == CANCEL_RENDERING ==>
                o == Carry && sent == old(sent) &&
                render == if old(render.mode) == RM_IDLE then old(render) else old(render).(cancel := true)
      ensures msg.kind == REQUEST_RENDER_OUTPUT ==>
                o == Return(old(render.mode) == RM_IDLE && !old(hasOutput)) &&
                hasOutput == (old(hasOutput) || o.result) && render == old(render) && sent == old(sent)
      ensures msg.kind in {UPDATE_RENDER_SETTINGS, UPDATE_WORLD_SETTINGS, UPDATE_CAMERA} ==>
                (o == Carry || o == Return(false)) && store == old(store) &&
                (ParseFrame(old(sock.inbox.data)).None? ==> o == Return(false))
      ensures msg.kind in {UPDATE_OBJECT, UPDATE_MATERIAL} ==>
                o == Carry && store == old(store) && sent == old(sent) &&
                (ServerIO.Healthy(old(sock.inbox)) && ParseFrame(old(sock.inbox.data)).Some? ==>
                   ConsumesUpdate(x, msg.kind, old(sock.inbox.data), sock.inbox.data))
      ensures msg.kind == GET_SERVER_STATE ==>
                o == Carry && store == old(store) && render == old(render) &&
                sent == old(sent) + [Sent(MainSocket, ServerState)]
    {
      if StopsRender(msg.kind) {
        o := HandleSceneMessage(sock, msg, x);
      } else {
        o := HandleControlMessage(msg);
      }
    }

    /** The messages of `handle_client_message` that stop any render first. */
    method HandleSceneMessage(sock: Socket, msg: ClientMessage, x: Outside) returns (o: Outcome)
      requires Valid() && BoundsFit(x) && StopsRender(msg.kind)
      modifies this, sock
      ensures Valid() && render.mode == RM_IDLE && o != Abort
      ensures old(sent) <= sent
      ensures o == Return(true) <==> msg.kind in {BYE, QUIT}
      ensures o.Return? && !o.result ==> msg.kind in {UPDATE_RENDER_SETTINGS, UPDATE_WORLD_SETTINGS, UPDATE_CAMERA}
      ensures msg.kind == UPDATE_FRAMEBUFFER ==>
                size == Dims(Int32(msg.uintValue2), Int32(msg.uintValue3)) && format == msg.uintValue
      ensures msg.kind in {UPDATE_RENDER_SETTINGS, UPDATE_WORLD_SETTINGS, UPDATE_CAMERA} ==>
                store == old(store) && (ParseFrame(old(sock.inbox.data)).None? ==> o == Return(false))
      ensures msg.kind in {UPDATE_OBJECT, UPDATE_MATERIAL} ==>
                o == Carry && store == old(store) && sent == old(sent) && sock.outbox == old(sock.outbox) &&
                (ServerIO.Healthy(old(sock.inbox)) && ParseFrame(old(sock.inbox.data)).Some? ==>
                   ConsumesUpdate(x, msg.kind, old(sock.inbox.data), sock.inbox.data))
    {
      EnsureIdle();
      o := Carry;
      match msg.kind
      case BYE =>
        EndConnection();
        o := Return(true);
      case QUIT =>
        EndConnection();
        o := Return(true);
      case UPDATE_RENDERER_TYPE =>
        store := Server.UpdateRendererType(store, msg.stringValue);
      case CLEAR_SCENE =>
        store := Server.ClearScene(store, msg.stringValue);
      case UPDATE_RENDER_SETTINGS =>
        o := ReceiveSettings(sock);
      case UPDATE_WORLD_SETTINGS =>
        o := ReceiveSettings(sock);
      case UPDATE_PLUGIN_INSTANCE =>
        var _ := UpdatePluginInstance(sock, x);
      case UPDATE_BLENDER_MESH =>
        var ok;
        store, ok := Server.HandleUpdateBlenderMeshData(sock, store, msg.stringValue, x.decodeMesh);
      case UPDATE_OBJECT =>
        ReceiveSceneUpdate(sock, msg.kind, x);
      case UPDATE_FRAMEBUFFER =>
        UpdateFramebuffer(msg.uintValue, msg.uintValue2, msg.uintValue3);
      case UPDATE_CAMERA =>
        o := ReceiveSettings(sock);
      case UPDATE_MATERIAL =>
        ReceiveSceneUpdate(sock, msg.kind, x);
    }

    /**
     * `handle_update_object` and `handle_update_material` as far as the
     * connection sees them: the update is received and, when its type calls
     * for one, the message after it; a receive that fails ends the update.
     */
    static method ReceiveSceneUpdate(sock: Socket, kind: MessageType, x: Outside)
      modifies sock
      ensures sock.outbox == old(sock.outbox)
      ensures ServerIO.Healthy(old(sock.inbox)) && ParseFrame(old(sock.inbox.data)).Some? ==>
                ConsumesUpdate(x, kind, old(sock.inbox.data), sock.inbox.data)
    {
      var update := ServerIO.ReceiveProtobuf(sock);
      if update.Some? && Followed(x, kind, update.value) {
        var _ := ServerIO.ReceiveProtobuf(sock);
      }
    }

    /** The messages of `handle_client_message` that do not stop a render. */
    method HandleControlMessage(msg: ClientMessage) returns (o: Outcome)
      requires Valid() && !StopsRender(msg.kind)
      modifies this
      ensures o != Abort ==> Valid()
      ensures old(sent) <= sent
      ensures o == Return(true) ==> msg.kind == REQUEST_RENDER_OUTPUT
      ensures o == Return(false) ==> msg.kind in {HELLO, REQUEST_RENDER_OUTPUT}
      ensures o == Abort ==> msg.kind == START_RENDERING
      ensures msg.kind == HELLO ==>
                sent == old(sent) + [Sent(MainSocket, Hello(HandleHello(msg.uintValue)))] &&
                o == (if msg.uintValue == PROTOCOL_VERSION then Carry else Return(false))
      ensures msg.kind == QUERY_BOUND ==>
                o == Carry && store == old(store) && render == old(render) &&
                sent == old(sent) + [Sent(MainSocket, Bound(Server.QueryBound(old(store), msg.stringValue)))]
      ensures msg.kind == START_RENDERING && old(render.mode) != RM_IDLE ==> o == Abort
      ensures msg.kind == CANCEL_RENDERING ==>
                o == Carry && sent == old(sent) &&
                render == if old(render.mode) == RM_IDLE then old(render) else old(render).(cancel := true)
      ensures msg.kind == REQUEST_RENDER_OUTPUT ==>
                o == Return(old(render.mode) == RM_IDLE && !old(hasOutput)) &&
                hasOutput == (old(hasOutput) || o.result) && render == old(render) && sent == old(sent)
      ensures msg.kind == GET_SERVER_STATE ==>
                o == Carry && store == old(store) && render == old(render) &&
                sent == old(sent) + [Sent(MainSocket, ServerState)]
      ensures msg.kind == UNHANDLED ==> o == Carry && store == old(store) && render == old(render) && sent == old(sent)
    {
      o := Carry;
      match msg.kind
      case HELLO =>
        var result := HandleHello(msg.uintValue);
        sent := sent + [Sent(MainSocket, Hello(result))];
        if !result.success {
          o := Return(false);
        }
      case QUERY_BOUND =>
        sent := sent + [Sent(MainSocket, Bound(Server.QueryBound(store, msg.stringValue)))];
      case START_RENDERING =>
        if render.mode != RM_IDLE {
          return Abort;
        }
        o := StartRendering(msg);
      case CANCEL_RENDERING =>
        if render.mode != RM_IDLE {
          render := render.(cancel := true);
        }
      case REQUEST_RENDER_OUTPUT =>
        if render.mode != RM_IDLE || hasOutput {
          o := Return(false);
        } else {
          hasOutput := true;
          o := Return(true);
        }
      case GET_SERVER_STATE =>
        sent := sent + [Sent(MainSocket, ServerState)];
      case UNHANDLED =>
      case _ =>
        assert false;
    }

    /**
     * BYE and QUIT: stop any render, then close the render output socket if
     * an interactive render still uses it; the render was just stopped, so
     * it never does.
     */
    method EndConnection()
      requires Valid()
      modifies this
      ensures Valid() && render == old(render).(mode := RM_IDLE)
      ensures hasOutput == old(hasOutput)
      ensures store == old(store) && size == old(size) && format == old(format) && sent == old(sent)
      ensures recreate == old(recreate)
    {
      EnsureIdle();
      hasOutput := hasOutput && render.mode != RM_INTERACTIVE;
    }

    /** A settings message (render, world or camera): `Return(false)` when it does not arrive. */
    method ReceiveSettings(sock: Socket) returns (o: Outcome)
      modifies sock
      ensures o == Carry || o == Return(false)
      ensures ParseFrame(old(sock.inbox.data)).None? ==> o == Return(false)
      ensures ServerIO.Healthy(old(sock.inbox)) && ParseFrame(old(sock.inbox.data)).Some? ==> o == Carry
      ensures sock.outbox == old(sock.outbox)
    {
      var payload := ServerIO.ReceiveProtobuf(sock);
      o := if payload.None? then Return(false) else Carry;
    }

    /**
     * One turn of the loop in `handle_connection`: a waiting client message
     * is received and handled; then the render, if one runs, moves on.
     */
    method Turn(sock: Socket, x: Outside, frameReady: bool, exrSize: nat) returns (o: Outcome, msg: Option<ClientMessage>)
      requires Valid() && BoundsFit(x)
      modifies this, sock
      ensures o != Abort ==> Valid()
      ensures old(sent) <= sent
      ensures msg.Some? ==>
                ParseFrame(old(sock.inbox.data)).Some? &&
                msg == x.decodeMessage(ParseFrame(old(sock.inbox.data)).value.payload)
      ensures msg.None? && o != Carry ==>
                o == Return(false) && !Quiet(old(sock.inbox)) &&
                (ServerIO.Healthy(old(sock.inbox)) && ParseFrame(old(sock.inbox.data)).Some? ==>
                   x.decodeMessage(ParseFrame(old(sock.inbox.data)).value.payload).None?)
      ensures o == Return(true) ==> msg.Some? && msg.value.kind in {BYE, QUIT, REQUEST_RENDER_OUTPUT}
      ensures o == Return(false) && msg.Some? ==>
                msg.value.kind in {HELLO, UPDATE_RENDER_SETTINGS, UPDATE_WORLD_SETTINGS, UPDATE_CAMERA, REQUEST_RENDER_OUTPUT}
      ensures o == Abort ==> msg.Some? && msg.value.kind == START_RENDERING
      ensures Quiet(old(sock.inbox)) ==>
                o == Carry && msg.None? && sock.inbox == old(sock.inbox) &&
                store == old(store) && size == old(size) && hasOutput == old(hasOutput) &&
                var (r, replies) := Advance(old(render), size, hasOutput, frameReady, exrSize);
                render == r && sent == old(sent) + replies
    {
      msg := None;
      var readable := sock.IsReadable();
      if readable {
        var payload := ServerIO.ReceiveProtobuf(sock);
        if payload.None? {
          return Return(false), None;
        }
        msg := x.decodeMessage(payload.value);
        if msg.None? {
          return Return(false), None;
        }
        o := HandleClientMessage(sock, msg.value, x);
        if o != Carry {
          return;
        }
      }
      o := Carry;
      Progress(frameReady, exrSize);
    }

    /** The part of a turn of `handle_connection` after the message: cancel, wait, or process the frame. */
    method Progress(frameReady: bool, exrSize: nat)
      requires Valid()
      modifies this
      ensures Valid()
      ensures store == old(store) && size == old(size) && hasOutput == old(hasOutput)
      ensures var (r, replies) := Advance(old(render), size, hasOutput, frameReady, exrSize);
              render == r && sent == old(sent) + replies
    {
      if render.mode == RM_IDLE {
        return;
      }
      if render.cancel {
        CancelRender();
        return;
      }
      if !frameReady {
        return;
      }
      FrameFinished(exrSize);
    }

    /**
     * `handle_connection` over the given turns: it returns when a message
     * ends the connection or the server stops; `Carry` means the turns ran
     * out with the connection still open. `last` is the message of the
     * final turn, if one arrived. With no message waiting, the render runs
     * on as `QuietRun` says.
     */
    method HandleConnection(sock: Socket, x: Outside, turns: seq<(bool, nat)>)
      returns (o: Outcome, used: nat, last: Option<ClientMessage>)
      requires Valid() && BoundsFit(x)
      modifies this, sock
      ensures o != Abort ==> Valid()
      ensures old(sent) <= sent
      ensures used <= |turns| && (o == Carry ==> used == |turns|) && (o != Carry ==> used >= 1)
      ensures o == Return(true) ==> last.Some? && last.value.kind in {BYE, QUIT, REQUEST_RENDER_OUTPUT}
      ensures o == Return(false) ==>
                last.None? ||
                last.value.kind in {HELLO, UPDATE_RENDER_SETTINGS, UPDATE_WORLD_SETTINGS, UPDATE_CAMERA, REQUEST_RENDER_OUTPUT}
      ensures o == Abort ==> last.Some? && last.value.kind == START_RENDERING
      ensures Quiet(old(sock.inbox)) ==>
                o == Carry && store == old(store) &&
                var (r, replies) := QuietRun(old(render), old(size), old(hasOutput), turns);
                render == r && sent == old(sent) + replies
    {
      o := Carry;
      used := 0;
      last := None;
      ghost var quiet := Quiet(sock.inbox);
      QuietSoFarStart(render, sent, size, hasOutput, turns);
      while used < |turns| && o == Carry
        invariant used <= |turns| && (o != Carry ==> used >= 1)
        invariant o != Abort ==> Valid()
        invariant old(sent) <= sent
        invariant EndedBy(o, last)
        invariant quiet ==>
                    o == Carry && sock.inbox == old(sock.inbox) && Quiet(sock.inbox) && store == old(store) &&
                    size == old(size) && hasOutput == old(hasOutput) &&
                    QuietSoFar(old(render), old(sent), size, hasOutput, turns, used, render, sent)
        decreases |turns| - used
      {
        ghost var before, log := render, sent;
        o, last := Turn(sock, x, turns[used].0, turns[used].1);
        if quiet {
          QuietSoFarStep(old(render), old(sent), size, hasOutput, turns, used, before, log);
        }
        used := used + 1;
      }
      if quiet {
        QuietSoFarDone(old(render), old(sent), size, hasOutput, turns, render, sent);
      }
    }
  }

  /** The `UpdatePluginInstance` message, when it arrives and decodes. */
  method ReceiveUpdate(sock: Socket, x: Outside) returns (update: Option<Server.PluginUpdate>)
    modifies sock
    ensures update.Some? ==>
              ParseFrame(old(sock.inbox.data)).Some? &&
              update == x.decodeUpdate(ParseFrame(old(sock.inbox.data)).value.payload)
    ensures sock.outbox == old(sock.outbox)
  {
    var payload := ServerIO.ReceiveProtobuf(sock);
    if payload.None? {
      return None;
    }
    update := x.decodeUpdate(payload.value);
  }

  /** How a connection that `handle_connection` leaves was ended by the message of its final turn. */
  predicate EndedBy(o: Outcome, last: Option<ClientMessage>)
  {
    (o == Return(true) ==> last.Some? && last.value.kind in {BYE, QUIT, REQUEST_RENDER_OUTPUT}) &&
    (o == Return(false) ==>
       last.None? ||
       last.value.kind in {HELLO, UPDATE_RENDER_SETTINGS, UPDATE_WORLD_SETTINGS, UPDATE_CAMERA, REQUEST_RENDER_OUTPUT}) &&
    (o == Abort ==> last.Some? && last.value.kind == START_RENDERING)
  }

  /** No client message is waiting: `is_readable` is false. */
  predicate Quiet(ib: Inbox)
  {
    |ib.data| == 0 && !ib.closed
  }
}
