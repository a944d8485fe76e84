/**
 * The message framing every protocol generation shares: a serialised
 * protobuf message goes on the wire as its byte length, a little-endian
 * unsigned 32-bit word, followed by the message bytes. Raw arrays and images
 * that follow a message carry no length prefix of their own.
 */
module Framing {
  import opened Bytes
  import opened Wrappers

  /** A parsed frame: the payload and whatever follows it on the stream. */
  datatype Split = Split(payload: seq<byte>, rest: seq<byte>)

  /** One length-prefixed message. */
  function Frame(payload: seq<byte>): (r: seq<byte>)
    requires |payload| < U32_LIMIT
    ensures |r| == 4 + |payload|
    ensures r[4..] == payload
  {
    LE32(|payload|) + payload
  }

  /** Splits the first frame off a byte stream; `None` when it is incomplete. */
  function ParseFrame(b: seq<byte>): (r: Option<Split>)
    ensures r.Some? ==> |r.value.payload| < U32_LIMIT
    ensures r.Some? <==> |b| >= 4 && |b| >= 4 + ReadLE32(b)
  {
    if |b| < 4 then None
    else
      var size := ReadLE32(b);
      if |b| < 4 + size then None
      else Some(Split(b[4..4 + size], b[4 + size..]))
  }

  /** Parsing a framed message gives back the message and the untouched rest. */
  lemma ParseFrameOfFrame(payload: seq<byte>, rest: seq<byte>)
    requires |payload| < U32_LIMIT
    ensures ParseFrame(Frame(payload) + rest) == Some(Split(payload, rest))
  {
    var b := Frame(payload) + rest;
    assert b[..4] == LE32(|payload|);
    assert ReadLE32(b) == ReadLE32(b[..4]);
    assert b[4..4 + |payload|] == payload;
    assert b[4 + |payload|..] == rest;
  }

  /** Conversely, a stream a frame can be split from is that frame plus the rest. */
  lemma FrameOfParseFrame(b: seq<byte>)
    requires ParseFrame(b).Some?
    ensures Frame(ParseFrame(b).value.payload) + ParseFrame(b).value.rest == b
  {
    var s := ParseFrame(b).value;
    LE32OfReadLE32(b);
    assert |s.payload| == ReadLE32(b);
    assert b == b[..4] + s.payload + s.rest;
  }
}
