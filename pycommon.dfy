/**
 * The Blender add-on's socket helpers (render_ospray/common.py; the copies in
 * render_ospray/connection.py and render_ospray/engine.py are textually the
 * same): Python's socket calls over the kernel model of `TcpSocket`, message
 * framing, and the receive loops that gather a byte count in chunks.
 *
 * Python's `recv` raises where the C call returns -1, and returns an empty
 * chunk once the peer has closed. None of these loops checks for an empty
 * chunk: the remaining count then never changes and the loop never ends. The
 * model stops there with the outcome `Stalled`; the socket is then closed for
 * good, so every further iteration would have received nothing again.
 */
module PyCommon {
  import opened Bytes
  import opened TcpSocket
  import opened Framing
  import opened Wrappers

  /** The protocol version the add-on announces in HELLO. */
  const PROTOCOL_VERSION: nat := 2

  /** Largest chunk `receive_buffer` asks for in one call. */
  const CHUNK: nat := 4096

  /** How a receive loop sizes each recv request. */
  datatype Request =
    | Remaining                    // recv(bytes_left)
    | CappedRemaining(cap: nat)    // recv(min(left, cap))
    | CappedTotal(cap: nat)        // recv(min(n, cap)), whatever is left

  /** Outcome of a Python receive loop. */
  datatype Outcome =
    | Got(bytes: seq<byte>, rest: Inbox)   // the loop ended normally
    | Raised                               // a call raised an exception
    | Stalled                              // an empty chunk: the source loops forever

  predicate ValidRequest(rule: Request, n: nat)
  {
    (rule.CappedRemaining? ==> rule.cap > 0) && (rule.CappedTotal? ==> rule.cap > 0)
  }

  function Want(rule: Request, n: nat, left: nat): (w: nat)
    ensures rule.Remaining? ==> w == left
    ensures rule.CappedRemaining? ==> w <= left
  {
    match rule
    case Remaining => left
    case CappedRemaining(c) => Min(left, c)
    case CappedTotal(c) => Min(n, c)
  }

  function Prepend(p: seq<byte>, o: Outcome): Outcome
  {
    match o
    case Got(b, r) => Got(p + b, r)
    case _ => o
  }

  /**
   * The specification of a receive loop that owes `left` more bytes out of
   * `n`: each turn asks for `Want(rule, n, left)` bytes and subtracts what
   * arrived.
   */
  function ReadLoop(ib: Inbox, rule: Request, n: nat, left: int): Outcome
    requires ValidRequest(rule, n) && left <= n
    decreases if left > 0 then left else 0
  {
    if left <= 0 then Got([], ib)
    else
      var want := Want(rule, n, left);
      var g := Granted(ib, want);
      if g < 0 then Raised
      else if g == 0 then Stalled
      else Prepend(ib.data[..g], ReadLoop(AfterRecv(ib, want), rule, n, left - g))
  }

  /**
   * A loop that never asks for more than it still owes ends with exactly the
   * owed bytes, taken in order from the front of the stream.
   */
  lemma {:induction false} ReadLoopExact(ib: Inbox, rule: Request, n: nat, left: nat)
    requires ValidRequest(rule, n) && left <= n && !rule.CappedTotal?
    requires ReadLoop(ib, rule, n, left).Got?
    ensures left <= |ib.data|
    ensures ReadLoop(ib, rule, n, left).bytes == ib.data[..left]
    ensures ReadLoop(ib, rule, n, left).rest.data == ib.data[left..]
    decreases left
  {
    if left > 0 {
      var want := Want(rule, n, left);
      var g := Granted(ib, want);
      var next := AfterRecv(ib, want);
      var tail := ReadLoop(next, rule, n, left - g);
      assert ReadLoop(ib, rule, n, left) == Prepend(ib.data[..g], tail);
      assert 0 < g <= left && next.data == ib.data[g..];
      ReadLoopExact(next, rule, n, left - g);
      PrependSplit(ib.data, g, left - g, tail, ReadLoop(ib, rule, n, left));
    }
  }

  /** `g` bytes taken in front of a loop that took the next `k` make `g + k` bytes from the front. */
  lemma PrependSplit(d: seq<byte>, g: nat, k: nat, tail: Outcome, whole: Outcome)
    requires g + k <= |d| && whole == Prepend(d[..g], tail) && tail.Got?
    requires tail.bytes == d[g..][..k] && tail.rest.data == d[g..][k..]
    ensures whole.Got? && |whole.bytes| == g + k
    ensures whole.bytes == d[..g + k] && whole.rest.data == d[g + k..]
  {
    assert d[..g] + d[g..][..k] == d[..g + k];
    assert d[g..][k..] == d[g + k..];
  }

  /** With a well-behaved peer that sent enough, such a loop always completes. */
  lemma {:induction false} ReadLoopCompletes(ib: Inbox, rule: Request, n: nat, left: nat)
    requires ValidRequest(rule, n) && left <= n && !rule.CappedTotal?
    requires !ib.closed && AllPositive(ib.limits) && left <= |ib.data|
    ensures ReadLoop(ib, rule, n, left).Got?
    decreases left
  {
    if left > 0 {
      var want := Want(rule, n, left);
      assert want > 0;
      var g := Granted(ib, want);
      ReadLoopCompletes(AfterRecv(ib, want), rule, n, left - g);
    }
  }

  /** Such a completed loop leaves a connection that is still open and, when unlimited, still unlimited. */
  lemma {:induction false} ReadLoopStaysOpen(ib: Inbox, rule: Request, n: nat, left: int)
    requires ValidRequest(rule, n) && left <= n
    requires !ib.closed && |ib.limits| == 0
    requires ReadLoop(ib, rule, n, left).Got?
    ensures !ReadLoop(ib, rule, n, left).rest.closed && |ReadLoop(ib, rule, n, left).rest.limits| == 0
    decreases if left > 0 then left else 0
  {
    if left > 0 {
      var want := Want(rule, n, left);
      var g := Granted(ib, want);
      var next := AfterRecv(ib, want);
      assert g > 0 && next == Inbox(ib.data[g..], [], false);
      ReadLoopStaysOpen(next, rule, n, left - g);
    }
  }

  /**
   * A loop whose request size ignores what is left may consume more than it
   * owes: the total is at least the owed count, still a prefix of the stream.
   */
  lemma {:induction false} ReadLoopOverread(ib: Inbox, n: nat, left: int)
    requires n > 0 && left <= n
    requires ReadLoop(ib, CappedTotal(CHUNK), n, left).Got?
    ensures |ReadLoop(ib, CappedTotal(CHUNK), n, left).bytes| >= left
    ensures |ReadLoop(ib, CappedTotal(CHUNK), n, left).bytes| <= |ib.data|
    ensures ReadLoop(ib, CappedTotal(CHUNK), n, left).bytes
              == ib.data[..|ReadLoop(ib, CappedTotal(CHUNK), n, left).bytes|]
    ensures ReadLoop(ib, CappedTotal(CHUNK), n, left).rest.data
              == ib.data[|ReadLoop(ib, CappedTotal(CHUNK), n, left).bytes|..]
    decreases if left > 0 then left else 0
  {
    if left > 0 {
      var want := Want(CappedTotal(CHUNK), n, left);
      var g := Granted(ib, want);
      var next := AfterRecv(ib, want);
      var tail := ReadLoop(next, CappedTotal(CHUNK), n, left - g);
      assert ReadLoop(ib, CappedTotal(CHUNK), n, left) == Prepend(ib.data[..g], tail);
      assert 0 < g <= |ib.data| && next.data == ib.data[g..];
      ReadLoopOverread(next, n, left - g);
      PrependSplit(ib.data, g, |tail.bytes|, tail, ReadLoop(ib, CappedTotal(CHUNK), n, left));
    }
  }

  /**
   * `receive_buffer(sock, 10)` against a peer that sent 20 bytes, where the
   * first recv hands out only 6: the second recv asks for 10 again, and the
   * call returns 16 bytes.
   */
  lemma ReceiveBufferOverreadExample()
    ensures var ib := Inbox(seq(20, i => 0), [6], false);
            ReadLoop(ib, CappedTotal(CHUNK), 10, 10).Got? &&
            |ReadLoop(ib, CappedTotal(CHUNK), 10, 10).bytes| == 16
  {
    var ib := Inbox(seq(20, i => 0), [6], false);
    var ib1 := AfterRecv(ib, 10);
    assert Granted(ib, 10) == 6;
    assert ib1.data == seq(14, i => 0) && ib1.limits == [] && !ib1.closed;
    var ib2 := AfterRecv(ib1, 10);
    assert Granted(ib1, 10) == 10;
    assert ReadLoop(ib2, CappedTotal(CHUNK), 10, -6) == Got([], ib2);
    assert ReadLoop(ib1, CappedTotal(CHUNK), 10, 4) == Got(ib1.data[..10], ib2);
  }

  function Join(parts: seq<seq<byte>>): (r: seq<byte>)
  {
    if parts == [] then [] else Join(parts[..|parts| - 1]) + parts[|parts| - 1]
  }

  lemma JoinSnoc(parts: seq<seq<byte>>, d: seq<byte>)
    ensures Join(parts + [d]) == Join(parts) + d
  {
    assert (parts + [d])[..|parts|] == parts;
  }

  lemma PrependPrepend(a: seq<byte>, b: seq<byte>, o: Outcome)
    ensures Prepend(a, Prepend(b, o)) == Prepend(a + b, o)
  {
    match o
    case Got(c, r) => assert a + (b + c) == (a + b) + c;
    case _ =>
  }

  /**
   * The receive loop's invariant: what the whole loop yields is the parts
   * joined so far followed by what the rest of the loop yields.
   */
  predicate Tracks(start: Inbox, parts: seq<seq<byte>>, ib: Inbox, rule: Request, n: nat, left: int)
    requires ValidRequest(rule, n) && left <= n
  {
    ReadLoop(start, rule, n, n) == Prepend(Join(parts), ReadLoop(ib, rule, n, left))
  }

  /** A turn of the receive loop that got `d`: the joined parts grow by `d`. */
  lemma {:induction false} TurnKeeps(start: Inbox, parts: seq<seq<byte>>, before: Inbox, after: Inbox, rule: Request, n: nat, left: int, d: seq<byte>)
    requires ValidRequest(rule, n) && 0 < left <= n && Tracks(start, parts, before, rule, n, left)
    requires Granted(before, Want(rule, n, left)) == |d| > 0 && d == before.data[..|d|]
    requires after == AfterRecv(before, Want(rule, n, left))
    ensures Tracks(start, parts + [d], after, rule, n, left - |d|)
  {
    var rest := ReadLoop(after, rule, n, left - |d|);
    assert ReadLoop(before, rule, n, left) == Prepend(d, rest);
    PrependPrepend(Join(parts), d, rest);
    JoinSnoc(parts, d);
  }

  /** A turn of the receive loop whose recv raised or got nothing ends the whole loop that way. */
  lemma {:induction false} TurnEnds(start: Inbox, parts: seq<seq<byte>>, before: Inbox, rule: Request, n: nat, left: int)
    requires ValidRequest(rule, n) && 0 < left <= n && Tracks(start, parts, before, rule, n, left)
    requires Granted(before, Want(rule, n, left)) <= 0
    ensures Granted(before, Want(rule, n, left)) < 0 ==> ReadLoop(start, rule, n, n) == Raised
    ensures Granted(before, Want(rule, n, left)) == 0 ==> ReadLoop(start, rule, n, n) == Stalled
  {
  }

  /** The loop starts with nothing joined, and ends when nothing is left. */
  lemma TracksEnds(start: Inbox, parts: seq<seq<byte>>, ib: Inbox, rule: Request, n: nat, left: int)
    requires ValidRequest(rule, n)
    ensures Tracks(start, [], start, rule, n, n)
    ensures left <= 0 && Tracks(start, parts, ib, rule, n, left) ==> ReadLoop(start, rule, n, n) == Got(Join(parts), ib)
  {
    PrependPrepend([], [], ReadLoop(start, rule, n, n));
    assert Join(parts) + [] == Join(parts);
  }

  /** Python's `sock.recv(want)`: raises on failure, else returns a chunk. */
  method PyRecv(sock: Socket, want: nat) returns (raised: bool, d: seq<byte>)
    modifies sock
    ensures raised <==> Granted(old(sock.inbox), want) < 0
    ensures !raised ==> d == old(sock.inbox.data)[..Granted(old(sock.inbox), want)]
    ensures sock.inbox == AfterRecv(old(sock.inbox), want)
    ensures sock.outbox == old(sock.outbox)
  {
    var g := Granted(sock.inbox, want);
    raised := g < 0;
    d := if raised then [] else sock.inbox.data[..g];
    sock.inbox := AfterRecv(sock.inbox, want);
  }

  /**
   * The loop shared by `receive_protobuf`, `receive_buffer` and
   * `_read_framebuffer_to_file`: append each chunk to `parts` and subtract
   * its length from what is left, until nothing is left; then join.
   */
  method ReceiveChunks(sock: Socket, rule: Request, n: nat) returns (o: Outcome)
    requires ValidRequest(rule, n)
    modifies sock
    ensures o == ReadLoop(old(sock.inbox), rule, n, n)
    ensures o.Got? ==> sock.inbox == o.rest
    ensures o.Stalled? ==> sock.inbox.closed
    ensures sock.outbox == old(sock.outbox)
  {
    var parts: seq<seq<byte>> := [];
    var left: int := n;
    ghost var start := sock.inbox;
    TracksEnds(start, parts, start, rule, n, n);
    while left > 0
      invariant left <= n && Tracks(start, parts, sock.inbox, rule, n, left)
      invariant sock.outbox == old(sock.outbox)
      decreases left
    {
      var want := Want(rule, n, left);
      ghost var before := sock.inbox;
      var raised, d := PyRecv(sock, want);
      if raised || |d| == 0 {
        TurnEnds(start, parts, before, rule, n, left);
        return if raised then Raised else Stalled;
      }
      TurnKeeps(start, parts, before, sock.inbox, rule, n, left, d);
      parts := parts + [d];
      left := left - |d|;
    }
    TracksEnds(start, parts, sock.inbox, rule, n, left);
    o := Got(Join(parts), sock.inbox);
  }

  /** The outcome of receiving one framed protobuf message. */
  datatype Message = Message(payload: seq<byte>) | MessageRaised | MessageStalled

  /**
   * `receive_protobuf`: one `recv(4)` for the length prefix (a short prefix
   * makes `unpack` raise), then chunks until that many bytes are joined.
   */
  method ReceiveProtobuf(sock: Socket) returns (m: Message)
    modifies sock
    ensures m.Message? ==>
              ParseFrame(old(sock.inbox.data)) == Some(Split(m.payload, sock.inbox.data))
    ensures m.MessageStalled? ==> sock.inbox.closed
    ensures (!old(sock.inbox.closed) && AllPositive(old(sock.inbox.limits)) &&
             (|old(sock.inbox.limits)| == 0 || old(sock.inbox.limits)[0] >= 4) &&
             ParseFrame(old(sock.inbox.data)).Some?) ==> m.Message?
    ensures m.Message? && !old(sock.inbox.closed) && |old(sock.inbox.limits)| == 0 ==>
              !sock.inbox.closed && |sock.inbox.limits| == 0
    ensures sock.outbox == old(sock.outbox)
  {
    var raised, d := PyRecv(sock, 4);
    if raised || |d| != 4 {
      return MessageRaised;
    }
    var bufsize := ReadLE32(d);
    ghost var afterPrefix := sock.inbox;
    var o := ReceiveChunks(sock, Remaining, bufsize);
    match o {
      case Got(b, r) =>
        ReadLoopExact(afterPrefix, Remaining, bufsize, bufsize);
        if !old(sock.inbox.closed) && |old(sock.inbox.limits)| == 0 {
          ReadLoopStaysOpen(afterPrefix, Remaining, bufsize, bufsize);
        }
        assert old(sock.inbox.data)[4..][..bufsize] == old(sock.inbox.data)[4..4 + bufsize];
        m := Message(b);
      case Raised =>
        m := MessageRaised;
      case Stalled =>
        m := MessageStalled;
    }
    if ParseFrame(old(sock.inbox.data)).Some? && !old(sock.inbox.closed) && AllPositive(old(sock.inbox.limits)) {
      ReadLoopCompletes(afterPrefix, Remaining, bufsize, bufsize);
    }
  }

  /** Python's `sock.send(b)`: raises on failure, else returns the count accepted. */
  method PySend(sock: Socket, b: seq<byte>) returns (raised: bool, count: nat)
    modifies sock
    ensures raised <==> Accepted(old(sock.outbox), |b|) < 0
    ensures !raised ==> count == Accepted(old(sock.outbox), |b|) &&
                        sock.outbox.data == old(sock.outbox.data) + b[..count]
    ensures raised ==> sock.outbox.data == old(sock.outbox.data)
    ensures sock.outbox == AfterSend(old(sock.outbox), b)
    ensures sock.inbox == old(sock.inbox)
  {
    var r := sock.Send(b);
    raised := r < 0;
    count := if r < 0 then 0 else r;
  }

  /**
   * `send_protobuf`: one `send` of the 4-byte length, then `sendall` or a
   * single `send` of the payload. `pack('<I', ...)` raises for a payload of
   * 2^32 bytes or more.
   */
  method SendProtobuf(sock: Socket, payload: seq<byte>, useSendAll: bool) returns (raised: bool)
    modifies sock
    ensures |payload| >= U32_LIMIT ==> raised && sock.outbox == old(sock.outbox)
    ensures |payload| < U32_LIMIT && |old(sock.outbox.limits)| == 0 ==>
              !raised && sock.outbox.data == old(sock.outbox.data) + Frame(payload)
    ensures |payload| < U32_LIMIT && useSendAll && AllPositive(old(sock.outbox.limits)) &&
            (|old(sock.outbox.limits)| == 0 || old(sock.outbox.limits)[0] >= 4) ==>
              !raised && sock.outbox.data == old(sock.outbox.data) + Frame(payload)
    ensures |payload| < U32_LIMIT && !useSendAll && |old(sock.outbox.limits)| >= 2 &&
            old(sock.outbox.limits)[0] >= 4 && 0 <= old(sock.outbox.limits)[1] < |payload| ==>
              !raised && sock.outbox.data == old(sock.outbox.data) + LE32(|payload|) +
                                             payload[..old(sock.outbox.limits)[1]]
    ensures |old(sock.outbox.limits)| == 0 ==> |sock.outbox.limits| == 0
    ensures sock.inbox == old(sock.inbox)
  {
    if |payload| >= U32_LIMIT {
      return true;
    }
    var header := LE32(|payload|);
    var r, count := PySend(sock, header);
    if r {
      return true;
    }
    ghost var mid := sock.outbox;
    if |old(sock.outbox.limits)| == 0 || old(sock.outbox.limits)[0] >= 4 {
      assert header[..count] == header;
      assert mid.data == old(sock.outbox.data) + header;
    }
    if useSendAll {
      var res := sock.SendAll(payload);
      raised := res == -1;
    } else {
      var c;
      raised, c := PySend(sock, payload);
      if |old(sock.outbox.limits)| == 0 {
        assert payload[..c] == payload;
      }
    }
    if !raised && sock.outbox.data == mid.data + payload && mid.data == old(sock.outbox.data) + header {
      assert sock.outbox.data == old(sock.outbox.data) + Frame(payload);
    }
  }

  /** `receive_buffer(sock, n)` as written: every request is `min(n, 4096)`. */
  method ReceiveBuffer(sock: Socket, n: nat) returns (o: Outcome)
    modifies sock
    ensures o == ReadLoop(old(sock.inbox), CappedTotal(CHUNK), n, n)
    ensures o.Got? ==> n <= |o.bytes| <= |old(sock.inbox.data)| && o.bytes == old(sock.inbox.data)[..|o.bytes|]
    ensures sock.outbox == old(sock.outbox)
  {
    o := ReceiveChunks(sock, CappedTotal(CHUNK), n);
    if o.Got? && n > 0 {
      ReadLoopOverread(old(sock.inbox), n, n);
    }
  }

  /** `receive_buffer` with each request `min(left, 4096)`: exactly `n` bytes. */
  method ReceiveBufferExact(sock: Socket, n: nat) returns (o: Outcome)
    modifies sock
    ensures o == ReadLoop(old(sock.inbox), CappedRemaining(CHUNK), n, n)
    ensures o.Got? ==> n <= |old(sock.inbox.data)| && o.bytes == old(sock.inbox.data)[..n] &&
                       sock.inbox.data == old(sock.inbox.data)[n..]
    ensures (!old(sock.inbox.closed) && AllPositive(old(sock.inbox.limits)) && n <= |old(sock.inbox.data)|)
              ==> o.Got?
    ensures sock.outbox == old(sock.outbox)
  {
    o := ReceiveChunks(sock, CappedRemaining(CHUNK), n);
    if o.Got? {
      ReadLoopExact(old(sock.inbox), CappedRemaining(CHUNK), n, n);
    }
    if !old(sock.inbox.closed) && AllPositive(old(sock.inbox.limits)) && n <= |old(sock.inbox.data)| {
      ReadLoopCompletes(old(sock.inbox), CappedRemaining(CHUNK), n, n);
    }
  }

  /**
   * `receive_into_numpy_array(sock, buffer, n)`: `recv_into` writes each chunk
   * at the current view offset, and the view advances past it.
   */
  method ReceiveIntoArray(sock: Socket, buffer: array<byte>, n: nat) returns (o: Outcome)
    requires n <= buffer.Length
    modifies sock, buffer
    ensures o.Got? ==> n <= |old(sock.inbox.data)| && buffer[..n] == old(sock.inbox.data)[..n] &&
                       buffer[n..] == old(buffer[n..]) &&
                       sock.inbox.data == old(sock.inbox.data)[n..]
    ensures o.Stalled? ==> sock.inbox.closed
    ensures (!old(sock.inbox.closed) && AllPositive(old(sock.inbox.limits)) && n <= |old(sock.inbox.data)|)
              ==> o.Got?
    ensures sock.outbox == old(sock.outbox)
  {
    ghost var orig := sock.inbox;
    ghost var cur := sock.inbox;
    var off: nat := 0;
    var left: int := n;
    while left > 0
      invariant 0 <= off <= n && left == n - off
      invariant sock.inbox == cur
      invariant off <= |orig.data| && cur.data == orig.data[off..]
      invariant !orig.closed && AllPositive(orig.limits) && n <= |orig.data| ==> !cur.closed && AllPositive(cur.limits)
      invariant buffer[..off] == orig.data[..off]
      invariant buffer[n..] == old(buffer[n..])
      invariant sock.outbox == old(sock.outbox)
      decreases left
    {
      ghost var prefix := buffer[..off];
      ghost var suffix := buffer[n..];
      var got := sock.Recv(buffer, off, left);
      if got < 0 {
        return Raised;
      }
      if got == 0 {
        return Stalled;
      }
      assert buffer[..off + got] == prefix + cur.data[..got];
      assert buffer[n..] == suffix;
      cur := sock.inbox;
      off := off + got;
      left := left - got;
    }
    assert buffer[..n] == orig.data[..n];
    o := Got(buffer[..n], sock.inbox);
    assert buffer[n..] == old(buffer[n..]);
  }
}
