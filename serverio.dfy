/**
 * Message input of the C++ render servers: `receive_protobuf` reads the
 * 4-byte size with `recvall`, then exactly that many payload bytes with a
 * second `recvall`; the raw arrays that follow some messages are single
 * `recvall` calls of a size the server computes. The size word is read in
 * host order, which on the x86 hosts the server runs on is little-endian.
 */
module ServerIO {
  import opened Bytes
  import opened Wrappers
  import opened TcpSocket
  import opened Framing

  /** The peer has not closed, and no coming recv fails or hands out nothing. */
  predicate Healthy(ib: Inbox)
  {
    !ib.closed && AllPositive(ib.limits)
  }

  /** One `recvall` of `n` bytes into a fresh buffer; `None` when it fails. */
  method ReceiveArray(sock: Socket, n: nat) returns (r: Option<seq<byte>>)
    modifies sock
    ensures r.Some? ==> n <= |old(sock.inbox.data)| && r.value == old(sock.inbox.data)[..n] &&
                        sock.inbox.data == old(sock.inbox.data)[n..]
    ensures |old(sock.inbox.data)| < n ==> r.None?
    ensures Healthy(old(sock.inbox)) && n <= |old(sock.inbox.data)| ==> r.Some? && Healthy(sock.inbox)
    ensures n == 0 ==> r == Some([]) && sock.inbox == old(sock.inbox)
    ensures |sock.inbox.data| <= |old(sock.inbox.data)|
    ensures Budget(sock.inbox) <= Budget(old(sock.inbox))
    ensures n > 0 && !old(sock.inbox.closed) ==> Budget(sock.inbox) < Budget(old(sock.inbox))
    ensures old(sock.inbox.closed) ==> sock.inbox == old(sock.inbox) && (n > 0 ==> r.None?)
    ensures sock.outbox == old(sock.outbox)
  {
    var buf := new byte[n];
    var res := sock.RecvAll(buf);
    if res == -1 {
      return None;
    }
    return Some(buf[..]);
  }

  /**
   * `receive_protobuf`: the payload of the first frame on the stream, or
   * `None` when either `recvall` fails. Parsing the payload into a message
   * is left to the caller.
   */
  method ReceiveProtobuf(sock: Socket) returns (payload: Option<seq<byte>>)
    modifies sock
    ensures payload.Some? ==> ParseFrame(old(sock.inbox.data)) == Some(Split(payload.value, sock.inbox.data))
    ensures ParseFrame(old(sock.inbox.data)).None? ==> payload.None?
    ensures Healthy(old(sock.inbox)) && ParseFrame(old(sock.inbox.data)).Some? ==>
              payload.Some? && Healthy(sock.inbox)
    ensures |sock.inbox.data| <= |old(sock.inbox.data)|
    ensures !old(sock.inbox.closed) ==> Budget(sock.inbox) < Budget(old(sock.inbox))
    ensures old(sock.inbox.closed) ==> payload.None? && sock.inbox == old(sock.inbox)
    ensures sock.outbox == old(sock.outbox)
  {
    var sizeBytes := ReceiveArray(sock, 4);
    if sizeBytes.None? {
      return None;
    }
    var size := ReadLE32(sizeBytes.value);
    ghost var afterSize := sock.inbox.data;
    var body := ReceiveArray(sock, size);
    if body.None? {
      return None;
    }
    assert old(sock.inbox.data)[4..] == afterSize;
    assert old(sock.inbox.data)[4..4 + size] == body.value;
    assert old(sock.inbox.data)[4 + size..] == sock.inbox.data;
    return body;
  }
}
