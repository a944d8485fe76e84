/**
 * The blocking TCP socket wrapper used by the C++ servers, over an abstract
 * kernel.
 *
 * The kernel side of one connection is two values. An `Inbox` holds the bytes
 * the peer has sent and not yet read, plus the outcome of each coming `recv`
 * call, which may fail or hand out fewer bytes than asked. An `Outbox` holds
 * the bytes accepted so far for the peer, plus the outcome of each coming
 * `send` call. A `recv` that hands out zero bytes means the peer closed the
 * connection, and every later `recv` hands out zero bytes too.
 */
module TcpSocket {
  import opened Bytes

  /**
   * Bytes the peer sent that are not yet read. Entry `i` of `limits` decides
   * the i-th coming recv: below zero it fails, otherwise it hands out at most
   * that many bytes. Once `limits` runs out, each recv hands out what is
   * there.
   */
  datatype Inbox = Inbox(data: seq<byte>, limits: seq<int>, closed: bool)

  /** Bytes accepted for the peer so far, and the outcome of each coming send. */
  datatype Outbox = Outbox(data: seq<byte>, limits: seq<int>)

  predicate AllPositive(s: seq<int>)
  {
    forall i :: 0 <= i < |s| ==> s[i] > 0
  }

  function Tail(s: seq<int>): (t: seq<int>)
    ensures AllPositive(s) ==> AllPositive(t)
    ensures |s| > 0 ==> t == s[1..]
  {
    if |s| == 0 then [] else s[1..]
  }

  /**
   * What is left to happen on an inbox: its unread bytes, its decided recv
   * outcomes and, while it is open, the close still to come.
   */
  function Budget(ib: Inbox): nat
  {
    |ib.data| + |ib.limits| + (if ib.closed then 0 else 1)
  }

  /** What one `recv(want)` returns: -1 on failure, otherwise a byte count. */
  function Granted(ib: Inbox, want: nat): (g: int)
    ensures g == -1 || 0 <= g <= want
    ensures g >= 0 ==> g <= |ib.data|
    ensures ib.closed ==> g == 0
    ensures !ib.closed && AllPositive(ib.limits) && want > 0 && |ib.data| > 0 ==> g > 0
  {
    if ib.closed then 0
    else if |ib.limits| == 0 then Min(want, |ib.data|)
    else if ib.limits[0] < 0 then -1
    else Min(Min(ib.limits[0], want), |ib.data|)
  }

  /** The inbox after one `recv(want)`. */
  function AfterRecv(ib: Inbox, want: nat): (r: Inbox)
    ensures Granted(ib, want) >= 0 ==> r.data == ib.data[Granted(ib, want)..]
    ensures Granted(ib, want) < 0 ==> r.data == ib.data
    ensures ib.closed ==> r == ib
    ensures want > 0 && Granted(ib, want) == 0 ==> r.closed
    ensures AllPositive(ib.limits) ==> AllPositive(r.limits)
    ensures Budget(r) <= Budget(ib)
    ensures want > 0 && !ib.closed ==> Budget(r) < Budget(ib)
  {
    if ib.closed then ib
    else
      var g := Granted(ib, want);
      if g < 0 then Inbox(ib.data, Tail(ib.limits), false)
      else Inbox(ib.data[g..], Tail(ib.limits), want > 0 && g == 0)
  }

  /** What one `send` of `len` bytes returns: -1 on failure, otherwise a count. */
  function Accepted(ob: Outbox, len: nat): (a: int)
    ensures a == -1 || 0 <= a <= len
    ensures AllPositive(ob.limits) && len > 0 ==> a > 0
  {
    if |ob.limits| == 0 then len
    else if ob.limits[0] < 0 then -1
    else Min(ob.limits[0], len)
  }

  /** The outbox after one `send` of `bytes`. */
  function AfterSend(ob: Outbox, bytes: seq<byte>): (r: Outbox)
    ensures Accepted(ob, |bytes|) >= 0 ==> r.data == ob.data + bytes[..Accepted(ob, |bytes|)]
    ensures Accepted(ob, |bytes|) < 0 ==> r.data == ob.data
    ensures AllPositive(ob.limits) ==> AllPositive(r.limits)
  {
    var a := Accepted(ob, |bytes|);
    Outbox(if a < 0 then ob.data else ob.data + bytes[..a], Tail(ob.limits))
  }

  /** One connected socket: the kernel state both directions go through. */
  class Socket {
    var inbox: Inbox
    var outbox: Outbox

    constructor (ib: Inbox, ob: Outbox)
      ensures inbox == ib && outbox == ob
    {
      inbox := ib;
      outbox := ob;
    }

    /** A single `recv` into `buf[off..off+want]`; -1 on failure. */
    method Recv(buf: array<byte>, off: nat, want: nat) returns (res: int)
      requires off + want <= buf.Length
      modifies this, buf
      ensures res == Granted(old(inbox), want)
      ensures inbox == AfterRecv(old(inbox), want)
      ensures outbox == old(outbox)
      ensures res >= 0 ==> buf[..] == old(buf[..off]) + old(inbox.data)[..res] + old(buf[off + res..])
      ensures res < 0 ==> buf[..] == old(buf[..])
    {
      res := Granted(inbox, want);
      var i := 0;
      while i < res
        invariant 0 <= i <= (if res < 0 then 0 else res)
        invariant inbox == old(inbox) && outbox == old(outbox)
        invariant forall k :: 0 <= k < buf.Length ==>
                    buf[k] == if off <= k < off + i then old(inbox.data)[k - off] else old(buf[k])
      {
        buf[off + i] := inbox.data[i];
        i := i + 1;
      }
      if res >= 0 {
        assert buf[..] == old(buf[..off]) + old(inbox.data)[..res] + old(buf[off + res..]);
      }
      inbox := AfterRecv(inbox, want);
    }

    /** A single `send` of `buf`; -1 on failure, otherwise the count accepted. */
    method Send(buf: seq<byte>) returns (res: int)
      modifies this
      ensures res == Accepted(old(outbox), |buf|)
      ensures res >= 0 ==> outbox.data == old(outbox.data) + buf[..res]
      ensures res < 0 ==> outbox.data == old(outbox.data)
      ensures outbox == AfterSend(old(outbox), buf)
      ensures inbox == old(inbox)
    {
      res := Accepted(outbox, |buf|);
      outbox := AfterSend(outbox, buf);
    }

    /**
     * Sends all of `buf`, looping on short sends from increasing offsets.
     * A send that fails or accepts nothing ends it with -1.
     */
    method SendAll(buf: seq<byte>) returns (res: int)
      modifies this
      ensures res == -1 || res == |buf|
      ensures res == |buf| ==> outbox.data == old(outbox.data) + buf
      ensures res == -1 ==>
                |old(outbox.data)| <= |outbox.data| < |old(outbox.data)| + |buf| &&
                outbox.data == old(outbox.data) + buf[..|outbox.data| - |old(outbox.data)|]
      ensures |buf| == 0 ==> res == 0 && outbox == old(outbox)
      ensures AllPositive(old(outbox.limits)) ==> res == |buf|
      ensures |old(outbox.limits)| == 0 ==> |outbox.limits| == 0
      ensures |buf| > 0 && |old(outbox.limits)| > 0 && old(outbox.limits)[0] <= 0 ==> res == -1
      ensures inbox == old(inbox)
    {
      var sent := 0;
      var len := |buf|;
      while len > 0
        invariant 0 <= sent <= |buf| && len == |buf| - sent
        invariant outbox.data == old(outbox.data) + buf[..sent]
        invariant AllPositive(old(outbox.limits)) ==> AllPositive(outbox.limits)
        invariant |old(outbox.limits)| == 0 ==> |outbox.limits| == 0
        invariant sent == 0 ==> outbox == old(outbox)
        invariant |old(outbox.limits)| > 0 && old(outbox.limits)[0] <= 0 ==> sent == 0
        invariant inbox == old(inbox)
        decreases len
      {
        var r := Send(buf[sent..]);
        if r > 0 {
          assert buf[sent..][..r] == buf[sent..sent + r];
          assert buf[..sent] + buf[sent..sent + r] == buf[..sent + r];
          sent := sent + r;
          len := len - r;
        } else if r == -1 {
          return -1;
        } else if r == 0 {
          return -1;
        }
      }
      assert buf[..sent] == buf;
      return sent;
    }

    /**
     * Receives exactly `buf.Length` bytes, looping on short reads. A recv
     * that fails or returns zero bytes (the peer closed) ends it with -1.
     */
    method RecvAll(buf: array<byte>) returns (res: int)
      modifies this, buf
      ensures res == -1 || res == buf.Length
      ensures res == buf.Length ==>
                buf.Length <= |old(inbox.data)| &&
                buf[..] == old(inbox.data)[..buf.Length] &&
                inbox.data == old(inbox.data)[buf.Length..]
      ensures buf.Length == 0 ==> res == 0 && inbox == old(inbox)
      ensures buf.Length > 0 && old(inbox.closed) ==> res == -1
      ensures |old(inbox.data)| < buf.Length ==> res == -1
      ensures (buf.Length <= |old(inbox.data)| && !old(inbox.closed) && AllPositive(old(inbox.limits)))
                ==> res == buf.Length
      ensures res == buf.Length && !old(inbox.closed) && AllPositive(old(inbox.limits)) ==>
                !inbox.closed && AllPositive(inbox.limits)
      ensures |inbox.data| <= |old(inbox.data)|
      ensures Budget(inbox) <= Budget(old(inbox))
      ensures buf.Length > 0 && !old(inbox.closed) ==> Budget(inbox) < Budget(old(inbox))
      ensures old(inbox.closed) ==> inbox == old(inbox)
      ensures outbox == old(outbox)
    {
      var received := 0;
      while received < buf.Length
        invariant 0 <= received <= buf.Length
        invariant received <= |old(inbox.data)| && inbox.data == old(inbox.data)[received..]
        invariant buf[..received] == old(inbox.data)[..received]
        invariant received == 0 ==> inbox == old(inbox)
        invariant old(inbox.closed) ==> received == 0
        invariant !old(inbox.closed) && AllPositive(old(inbox.limits)) ==>
                    !inbox.closed && AllPositive(inbox.limits)
        invariant Budget(inbox) <= Budget(old(inbox))
        invariant received > 0 ==> Budget(inbox) < Budget(old(inbox))
        invariant outbox == old(outbox)
        decreases buf.Length - received
      {
        ghost var before := inbox;
        ghost var prefix := buf[..received];
        var r := Recv(buf, received, buf.Length - received);
        if r <= 0 {
          return -1;
        }
        assert buf[..received + r] == prefix + before.data[..r];
        assert old(inbox.data)[..received] + before.data[..r] == old(inbox.data)[..received + r];
        received := received + r;
      }
      assert buf[..] == old(inbox.data)[..buf.Length];
      return received;
    }

    /** Zero-timeout poll: true iff a recv would not block. */
    method IsReadable() returns (r: bool)
      ensures r <==> |inbox.data| > 0 || inbox.closed
    {
      r := |inbox.data| > 0 || inbox.closed;
    }
  }
}
