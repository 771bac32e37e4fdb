/**
 The chunking loops that push one slice through a socket and tolerate partial sends
 (tb_stream_connection, tb_stream_client with tb_send_data, tb_udt_m_connection, tb_udt_client).

 The kernel is a script of replies. A reply never asks for more than it was offered, so any script
 is a legal behaviour of `send`, and every behaviour of `send` is some script.
 */
module ChunkedSend {
  import opened Sums
  import opened Slices

  /** Fails, would block, or takes as many of the offered bytes as there is room for. */
  datatype Reply = Error | Again | Room(bytes: nat)

  datatype Outcome = Sent | Failed | Pending

  /** The most that one reply can take from a request of at most `pack` bytes. */
  function Credit(r: Reply, pack: nat): nat {
    if r.Room? then Min(r.bytes, pack) else 0
  }

  /** The most that the first `k` replies can take. */
  function Capacity(replies: seq<Reply>, k: nat, pack: nat): nat
    requires k <= |replies|
  {
    if k == 0 then 0 else Capacity(replies, k - 1, pack) + Credit(replies[k - 1], pack)
  }

  /** The kernel side of a connection: what is on the wire, and the replies still to come, starting with `next`. */
  class Socket {
    var wire: seq<byte>
    const script: seq<Reply>
    var next: nat

    ghost predicate Valid()
      reads this
    {
      next <= |script|
    }

    constructor (replies: seq<Reply>)
      ensures Valid() && wire == [] && script == replies && next == 0
    {
      wire, script, next := [], replies, 0;
    }

    /** `send`: -1 on an error, otherwise the number of leading bytes of `offer` now on the wire. */
    method Send(offer: seq<byte>) returns (rc: int)
      requires Valid() && next < |script|
      modifies this
      ensures Valid() && next == old(next) + 1
      ensures rc == -1 <==> !script[old(next)].Room?
      ensures rc != -1 ==> rc == Min(script[old(next)].bytes, |offer|) && wire == old(wire) + offer[..rc]
      ensures rc == -1 ==> wire == old(wire)
    {
      var reply := script[next];
      next := next + 1;
      if reply.Room? {
        rc := Min(reply.bytes, |offer|);
        wire := wire + offer[..rc];
      } else {
        rc := -1;
      }
    }
  }

  /** tb_send_data: an error aborts, except that the DCCP client (`tolerant`) takes EAGAIN for nothing sent. */
  method SendData(sock: Socket, offer: seq<byte>, tolerant: bool) returns (rc: nat, failed: bool)
    requires sock.Valid() && sock.next < |sock.script|
    modifies sock
    ensures sock.Valid() && sock.next == old(sock.next) + 1
    ensures match sock.script[old(sock.next)]
            case Error => failed
            case Again => failed == !tolerant
            case Room(_) => !failed
    ensures rc == Credit(sock.script[old(sock.next)], |offer|) && sock.wire == old(sock.wire) + offer[..rc]
  {
    var again := sock.script[sock.next].Again?;
    var sent := sock.Send(offer);
    rc, failed := 0, false;
    if sent == -1 {
      failed := !(again && tolerant);
    } else {
      rc := sent;
    }
  }

  lemma WireGrows(data: seq<byte>, total: nat, size: nat, rc: nat)
    requires rc <= size && total + size <= |data|
    ensures data[..total] + data[total..total + size][..rc] == data[..total + rc]
  {
  }

  /**
   The loop, with its request size kept in a variable that is lowered but never raised again.
   Whatever the replies, the bytes on the wire are the slice cut at the smaller of its length and
   the capacity of the replies used; the loop succeeds exactly when that is the whole slice, and
   it uses no reply beyond the one that completes it. It fails exactly at an error or an EAGAIN that is not tolerated.
   */
  method SendSlice(sock: Socket, data: seq<byte>, pack: nat, tolerant: bool) returns (total: nat, outcome: Outcome)
    requires 0 < pack && sock.Valid() && sock.next == 0
    modifies sock
    ensures sock.Valid() && total == Min(|data|, Capacity(sock.script, sock.next, pack))
    ensures sock.wire == old(sock.wire) + data[..total]
    ensures outcome.Sent? <==> total == |data|
    ensures outcome.Failed? <==>
      sock.next > 0 && (sock.script[sock.next - 1] == Error || (sock.script[sock.next - 1] == Again && !tolerant))
    ensures outcome.Pending? ==> sock.next == |sock.script|
    ensures sock.next > 0 ==> Capacity(sock.script, sock.next - 1, pack) < |data|
    ensures forall i :: 0 <= i < sock.next - 1 ==> sock.script[i].Room? || (sock.script[i].Again? && tolerant)
  {
    total := 0;
    var size := pack;
    while total < |data| && sock.next < |sock.script|
      invariant 0 <= total <= |data| && sock.Valid()
      invariant size == pack || |data| - total < pack
      invariant total == Min(|data|, Capacity(sock.script, sock.next, pack))
      invariant sock.wire == old(sock.wire) + data[..total]
      invariant forall i :: 0 <= i < sock.next ==> sock.script[i].Room? || (sock.script[i].Again? && tolerant)
      invariant sock.next > 0 ==> Capacity(sock.script, sock.next - 1, pack) < |data|
      decreases |sock.script| - sock.next
    {
      var remaining := |data| - total;
      if remaining < pack {
        size := remaining;
      }
      var rc, failed := SendData(sock, data[total..total + size], tolerant);
      if failed {
        outcome := Failed;
        return;
      }
      WireGrows(data, total, size, rc);
      total := total + rc;
    }
    outcome := if total == |data| then Sent else Pending;
  }

  /**
   How many replies a slice can take: with at least one byte of room each, never more than one per
   byte; with room for every full request, one per packet and no fewer.
   */
  lemma {:induction false} CapacityBounds(replies: seq<Reply>, k: nat, pack: nat)
    requires 0 < pack && k <= |replies|
    ensures Capacity(replies, k, pack) <= pack * k
    ensures (forall i :: 0 <= i < k ==> replies[i].Room? && 0 < replies[i].bytes) ==> k <= Capacity(replies, k, pack)
    ensures (forall i :: 0 <= i < k ==> replies[i].Room? && pack <= replies[i].bytes) ==>
      Capacity(replies, k, pack) == pack * k
  {
    if k > 0 {
      CapacityBounds(replies, k - 1, pack);
      assert pack * k == pack * (k - 1) + pack;
    }
  }
}
