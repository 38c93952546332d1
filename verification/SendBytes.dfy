/** Sending a packet over a socket in chunks, with a limited number of sends. */
module SendBytes {
  import opened Seqs

  const MAX_TCP_BUFFER := 1024
  const SEND_ATTEMPTS := 5

  type Bytes = seq<bv8>

  /** The chunks a packet is cut into; an empty packet still makes one send. */
  function Chunks(packet: Bytes): (c: seq<Bytes>)
    ensures c != []
    decreases |packet|
  {
    if |packet| <= MAX_TCP_BUFFER then [packet] else [packet[..MAX_TCP_BUFFER]] + Chunks(packet[MAX_TCP_BUFFER..])
  }

  /** The chunks put together are the packet, and each fits the buffer. */
  lemma {:induction false} ChunksAreThePacket(packet: Bytes)
    ensures Flatten(Chunks(packet)) == packet
    ensures forall i :: 0 <= i < |Chunks(packet)| ==> |Chunks(packet)[i]| <= 1024
    decreases |packet|
  {
    if |packet| <= MAX_TCP_BUFFER {
      assert Chunks(packet) == [packet] && [packet][1..] == [];
    } else {
      ChunksAreThePacket(packet[MAX_TCP_BUFFER..]);
      assert packet == packet[..MAX_TCP_BUFFER] + packet[MAX_TCP_BUFFER..];
    }
  }

  lemma {:induction false} ChunkCount(packet: Bytes)
    ensures |packet| <= |Chunks(packet)| * MAX_TCP_BUFFER
    ensures |Chunks(packet)| > 1 ==> (|Chunks(packet)| - 1) * MAX_TCP_BUFFER < |packet|
    decreases |packet|
  {
    if |packet| > MAX_TCP_BUFFER {
      ChunkCount(packet[MAX_TCP_BUFFER..]);
    }
  }

  /** Five sends are enough exactly for packets of up to five buffers. */
  lemma FitsIff(packet: Bytes)
    ensures |Chunks(packet)| <= 5 <==> |packet| <= 5 * 1024
  {
    ChunkCount(packet);
  }

  /** Every send takes its whole chunk, there are few enough, and the time is not up in between. */
  ghost predicate AllTaken(packet: Bytes, taken: nat -> int, expired: nat -> bool) {
    var c := Chunks(packet);
    && |c| <= SEND_ATTEMPTS
    && (forall i :: 0 <= i < |c| ==> taken(i) == |c[i]|)
    && (forall i :: 0 <= i < |c| - 1 ==> !expired(i))
  }

  /** After a send either the packet is out or more chunks are still to come. */
  lemma NextChunk(packet: Bytes, wire: seq<Bytes>, left: Bytes, size: nat)
    requires Chunks(packet) == wire + Chunks(left)
    requires size == if |left| < MAX_TCP_BUFFER then |left| else MAX_TCP_BUFFER
    ensures |wire| < |Chunks(packet)| && Chunks(packet)[|wire|] == left[..size] && |left[..size]| == size
    ensures left[size..] == [] ==> Chunks(packet) == wire + [left[..size]]
    ensures left[size..] != [] ==> Chunks(packet) == wire + [left[..size]] + Chunks(left[size..])
  {
    assert Chunks(left)[0] == left[..size];
  }

  /**
   `taken` is how many bytes the socket takes at each send and `expired` whether the cut-off time has
   passed after it; `wire` is what went out.
   */
  method Send(packet: Bytes, taken: nat -> int, expired: nat -> bool) returns (ok: bool, ghost wire: seq<Bytes>)
    ensures ok <==> AllTaken(packet, taken, expired)
    ensures ok ==> wire == Chunks(packet)
    ensures ok ==> |packet| <= SEND_ATTEMPTS * MAX_TCP_BUFFER
  {
    FitsIff(packet);
    var left := packet;
    var attempts, sends := SEND_ATTEMPTS, 0;
    wire := [];
    while true
      invariant sends + attempts == SEND_ATTEMPTS && attempts >= 1 && |wire| == sends
      invariant Chunks(packet) == wire + Chunks(left)
      invariant forall i :: 0 <= i < sends ==> taken(i) == |wire[i]| && !expired(i)
      decreases attempts
    {
      var size := if |left| < MAX_TCP_BUFFER then |left| else MAX_TCP_BUFFER;
      var sent := taken(sends);
      NextChunk(packet, wire, left, size);
      if sent != size {
        return false, wire;
      }
      wire := wire + [left[..size]];
      left := left[size..];
      attempts := attempts - 1;
      var late := expired(sends);
      sends := sends + 1;
      if |left| == 0 || attempts == 0 || late {
        return |left| == 0, wire;
      }
    }
  }
}
