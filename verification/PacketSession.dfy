/** Session and PacketSession of DummyClient/Network/Session.cs. delivered is the sequence of OnRecvPacket
    calls, spinning means that OnRecv never returns. */
module PacketSession {
  import opened Framing
  import opened Receiving
  import AsWritten
  import RecvBuffer

  class PacketSession {
    const recvBuffer: RecvBuffer.RecvBuffer
    var delivered: seq<seq<Byte>>
    var disconnected: bool
    var spinning: bool

    ghost predicate Valid() reads this, recvBuffer {
      recvBuffer.Valid() && recvBuffer.buffer.Length == CAPACITY
    }

    ghost function State(): Receiver
      requires Valid()
      reads this, recvBuffer, recvBuffer.buffer
    {
      Receiver(recvBuffer.Unread(), delivered, disconnected, spinning)
    }

    constructor ()
      ensures Valid() && State() == Start()
      ensures fresh(recvBuffer) && fresh(recvBuffer.buffer)
    {
      recvBuffer := new RecvBuffer.RecvBuffer(CAPACITY);
      delivered := [];
      disconnected := false;
      spinning := false;
    }

    /** The splitter. A declared size of 0 leaves the segment as it is: the loop goes round for ever. */
    method OnRecv(segment: seq<Byte>) returns (processLen: nat)
      requires !spinning
      modifies this`delivered, this`spinning
      ensures var p := Split(segment);
              delivered == old(delivered) + p.packets && spinning == p.spins && processLen == |segment| - |p.rest|
    {
      var buffer := segment;
      processLen := 0;
      while true
        invariant processLen + |buffer| == |segment| && !spinning
        invariant var p, q := Split(segment), Split(buffer);
                  p.spins == q.spins && p.rest == q.rest && old(delivered) + p.packets == delivered + q.packets
        decreases |buffer|
      {
        if |buffer| < HEADER_SIZE { break; }
        var dataSize := ToUInt16(buffer);
        if |buffer| < dataSize { break; }
        if dataSize == 0 {
          spinning := true;
          break;
        }
        ghost var q := Split(buffer[dataSize..]);
        assert delivered + ([buffer[..dataSize]] + q.packets) == delivered + [buffer[..dataSize]] + q.packets;
        delivered := delivered + [buffer[..dataSize]];
        processLen := processLen + dataSize;
        buffer := buffer[dataSize..];
      }
    }

    method Disconnect()
      modifies this`disconnected
      ensures disconnected
    {
      disconnected := true;
    }

    /** Between two receives: the array as it is, its first bytes unread. */
    ghost function RawState(): AsWritten.Raw
      requires Valid()
      reads this, recvBuffer, recvBuffer.buffer
    {
      AsWritten.Raw(recvBuffer.buffer[..], recvBuffer.writePos, delivered, disconnected, spinning)
    }

    /** Makes the next receive possible; the receive call comes with ReceiveOnce or ReceiveAsWritten. */
    method RegisterRecv()
      requires Valid()
      modifies recvBuffer, recvBuffer.buffer
      ensures Valid() && State() == old(State())
      ensures !disconnected ==> recvBuffer.readPos == 0
      ensures recvBuffer.buffer[..] == if disconnected then old(recvBuffer.buffer[..])
                                       else State().unread + old(recvBuffer.buffer[|recvBuffer.Unread()|..])
    {
      if !disconnected { recvBuffer.Clean(); }
    }

    /** The rest of OnRecvCompletedAsync, once OnRecv has said how many bytes it has used. */
    method Processed(processLen: int)
      requires Valid() && Live(State())
      modifies this`disconnected, recvBuffer, recvBuffer.buffer
      ensures Valid()
      ensures State() == if 0 <= processLen <= |old(State()).unread|
                         then old(State()).(unread := old(State()).unread[processLen..])
                         else old(State()).(disconnected := true)
      ensures Live(State()) ==> recvBuffer.readPos == 0
      ensures recvBuffer.buffer[..] == if disconnected then old(recvBuffer.buffer[..])
                                       else State().unread + old(recvBuffer.buffer[..])[|State().unread|..]
    {
      if processLen < 0 || recvBuffer.DataSize() < processLen {
        Disconnect();
        return;
      }
      var read := recvBuffer.OnRead(processLen);
      if !read { assert false; } // the source disconnects
      RegisterRecv();
    }

    /** A receive of recvLen bytes has completed: they lie at the write position. No bookkeeping test fails
        when recvLen is positive and fits. */
    method OnRecvCompletedAsync(recvLen: int)
      requires Valid() && Live(State())
      modifies this, recvBuffer, recvBuffer.buffer
      ensures Valid()
      ensures if 0 < recvLen <= old(recvBuffer.FreeSize())
              then State() == Receive(old(State()),
                                      old(recvBuffer.buffer[recvBuffer.writePos..recvBuffer.writePos + recvLen]))
              else State() == old(State()).(disconnected := true)
      ensures Live(State()) ==> recvBuffer.readPos == 0
      ensures recvBuffer.buffer[..] == if !Live(State()) then old(recvBuffer.buffer[..])
                                       else State().unread + old(recvBuffer.buffer[..])[|State().unread|..]
      ensures spinning ==> recvBuffer.readPos == old(recvBuffer.readPos)
      ensures disconnected ==> recvBuffer.readPos == old(recvBuffer.readPos)
      ensures disconnected ==> recvBuffer.writePos == old(recvBuffer.writePos)
    {
      if recvLen > 0 {
        var written := recvBuffer.OnWrite(recvLen);
        if !written { Disconnect(); return; }
        var segment := recvBuffer.buffer[recvBuffer.readPos..recvBuffer.writePos];
        var processLen := OnRecv(segment);
        SplitKeepsAll(segment);
        if spinning { return; }
        RestIsTail(segment);
        Processed(processLen);
      } else {
        Disconnect();
      }
    }

    /** A whole turn as the code has it: the bytes of one receive come in at the start of the array. */
    method ReceiveAsWritten(bytes: seq<Byte>)
      requires Valid() && Live(State()) && recvBuffer.readPos == 0 && |bytes| <= CAPACITY
      modifies this, recvBuffer, recvBuffer.buffer
      ensures Valid() && RawState() == AsWritten.RawReceive(old(RawState()), bytes)
      ensures recvBuffer.readPos == 0
    {
      ghost var r := RawState();
      recvBuffer.LandAtStart(bytes);
      if r.unread + |bytes| <= CAPACITY { LandedSegment(r, bytes); }
      assert State().unread == AsWritten.Overlay(r.bytes, bytes)[..r.unread];
      OnRecvCompletedAsync(|bytes|);
    }

    /** A whole turn as it is meant: the bytes of one receive come in behind the cleaned buffer. */
    method ReceiveOnce(bytes: seq<Byte>)
      requires Valid() && Live(State()) && recvBuffer.readPos == 0
      requires |bytes| <= CAPACITY - |State().unread|
      modifies this, recvBuffer, recvBuffer.buffer
      ensures Valid() && State() == Receive(old(State()), bytes)
      ensures Live(State()) ==> recvBuffer.readPos == 0
    {
      recvBuffer.Land(bytes);
      OnRecvCompletedAsync(|bytes|);
    }
  }

  lemma LandedSegment(r: AsWritten.Raw, bytes: seq<Byte>)
    requires AsWritten.Valid(r) && r.unread + |bytes| <= CAPACITY
    ensures var landed := AsWritten.Overlay(r.bytes, bytes);
            landed[..r.unread] + landed[r.unread..r.unread + |bytes|] == AsWritten.Segment(r, bytes)
  {
  }

  lemma RestIsTail(s: seq<Byte>)
    ensures |Split(s).rest| <= |s| && Split(s).rest == s[|s| - |Split(s).rest|..]
  {
    SplitKeepsAll(s);
    var p := Split(s);
    assert s == Flatten(p.packets) + p.rest;
  }

  /** SendAsync up to the send queue; protocol is the enumeration's value, payload the serialized message. */
  method SendAsync(protocol: nat, payload: array<Byte>) returns (sendBuffer: array<Byte>)
    ensures fresh(sendBuffer) && sendBuffer[..] == Encode(protocol, payload[..])
  {
    var size := Ushort(payload.Length);
    sendBuffer := new Byte[size + 4](_ => 0);
    Put(sendBuffer, 0, GetBytes(Ushort(size + 4)));
    Put(sendBuffer, 2, GetBytes(Ushort(protocol)));
    Put(sendBuffer, 4, payload[..size]);
  }

  /** Array.Copy into a. */
  method Put(a: array<Byte>, at: nat, bytes: seq<Byte>)
    requires at + |bytes| <= a.Length
    modifies a
    ensures a[..] == old(a[..at]) + bytes + old(a[at + |bytes|..])
  {
    forall i | 0 <= i < |bytes| {
      a[at + i] := bytes[i];
    }
    assert a[at..at + |bytes|] == bytes;
    assert a[..] == a[..at] + a[at..at + |bytes|] + a[at + |bytes|..];
  }
}
