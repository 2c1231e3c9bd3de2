/** A receiving session of DummyClient/Network/Session.cs as a value: what is unread, what OnRecvPacket
    was given, and whether the session has ended. */
module Receiving {
  import opened Framing

  const CAPACITY: nat := 65535

  datatype Receiver = Receiver(unread: seq<Byte>, delivered: seq<seq<Byte>>, disconnected: bool, spins: bool)

  function Start(): Receiver {
    Receiver([], [], false, false)
  }

  predicate Live(r: Receiver) {
    !r.disconnected && !r.spins
  }

  /** One completed receive: the bytes are put behind the unread ones and the whole is split. */
  function Receive(r: Receiver, bytes: seq<Byte>): Receiver {
    if !Live(r) then r
    else if bytes == [] then r.(disconnected := true)
    else
      var p := Split(r.unread + bytes);
      if p.spins then r.(unread := r.unread + bytes, delivered := r.delivered + p.packets, spins := true)
      else Receiver(p.rest, r.delivered + p.packets, false, false)
  }

  function ReceiveAll(r: Receiver, chunks: seq<seq<Byte>>): Receiver
    decreases |chunks|
  {
    if chunks == [] then r else ReceiveAll(Receive(r, chunks[0]), chunks[1..])
  }

  /** The chunks are such as a receive can return: not empty, and no more than the buffer has room for. */
  predicate Fits(r: Receiver, chunks: seq<seq<Byte>>)
    decreases |chunks|
  {
    chunks == [] || (1 <= |chunks[0]| <= CAPACITY - |r.unread| && Fits(Receive(r, chunks[0]), chunks[1..]))
  }

  predicate Took(r: Receiver, p: Parts, r': Receiver) {
    && !r'.disconnected && r'.spins == p.spins && r'.delivered == r.delivered + p.packets
    && (!p.spins ==> r'.unread == p.rest)
  }

  /** From r to r' the session has done to the bytes s what one pass of the splitter does. */
  predicate Did(r: Receiver, s: seq<Byte>, r': Receiver) {
    Took(r, Split(r.unread + s), r')
  }

  lemma TookAgain(r: Receiver, p: Parts, r1: Receiver, q: Parts, r2: Receiver)
    requires !p.spins && Took(r, p, r1) && Took(r1, q, r2)
    ensures Took(r, q.(packets := p.packets + q.packets), r2)
  {
  }

  lemma DidAgain(r: Receiver, s: seq<Byte>, r1: Receiver, more: seq<Byte>, r2: Receiver)
    requires Did(r, s, r1) && (if r1.spins then r2 == r1 else Did(r1, more, r2))
    ensures Did(r, s + more, r2)
  {
    SplitIncremental(r.unread + s, more);
    assert r.unread + s + more == r.unread + (s + more);
    if !r1.spins {
      TookAgain(r, Split(r.unread + s), r1, Split(r1.unread + more), r2);
    }
  }

  /** However the bytes were cut, the session does to them what one pass of the splitter does. */
  lemma {:induction false} FragmentationIrrelevant(r: Receiver, chunks: seq<seq<Byte>>)
    requires Live(r) && Incomplete(r.unread) && Fits(r, chunks)
    ensures Did(r, Flatten(chunks), ReceiveAll(r, chunks))
    decreases |chunks|
  {
    if chunks == [] {
      assert r.unread + Flatten(chunks) == r.unread;
    } else {
      var r1 := Receive(r, chunks[0]);
      SplitKeepsAll(r.unread + chunks[0]);
      if r1.spins {
        StaysStopped(r1, chunks[1..]);
      } else {
        FragmentationIrrelevant(r1, chunks[1..]);
      }
      DidAgain(r, chunks[0], r1, Flatten(chunks[1..]), ReceiveAll(r, chunks));
    }
  }

  lemma {:induction false} StaysStopped(r: Receiver, chunks: seq<seq<Byte>>)
    requires !Live(r)
    ensures ReceiveAll(r, chunks) == r
    decreases |chunks|
  {
    if chunks != [] { StaysStopped(r, chunks[1..]); }
  }

  // ----- messages -----

  datatype Message = Message(protocol: nat, payload: seq<Byte>)

  predicate Sendable(m: Message) {
    m.protocol < USHORT && |m.payload| <= 65531
  }

  function Encoded(messages: seq<Message>): (packets: seq<seq<Byte>>)
    ensures |packets| == |messages|
  {
    seq(|messages|, i requires 0 <= i < |messages| => Encode(messages[i].protocol, messages[i].payload))
  }

  /** What OnRecvPacket reads from a packet. */
  function Decode(p: seq<Byte>): Message
    requires |p| >= 4
  {
    Message(ToUInt16(p[2..4]), p[4..])
  }

  /** Messages are sent as one stream and a prefix of it arrives in chunks cut anyhow. OnRecvPacket gets
      exactly the messages that arrived in full, in order; the rest is the start of the next one; and the
      session neither disconnects nor hangs. When all of the stream has come, so have all messages. */
  lemma RoundTrip(messages: seq<Message>, chunks: seq<seq<Byte>>) returns (k: nat)
    requires forall i :: 0 <= i < |messages| ==> Sendable(messages[i])
    requires Fits(Start(), chunks) && Flatten(chunks) <= Flatten(Encoded(messages))
    ensures var r := ReceiveAll(Start(), chunks);
            && Live(r) && k <= |messages| && r.delivered == Encoded(messages)[..k]
            && (forall i :: 0 <= i < k ==> |r.delivered[i]| >= 4 && Decode(r.delivered[i]) == messages[i])
            && (if k == |messages| then r.unread == [] else ProperPrefix(r.unread, Encoded(messages)[k]))
            && (Flatten(chunks) == Flatten(Encoded(messages)) ==> k == |messages|)
  {
    var packets := Encoded(messages);
    EncodedDecode(messages);
    var s := Flatten(chunks);
    var tail;
    k, tail := PrefixOfStream(packets, s);
    if k < |packets| { PrefixIncomplete(tail, packets[k]); }
    SplitFlatten(packets[..k], tail);
    FragmentationIrrelevant(Start(), chunks);
    assert [] + s == s;
    if s == Flatten(packets) { WholeStream(packets, k, tail); }
  }

  lemma EncodedDecode(messages: seq<Message>)
    requires forall i :: 0 <= i < |messages| ==> Sendable(messages[i])
    ensures forall p :: p in Encoded(messages) ==> WellFramed(p)
    ensures forall i :: 0 <= i < |messages| ==>
              |Encoded(messages)[i]| >= 4 && Decode(Encoded(messages)[i]) == messages[i]
  {
    forall i | 0 <= i < |messages|
      ensures WellFramed(Encoded(messages)[i])
      ensures |Encoded(messages)[i]| >= 4 && Decode(Encoded(messages)[i]) == messages[i]
    {
      EncodeWellFramed(messages[i].protocol, messages[i].payload);
      EncodeProtocol(messages[i]);
    }
  }

  /** Only the whole stream is the bytes of the whole stream. */
  lemma WholeStream(packets: seq<seq<Byte>>, k: nat, tail: seq<Byte>)
    requires forall p :: p in packets ==> WellFramed(p)
    requires k <= |packets| && Incomplete(tail) && Flatten(packets) == Flatten(packets[..k]) + tail
    ensures k == |packets|
  {
    SplitFlatten(packets, []);
    SplitFlatten(packets[..k], tail);
    assert Flatten(packets) + [] == Flatten(packets);
  }

  lemma EncodeProtocol(m: Message)
    requires Sendable(m)
    ensures |Encode(m.protocol, m.payload)| >= 4 && Decode(Encode(m.protocol, m.payload)) == m
  {
    var e := Encode(m.protocol, m.payload);
    assert e[2] == m.protocol % 256 && e[3] == m.protocol / 256;
    assert e[4..] == m.payload;
  }

  /** After every completed receive there is room for at least one more byte. */
  lemma ReceiveProgress(chunks: seq<seq<Byte>>, b: Byte)
    requires Fits(Start(), chunks) && Live(ReceiveAll(Start(), chunks))
    ensures |ReceiveAll(Start(), chunks).unread| <= 65534
    ensures Fits(ReceiveAll(Start(), chunks), [[b]])
  {
    FragmentationIrrelevant(Start(), chunks);
    SplitKeepsAll([] + Flatten(chunks));
  }
}
