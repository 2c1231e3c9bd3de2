/** The packet format of DummyClient/Network/Session.cs: a packet is its size (2 bytes, little-endian, the
    header included), a protocol number (2 bytes) and a payload. */
module Framing {
  type Byte = x: nat | x < 256

  const HEADER_SIZE: nat := 2
  const USHORT: nat := 0x1_0000

  function Ushort(n: nat): nat {
    n % USHORT
  }

  /** BitConverter.GetBytes of a ushort, and ToUInt16. */
  function GetBytes(n: nat): seq<Byte>
    requires n < USHORT
  {
    [n % 256, n / 256]
  }

  function ToUInt16(s: seq<Byte>): nat
    requires |s| >= 2
  {
    var low: nat, high: nat := s[0], s[1];
    low + 256 * high
  }

  // ----- the encoder -----

  /** The bytes SendAsync sends; every narrowing cast of the source is written out. */
  function Encode(protocol: nat, payload: seq<Byte>): seq<Byte> {
    var size := Ushort(|payload|);
    GetBytes(Ushort(size + 4)) + GetBytes(Ushort(protocol)) + payload[..size]
  }

  // ----- the splitter -----

  /** packets go to OnRecvPacket in turn; rest stays in the buffer; spins: a header declared size 0, on
      which the loop of OnRecv goes round for ever. */
  datatype Parts = Parts(packets: seq<seq<Byte>>, rest: seq<Byte>, spins: bool)

  /** Not enough bytes for a header, or for the packet it announces. */
  predicate Incomplete(s: seq<Byte>) {
    |s| < HEADER_SIZE || |s| < ToUInt16(s)
  }

  function Split(s: seq<Byte>): Parts {
    if Incomplete(s) then Parts([], s, false)
    else if ToUInt16(s) == 0 then Parts([], s, true)
    else
      var n := ToUInt16(s);
      var p := Split(s[n..]);
      p.(packets := [s[..n]] + p.packets)
  }

  function Flatten(packets: seq<seq<Byte>>): seq<Byte> {
    if packets == [] then [] else packets[0] + Flatten(packets[1..])
  }

  /** A header that tells its packet's own length; OnRecvPacket gets at least the header. */
  predicate WellFramed(p: seq<Byte>) {
    |p| >= HEADER_SIZE && ToUInt16(p) == |p|
  }

  /** s starts no packet yet, but some well-framed packet starts with it. */
  predicate ProperPrefix(s: seq<Byte>, p: seq<Byte>) {
    |s| < |p| && s == p[..|s|]
  }

  // ----- what the splitter does -----

  /** Nothing is lost or reordered, and what stays is at most 65534 bytes. */
  lemma {:induction false} SplitKeepsAll(s: seq<Byte>)
    ensures Flatten(Split(s).packets) + Split(s).rest == s
    ensures Split(s).spins || (Incomplete(Split(s).rest) && |Split(s).rest| <= 65534)
  {
    if !Incomplete(s) && ToUInt16(s) != 0 {
      var n := ToUInt16(s);
      var q := Split(s[n..]);
      SplitKeepsAll(s[n..]);
      assert Split(s) == q.(packets := [s[..n]] + q.packets);
      assert ([s[..n]] + q.packets)[1..] == q.packets;
      assert s[..n] + Flatten(q.packets) + q.rest == s[..n] + (Flatten(q.packets) + q.rest);
    }
  }

  /** A first packet splits off, whatever comes behind it. */
  lemma SplitFirst(s: seq<Byte>, more: seq<Byte>)
    requires !Incomplete(s) && ToUInt16(s) != 0
    ensures var n := ToUInt16(s);
            var p := Split(s[n..] + more);
            Split(s + more) == p.(packets := [s[..n]] + p.packets)
  {
    var n := ToUInt16(s);
    assert (s + more)[0] == s[0] && (s + more)[1] == s[1];
    assert (s + more)[..n] == s[..n];
    assert (s + more)[n..] == s[n..] + more;
  }

  /** Splitting what came so far, and then the rest with what comes next, is splitting it all at once. */
  lemma {:induction false} SplitIncremental(s: seq<Byte>, more: seq<Byte>)
    ensures !Split(s).spins ==>
              var p := Split(Split(s).rest + more);
              Split(s + more) == p.(packets := Split(s).packets + p.packets)
    ensures Split(s).spins ==> Split(s + more).spins && Split(s + more).packets == Split(s).packets
  {
    if Incomplete(s) {
      assert Split(s) == Parts([], s, false);
    } else if ToUInt16(s) == 0 {
      assert (s + more)[0] == s[0] && (s + more)[1] == s[1];
    } else {
      var n := ToUInt16(s);
      SplitFirst(s, more);
      SplitIncremental(s[n..], more);
      var q := Split(s[n..]);
      assert Split(s) == q.(packets := [s[..n]] + q.packets);
      if !q.spins {
        var p := Split(q.rest + more);
        assert [s[..n]] + (q.packets + p.packets) == ([s[..n]] + q.packets) + p.packets;
      }
    }
  }

  /** Well-framed packets in, the same packets out, with the incomplete tail left over. */
  lemma {:induction false} SplitFlatten(packets: seq<seq<Byte>>, tail: seq<Byte>)
    requires forall p :: p in packets ==> WellFramed(p)
    requires Incomplete(tail)
    ensures Split(Flatten(packets) + tail) == Parts(packets, tail, false)
  {
    if packets == [] {
      assert Flatten(packets) + tail == tail;
    } else {
      var p, others := packets[0], packets[1..];
      assert p in packets && WellFramed(p);
      assert Flatten(packets) + tail == p + (Flatten(others) + tail);
      assert p[|p|..] == [] && [] + (Flatten(others) + tail) == Flatten(others) + tail && p[..|p|] == p;
      SplitFirst(p, Flatten(others) + tail);
      SplitFlatten(others, tail);
      assert packets == [p] + others;
    }
  }

  /** A proper prefix of a well-framed packet is incomplete. */
  lemma PrefixIncomplete(s: seq<Byte>, p: seq<Byte>)
    requires WellFramed(p) && ProperPrefix(s, p)
    ensures Incomplete(s)
  {
    if |s| >= 2 { assert s[0] == p[0] && s[1] == p[1]; }
  }

  /** Every prefix of a stream of packets is some whole packets and a proper prefix of the next. */
  lemma {:induction false} PrefixOfStream(packets: seq<seq<Byte>>, s: seq<Byte>) returns (k: nat, tail: seq<Byte>)
    requires forall p :: p in packets ==> WellFramed(p)
    requires s <= Flatten(packets)
    ensures k <= |packets| && s == Flatten(packets[..k]) + tail
    ensures if k == |packets| then tail == [] else ProperPrefix(tail, packets[k])
  {
    if packets == [] { return 0, []; }
    var p, others := packets[0], packets[1..];
    assert Flatten(packets) == p + Flatten(others);
    if |s| < |p| {
      assert s == p[..|s|] by { assert s == Flatten(packets)[..|s|]; }
      assert Flatten(packets[..0]) == [];
      return 0, s;
    }
    assert s[..|p|] == p by { assert s == Flatten(packets)[..|s|]; }
    assert s[|p|..] <= Flatten(others) by { assert s == Flatten(packets)[..|s|]; }
    var j, rest := PrefixOfStream(others, s[|p|..]);
    k, tail := j + 1, rest;
    assert packets[..k] == [p] + others[..j];
    assert s == p + s[|p|..];
  }

  /** s is these packets and a rest; each packet is as long, and at least 1, as the header says that the
      stream has where the packet starts. */
  predicate Declared(s: seq<Byte>, packets: seq<seq<Byte>>, rest: seq<Byte>) {
    && s == Flatten(packets) + rest
    && forall i :: 0 <= i < |packets| ==> Header(Flatten(packets[i..]) + rest, |packets[i]|)
  }

  predicate Header(s: seq<Byte>, n: nat) {
    |s| >= HEADER_SIZE && ToUInt16(s) == n >= 1
  }

  /** The loop goes round for ever exactly when some such packets are followed by a header of size 0. */
  lemma SpinsIff(s: seq<Byte>)
    ensures Split(s).spins
            <==> exists packets, rest :: Declared(s, packets, rest) && |rest| >= HEADER_SIZE && ToUInt16(rest) == 0
  {
    var p := Split(s);
    if p.spins {
      SpinsAfter(s);
    }
    forall packets, rest | Declared(s, packets, rest) && |rest| >= HEADER_SIZE && ToUInt16(rest) == 0 ensures p.spins {
      SpinsThen(s, packets, rest);
    }
  }

  lemma {:induction false} SpinsAfter(s: seq<Byte>)
    requires Split(s).spins
    ensures var p := Split(s); Declared(s, p.packets, p.rest) && |p.rest| >= HEADER_SIZE && ToUInt16(p.rest) == 0
  {
    if ToUInt16(s) == 0 {
      assert Flatten([]) + s == s;
    } else {
      var n := ToUInt16(s);
      var p, q := Split(s), Split(s[n..]);
      SpinsAfter(s[n..]);
      SplitKeepsAll(s);
      assert p.packets == [s[..n]] + q.packets;
      forall i | 0 <= i < |p.packets| ensures Header(Flatten(p.packets[i..]) + p.rest, |p.packets[i]|) {
        if i == 0 {
          assert p.packets[0..] == p.packets;
        } else {
          assert p.packets[i..] == q.packets[i - 1..] && p.packets[i] == q.packets[i - 1];
        }
      }
    }
  }

  lemma {:induction false} SpinsThen(s: seq<Byte>, packets: seq<seq<Byte>>, rest: seq<Byte>)
    requires Declared(s, packets, rest) && |rest| >= HEADER_SIZE && ToUInt16(rest) == 0
    ensures Split(s).spins
    decreases |packets|
  {
    if packets == [] {
      assert s == rest;
    } else {
      assert packets[0..] == packets && Header(Flatten(packets[0..]) + rest, |packets[0]|);
      var n := |packets[0]|;
      var others := packets[1..];
      assert s == packets[0] + (Flatten(others) + rest);
      assert s[n..] == Flatten(others) + rest;
      forall i | 0 <= i < |others| ensures Header(Flatten(others[i..]) + rest, |others[i]|) {
        assert others[i..] == packets[i + 1..];
        assert Header(Flatten(packets[i + 1..]) + rest, |packets[i + 1]|);
      }
      SpinsThen(s[n..], others, rest);
    }
  }

  // ----- what the encoder does -----

  lemma EncodeWellFramed(protocol: nat, payload: seq<Byte>)
    requires |payload| <= 65531
    ensures WellFramed(Encode(protocol, payload)) && |Encode(protocol, payload)| == |payload| + 4
    ensures Encode(protocol, payload)[4..] == payload
  {
  }

  /** A packet comes out of the splitter whole, and with its payload, exactly when the payload is at most
      65531 bytes: beyond that one of the casts to ushort cuts. */
  lemma RoundTripIff(protocol: nat, payload: seq<Byte>)
    ensures var e := Encode(protocol, payload);
            |e| >= 4 && (Split(e) == Parts([e], [], false) && e[4..] == payload && ToUInt16(e[2..4]) == Ushort(protocol)
                         <==> |payload| <= 65531)
  {
    var e := Encode(protocol, payload);
    if |payload| <= 65531 {
      EncodeWellFramed(protocol, payload);
      SplitFlatten([e], []);
      assert Flatten([e]) + [] == e;
    } else if |payload| < USHORT {
      assert ToUInt16(e) == |payload| - 65532 < |e|;
      if Split(e) == Parts([e], [], false) {
        assert Split(e).packets[0] == e[..ToUInt16(e)];
      }
    }
  }
}
