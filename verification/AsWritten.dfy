/** The receive call as it stands at DummyClient/Network/Session.cs:189: it is given the whole array and
    not the write segment, so that the bytes received lie at index 0, over whatever is unread. */
module AsWritten {
  import opened Framing
  import opened Receiving

  /** Between two receives Clean has run, and the unread bytes are the first of the array. */
  datatype Raw = Raw(bytes: seq<Byte>, unread: nat, delivered: seq<seq<Byte>>, disconnected: bool, spins: bool)

  predicate Valid(r: Raw) {
    |r.bytes| == CAPACITY && r.unread <= CAPACITY
  }

  function Begin(): (r: Raw)
    ensures Valid(r) && View(r) == Start()
  {
    Raw(seq(CAPACITY, _ => 0), 0, [], false, false)
  }

  /** The session as Receiving sees it. */
  function View(r: Raw): Receiver
    requires Valid(r)
  {
    Receiver(r.bytes[..r.unread], r.delivered, r.disconnected, r.spins)
  }

  function Overlay(under: seq<Byte>, over: seq<Byte>): seq<Byte>
    requires |over| <= |under|
  {
    over + under[|over|..]
  }

  /** The session reads as many bytes from its read position as were unread and came in. */
  function Segment(r: Raw, bytes: seq<Byte>): seq<Byte>
    requires Valid(r) && r.unread + |bytes| <= CAPACITY
  {
    Overlay(r.bytes, bytes)[..r.unread + |bytes|]
  }

  /** One completed receive, and the Clean before the next; OnWrite refuses what does not fit behind the
      unread bytes, although the call offered the whole array. */
  function RawReceive(r: Raw, bytes: seq<Byte>): (r': Raw)
    requires Valid(r) && |bytes| <= CAPACITY
    ensures Valid(r')
  {
    if r.disconnected || r.spins then r
    else if bytes == [] || r.unread + |bytes| > CAPACITY then
      r.(bytes := Overlay(r.bytes, bytes), disconnected := true)
    else
      var p := Split(Segment(r, bytes));
      RestFits(Segment(r, bytes));
      if p.spins then
        Raw(Overlay(r.bytes, bytes), r.unread + |bytes|, r.delivered + p.packets, false, true)
      else
        Raw(Overlay(Overlay(r.bytes, bytes), p.rest), |p.rest|, r.delivered + p.packets, false, false)
  }

  lemma RestFits(s: seq<Byte>)
    ensures |Split(s).rest| <= |s|
  {
    SplitKeepsAll(s);
  }

  function RawReceiveAll(r: Raw, chunks: seq<seq<Byte>>): (r': Raw)
    requires Valid(r) && forall c :: c in chunks ==> |c| <= CAPACITY
    ensures Valid(r')
    decreases |chunks|
  {
    if chunks == [] then r else RawReceiveAll(RawReceive(r, chunks[0]), chunks[1..])
  }

  // ----- where it is right -----

  /** As written and as intended, this receive does the same. */
  predicate Agrees(r: Raw, bytes: seq<Byte>)
    requires Valid(r) && |bytes| <= CAPACITY
  {
    View(RawReceive(r, bytes)) == Receive(View(r), bytes)
  }

  lemma AgreesAtBoundary(r: Raw, bytes: seq<Byte>)
    requires Valid(r) && r.unread == 0 && |bytes| <= CAPACITY
    ensures Agrees(r, bytes)
  {
    if Live(View(r)) && bytes != [] {
      assert Segment(r, bytes) == bytes && View(r).unread + bytes == bytes;
      RestFits(bytes);
      var p := Split(bytes);
      assert Overlay(Overlay(r.bytes, bytes), p.rest)[..|p.rest|] == p.rest;
    } else if Live(View(r)) {
      assert Overlay(r.bytes, bytes)[..0] == View(r).unread;
    }
  }

  /** A session comes to r by receives. */
  ghost predicate Reached(r: Raw) {
    exists chunks: seq<seq<Byte>> :: ReachedBy(r, chunks)
  }

  predicate ReachedBy(r: Raw, chunks: seq<seq<Byte>>) {
    (forall c :: c in chunks ==> |c| <= CAPACITY) && r == RawReceiveAll(Begin(), chunks)
  }

  /** A live session with that many unread bytes, at a receive of that many. */
  ghost predicate Lengths(r: Raw, bytes: seq<Byte>, unread: nat, received: nat) {
    && Reached(r) && Valid(r) && r.unread == unread && Live(View(r))
    && 1 <= |bytes| == received <= CAPACITY
  }

  /** With given lengths, a receive does what is intended whatever the bytes and whatever came before, exactly
      when nothing is unread. */
  lemma AgreesIff(unread: nat, received: nat)
    requires 1 <= received && unread + received <= CAPACITY
    ensures (forall r, bytes :: Lengths(r, bytes, unread, received) ==> Agrees(r, bytes)) <==> unread == 0
  {
    if unread == 0 {
      forall r, bytes | Lengths(r, bytes, unread, received) ensures Agrees(r, bytes) {
        AgreesAtBoundary(r, bytes);
      }
    } else {
      var r := FirstPart(unread);
      var bytes := seq(received, _ => 0);
      assert Lengths(r, bytes, unread, received);
      assert Segment(r, bytes)[0] == 0 && (View(r).unread + bytes)[0] == 255;
      SameResultSameBytes(r, bytes);
    }
  }

  /** The session that has received that many bytes of a packet of 65535. */
  lemma FirstPart(unread: nat) returns (r: Raw)
    requires 1 <= unread <= 65534
    ensures Reached(r) && Valid(r) && r.unread == unread && Live(View(r)) && r.bytes[0] == 255
  {
    var first: seq<Byte> := seq(unread, _ => 255);
    Incompletes(first);
    r := RawReceive(Begin(), first);
    assert Segment(Begin(), first) == first && Split(first) == Parts([], first, false);
    assert [first][1..] == [];
    assert ReachedBy(r, [first]);
  }

  lemma Incompletes(s: seq<Byte>)
    requires |s| <= 65534 && forall i :: 0 <= i < |s| ==> s[i] == 255
    ensures Incomplete(s)
  {
  }

  /** The splitter loses nothing, so that the same result means the same bytes. */
  lemma SameResultSameBytes(r: Raw, bytes: seq<Byte>)
    requires Valid(r) && Live(View(r)) && bytes != [] && r.unread + |bytes| <= CAPACITY
    ensures Agrees(r, bytes) <==> Segment(r, bytes) == View(r).unread + bytes
  {
    var s, s' := Segment(r, bytes), View(r).unread + bytes;
    SplitKeepsAll(s);
    SplitKeepsAll(s');
    var raw, meant := View(RawReceive(r, bytes)), Receive(View(r), bytes);
    assert raw.unread == if Split(s).spins then s else Split(s).rest;
    if raw == meant {
      assert raw.delivered[|r.delivered|..] == Split(s).packets;
      assert meant.delivered[|r.delivered|..] == Split(s').packets;
    }
  }

  /** One packet of 6 bytes, cut in the middle: the intended session delivers it, the one as written
      delivers nothing. */
  lemma CutPacketLost(first: seq<Byte>, second: seq<Byte>)
    requires first == [6, 0, 1] && second == [0, 9, 9]
    ensures Encode(1, [9, 9]) == first + second
    ensures Fits(Start(), [first, second])
    ensures ReceiveAll(Start(), [first, second]).delivered == [first + second]
    ensures RawReceiveAll(Begin(), [first, second]).delivered == []
  {
    assert first + second == [6, 0, 1, 0, 9, 9];
    CutIntended(first, second);
    var r := RawReceive(Begin(), first);
    assert Segment(Begin(), first) == first && Incomplete(first);
    assert Split(first) == Parts([], first, false);
    assert r.unread == 3 && r.bytes[3] == 0;
    var s := Segment(r, second);
    assert s[0] == 0 && s[1] == 9 && |s| == 6;
    assert Incomplete(s);
    assert RawReceive(r, second).delivered == [];
    assert [first, second][1..] == [second];
    assert RawReceiveAll(r, [second]) == RawReceive(r, second) by {
      assert [second][1..] == [];
    }
  }

  lemma CutIntended(first: seq<Byte>, second: seq<Byte>)
    requires first == [6, 0, 1] && second == [0, 9, 9]
    ensures Fits(Start(), [first, second]) && ReceiveAll(Start(), [first, second]).delivered == [first + second]
  {
    var whole := first + second;
    assert Incomplete(first) && [] + first == first;
    assert Receive(Start(), first) == Receiver(first, [], false, false);
    assert Fits(Start(), [first, second]);
    assert WellFramed(whole);
    SplitFlatten([whole], []);
    assert Flatten([whole]) + [] == whole;
    FragmentationIrrelevant(Start(), [first, second]);
    assert Flatten([first, second]) == whole && [] + whole == whole;
  }

  // ----- runs whose receives end at packet boundaries -----

  /** Every receive of the run starts with nothing unread. */
  predicate AtBoundaries(r: Receiver, chunks: seq<seq<Byte>>)
    decreases |chunks|
  {
    chunks == [] || (r.unread == [] && AtBoundaries(Receive(r, chunks[0]), chunks[1..]))
  }

  lemma {:induction false} RunAgrees(r: Raw, chunks: seq<seq<Byte>>)
    requires Valid(r) && (forall c :: c in chunks ==> |c| <= CAPACITY) && AtBoundaries(View(r), chunks)
    ensures View(RawReceiveAll(r, chunks)) == ReceiveAll(View(r), chunks)
    decreases |chunks|
  {
    if chunks != [] {
      assert chunks[0] in chunks;
      AgreesAtBoundary(r, chunks[0]);
      RunAgrees(RawReceive(r, chunks[0]), chunks[1..]);
    }
  }

  lemma {:induction false} BoundariesByPrefix(r: Receiver, chunks: seq<seq<Byte>>)
    requires forall i :: 0 <= i < |chunks| ==> ReceiveAll(r, chunks[..i]).unread == []
    ensures AtBoundaries(r, chunks)
    decreases |chunks|
  {
    if chunks != [] {
      assert ReceiveAll(r, chunks[..0]).unread == [];
      forall i | 0 <= i < |chunks[1..]| ensures ReceiveAll(Receive(r, chunks[0]), chunks[1..][..i]).unread == [] {
        assert chunks[..i + 1][1..] == chunks[1..][..i];
        assert ReceiveAll(r, chunks[..i + 1]).unread == [];
      }
      BoundariesByPrefix(Receive(r, chunks[0]), chunks[1..]);
    }
  }

  lemma {:induction false} FitsPrefix(r: Receiver, chunks: seq<seq<Byte>>, i: nat)
    requires Fits(r, chunks) && i <= |chunks|
    ensures Fits(r, chunks[..i])
    decreases i
  {
    if i > 0 {
      assert chunks[..i][1..] == chunks[1..][..i - 1];
      FitsPrefix(Receive(r, chunks[0]), chunks[1..], i - 1);
    }
  }

  lemma {:induction false} FitsLengths(r: Receiver, chunks: seq<seq<Byte>>)
    requires Fits(r, chunks)
    ensures forall c :: c in chunks ==> |c| <= CAPACITY
    decreases |chunks|
  {
    if chunks != [] {
      FitsLengths(Receive(r, chunks[0]), chunks[1..]);
      assert chunks == [chunks[0]] + chunks[1..];
    }
  }

  /** What came before chunk i is k whole packets. */
  predicate EndsPacket(packets: seq<seq<Byte>>, s: seq<Byte>, k: nat) {
    k <= |packets| && s == Flatten(packets[..k])
  }

  /** The round trip holds of the session as written when every receive but the last ends with a packet. */
  lemma RoundTripAsWritten(messages: seq<Message>, chunks: seq<seq<Byte>>) returns (k: nat)
    requires forall i :: 0 <= i < |messages| ==> Sendable(messages[i])
    requires Fits(Start(), chunks) && Flatten(chunks) <= Flatten(Encoded(messages))
    requires forall i :: 0 <= i < |chunks| ==> exists j: nat :: EndsPacket(Encoded(messages), Flatten(chunks[..i]), j)
    ensures forall c :: c in chunks ==> |c| <= CAPACITY
    ensures var r := View(RawReceiveAll(Begin(), chunks));
            && Live(r) && k <= |messages| && r.delivered == Encoded(messages)[..k]
            && (forall i :: 0 <= i < k ==> |r.delivered[i]| >= 4 && Decode(r.delivered[i]) == messages[i])
            && (if k == |messages| then r.unread == [] else ProperPrefix(r.unread, Encoded(messages)[k]))
            && (Flatten(chunks) == Flatten(Encoded(messages)) ==> k == |messages|)
  {
    var packets := Encoded(messages);
    EncodedDecode(messages);
    forall i | 0 <= i < |chunks| ensures ReceiveAll(Start(), chunks[..i]).unread == [] {
      var j: nat :| EndsPacket(packets, Flatten(chunks[..i]), j);
      FitsPrefix(Start(), chunks, i);
      FragmentationIrrelevant(Start(), chunks[..i]);
      SplitFlatten(packets[..j], []);
      assert Flatten(packets[..j]) + [] == [] + Flatten(chunks[..i]);
    }
    BoundariesByPrefix(Start(), chunks);
    FitsLengths(Start(), chunks);
    RunAgrees(Begin(), chunks);
    k := RoundTrip(messages, chunks);
  }
}
