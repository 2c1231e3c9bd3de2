/** The cursors of ServerCore/RecvBuffer.cpp, and what its lazy compaction costs over a run. */
module LazyCompaction {
  /** received and copied count bytes over the life of the buffer; base is the write position that the
      last Clean to move the cursors left. */
  datatype Cursors = Cursors(read: int, write: int, received: nat, copied: nat, base: nat)

  const BUFFER_COUNT: nat := 2

  function New(): Cursors {
    Cursors(0, 0, 0, 0, 0)
  }

  function FreeSize(bufferSize: nat, c: Cursors): int {
    bufferSize * BUFFER_COUNT - c.write
  }

  predicate Valid(bufferSize: nat, c: Cursors) {
    0 <= c.read <= c.write <= bufferSize * BUFFER_COUNT
  }

  predicate Compacts(bufferSize: nat, c: Cursors) {
    c.write != c.read && FreeSize(bufferSize, c) < bufferSize
  }

  function Clean(bufferSize: nat, c: Cursors): Cursors
    requires Valid(bufferSize, c)
  {
    if c.write == c.read then c.(read := 0, write := 0, base := 0)
    else if Compacts(bufferSize, c) then
      c.(read := 0, write := c.write - c.read, base := c.write - c.read, copied := c.copied + (c.write - c.read))
    else c
  }

  function OnRead(c: Cursors, n: nat): Cursors {
    if n > c.write - c.read then c else c.(read := c.read + n)
  }

  function OnWrite(bufferSize: nat, c: Cursors, n: nat): Cursors {
    if n > FreeSize(bufferSize, c) then c else c.(write := c.write + n, received := c.received + n)
  }

  /** With nothing unread both positions go back to the start. Otherwise the unread bytes go there exactly if less
      than bufferSize was free behind them, and the positions stay if not. */
  lemma CleanMeans(bufferSize: nat, c: Cursors)
    requires Valid(bufferSize, c)
    ensures var c' := Clean(bufferSize, c);
            && (c.read == c.write ==> c'.read == c'.write == 0 && FreeSize(bufferSize, c') == 2 * bufferSize)
            && (c.read != c.write && 2 * bufferSize - c.write < bufferSize ==>
                  c'.read == 0 && c'.write == c.write - c.read && c'.copied == c.copied + (c.write - c.read))
            && (c.read != c.write && 2 * bufferSize - c.write >= bufferSize ==> c' == c)
  {
  }

  /** After Clean there is room for bufferSize bytes exactly when at most bufferSize are unread. */
  lemma RoomIff(bufferSize: nat, c: Cursors)
    requires Valid(bufferSize, c)
    ensures FreeSize(bufferSize, Clean(bufferSize, c)) >= bufferSize <==> c.write - c.read <= bufferSize
  {
  }

  // ----- runs -----

  datatype Op = CleanOp | ReadOp(n: nat) | WriteOp(n: nat)

  function Do(bufferSize: nat, c: Cursors, op: Op): (c': Cursors)
    requires Valid(bufferSize, c)
    ensures Valid(bufferSize, c')
  {
    match op
    case CleanOp => Clean(bufferSize, c)
    case ReadOp(n) => OnRead(c, n)
    case WriteOp(n) => OnWrite(bufferSize, c, n)
  }

  function Run(bufferSize: nat, c: Cursors, ops: seq<Op>): (c': Cursors)
    requires Valid(bufferSize, c)
    ensures Valid(bufferSize, c')
    decreases |ops|
  {
    if ops == [] then c else Run(bufferSize, Do(bufferSize, c, ops[0]), ops[1..])
  }

  /** No compaction of the run moves more than most bytes. */
  predicate MovesAtMost(most: nat, bufferSize: nat, c: Cursors, ops: seq<Op>)
    requires Valid(bufferSize, c)
    decreases |ops|
  {
    ops == [] || (
      && (ops[0] == CleanOp && Compacts(bufferSize, c) ==> c.write - c.read <= most)
      && MovesAtMost(most, bufferSize, Do(bufferSize, c, ops[0]), ops[1..]))
  }

  /** What has been received since the cursors last moved back is still to be paid for. */
  predicate Paid(most: nat, c: Cursors) {
    c.base <= most && c.base <= c.write && c.copied + (c.write - c.base) <= c.received
  }

  lemma {:induction false} StaysPaid(most: nat, bufferSize: nat, c: Cursors, ops: seq<Op>)
    requires 2 * most <= bufferSize + 1 && Valid(bufferSize, c) && Paid(most, c)
    requires MovesAtMost(most, bufferSize, c, ops)
    ensures Paid(most, Run(bufferSize, c, ops))
    decreases |ops|
  {
    if ops != [] { StaysPaid(most, bufferSize, Do(bufferSize, c, ops[0]), ops[1..]); }
  }

  predicate CopiesPayOff(most: nat, bufferSize: nat, ops: seq<Op>) {
    MovesAtMost(most, bufferSize, New(), ops) ==>
      Run(bufferSize, New(), ops).copied <= Run(bufferSize, New(), ops).received
  }

  /** Over every run whose compactions move at most most bytes, no more bytes are copied than received,
      exactly when most is at most half of bufferSize (rounded up), or the buffer has no room at all. */
  lemma CopiesBoundedIff(most: nat, bufferSize: nat)
    ensures (forall ops :: CopiesPayOff(most, bufferSize, ops)) <==> bufferSize == 0 || 2 * most <= bufferSize + 1
  {
    if bufferSize == 0 {
      forall ops ensures CopiesPayOff(most, bufferSize, ops) { NoRoom(New(), ops); }
    } else if 2 * most <= bufferSize + 1 {
      forall ops ensures CopiesPayOff(most, bufferSize, ops) {
        if MovesAtMost(most, bufferSize, New(), ops) { StaysPaid(most, bufferSize, New(), ops); }
      }
    } else if most > bufferSize {
      FullBuffer(most, bufferSize);
    } else {
      var ops := [WriteOp(most)] + Cycles(most, bufferSize, bufferSize + 2);
      assert ops[1..] == Cycles(most, bufferSize, bufferSize + 2);
      var c := Do(bufferSize, New(), ops[0]);
      CyclesCost(most, bufferSize, bufferSize + 2, c);
      assert !CopiesPayOff(most, bufferSize, ops) by { Overdrawn(most, bufferSize); }
    }
  }

  lemma {:induction false} NoRoom(c: Cursors, ops: seq<Op>)
    requires Valid(0, c) && c.copied == 0
    ensures Run(0, c, ops).copied == 0
    decreases |ops|
  {
    if ops != [] { NoRoom(Do(0, c, ops[0]), ops[1..]); }
  }

  /** One byte over bufferSize is received and none is read: each Clean copies all of it in place. */
  lemma FullBuffer(most: nat, bufferSize: nat)
    requires most > bufferSize >= 1
    ensures exists ops :: !CopiesPayOff(most, bufferSize, ops)
  {
    var n := bufferSize + 1;
    var ops := [WriteOp(n), CleanOp, CleanOp];
    var c1 := Do(bufferSize, New(), ops[0]);
    var c2 := Do(bufferSize, c1, CleanOp);
    var c3 := Do(bufferSize, c2, CleanOp);
    assert ops[1..] == [CleanOp, CleanOp] && ops[1..][1..] == [CleanOp] && ops[1..][1..][1..] == [];
    assert c3.copied == 2 * n && c3.received == n;
    assert Run(bufferSize, c2, [CleanOp]) == c3 && MovesAtMost(most, bufferSize, c2, [CleanOp]);
    assert Run(bufferSize, c1, [CleanOp, CleanOp]) == c3 && MovesAtMost(most, bufferSize, c1, [CleanOp, CleanOp]);
    assert Run(bufferSize, New(), ops) == c3 && MovesAtMost(most, bufferSize, New(), ops);
    assert !CopiesPayOff(most, bufferSize, ops);
  }

  /** n times: receive up to one byte over bufferSize, read all but most bytes, clean. */
  function Cycles(most: nat, bufferSize: nat, n: nat): seq<Op>
    requires most <= bufferSize
  {
    if n == 0 then []
    else [WriteOp(bufferSize + 1 - most), ReadOp(bufferSize + 1 - most), CleanOp] + Cycles(most, bufferSize, n - 1)
  }

  lemma {:induction false} CyclesCost(most: nat, bufferSize: nat, n: nat, c: Cursors)
    requires 1 <= most <= bufferSize
    requires c.read == 0 && c.write == most && Valid(bufferSize, c)
    ensures MovesAtMost(most, bufferSize, c, Cycles(most, bufferSize, n))
    ensures var c' := Run(bufferSize, c, Cycles(most, bufferSize, n));
            c'.copied == c.copied + n * most && c'.received == c.received + n * (bufferSize + 1 - most)
  {
    if n > 0 {
      var ops := Cycles(most, bufferSize, n);
      var c1 := Do(bufferSize, c, ops[0]);
      var c2 := Do(bufferSize, c1, ops[1]);
      var c3 := Do(bufferSize, c2, ops[2]);
      var ops1, ops2, rest := ops[1..], ops[2..], Cycles(most, bufferSize, n - 1);
      assert ops1[0] == ops[1] && ops1[1..] == ops2 && ops2[0] == ops[2] && ops2[1..] == rest;
      assert Compacts(bufferSize, c2) && c2.write - c2.read == most;
      CyclesCost(most, bufferSize, n - 1, c3);
      assert Run(bufferSize, c2, ops2) == Run(bufferSize, c3, rest);
      assert MovesAtMost(most, bufferSize, c2, ops2);
      assert Run(bufferSize, c1, ops1) == Run(bufferSize, c2, ops2);
    }
  }

  lemma Overdrawn(most: nat, bufferSize: nat)
    requires most <= bufferSize && 2 * most > bufferSize + 1
    ensures (bufferSize + 2) * most > most + (bufferSize + 2) * (bufferSize + 1 - most)
  {
    var d := 2 * most - (bufferSize + 1);
    assert (bufferSize + 2) * most - (bufferSize + 2) * (bufferSize + 1 - most) == (bufferSize + 2) * d;
    assert (bufferSize + 2) * d >= bufferSize + 2;
  }
}
