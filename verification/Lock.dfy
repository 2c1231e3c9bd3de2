/** ServerCore/Lock.cpp: the recursive reader/writer spin lock on one packed 32-bit word, used by any
    number of threads. One step is one access to _lockFlag or to the plain field _writeCount. */
module Lock {
  type Tid = nat

  const HALF := 0x1_0000  // the owner id sits above the 16 bits of the read count
  const WORD := 0x1_0000_0000
  const EMPTY_FLAG := 0

  /** _lockFlag & WRITE_THREAD_MASK, shifted down. */
  function Owner(flag: nat): nat { flag / HALF }

  /** _lockFlag & READ_COUNT_MASK. */
  function Reads(flag: nat): nat { flag % HALF }

  /** (LThreadId << 16) & WRITE_THREAD_MASK. */
  function Desired(id: nat): nat { id % HALF * HALF }

  datatype PC =
    | Idle
    // WriteLock
    | WriteTest
    | WriteSpin
    | CountUp
    | CountUpStore(seen: nat)
    // WriteUnlock
    | UnlockTest
    | CountDown
    | CountDownStore(seen: nat)
    | Clear
    // ReadLock
    | ReadTest
    | ReadSelf
    | ReadLoad
    | ReadCas(expected: nat)
    // ReadUnlock
    | ReadSub
    | Crashed

  /** w and r: how often the thread holds the lock for writing and for reading. A hold begins when the
      acquiring call returns and ends when the releasing call begins. */
  datatype Thread = Thread(pc: PC, w: nat, r: nat)

  datatype Mem = Mem(flag: nat, writeCount: nat)

  /** Thread t has id t + 1: InitTLS numbers the threads from 1. */
  datatype State = State(m: Mem, ths: seq<Thread>)

  datatype Choice = CallWriteLock | CallWriteUnlock | CallReadLock | CallReadUnlock | Go

  function Init(n: nat): State {
    State(Mem(EMPTY_FLAG, 0), seq(n, _ => Thread(Idle, 0, 0)))
  }

  /** The calls a client may make: it releases only what it holds. */
  function Call(th: Thread, c: Choice): Thread {
    match c
    case CallWriteLock => th.(pc := WriteTest)
    case CallWriteUnlock => if th.w > 0 then Thread(UnlockTest, th.w - 1, th.r) else th
    case CallReadLock => th.(pc := ReadTest)
    case CallReadUnlock => if th.r > 0 then Thread(ReadSub, th.w, th.r - 1) else th
    case Go => th
  }

  function Act(m: Mem, id: nat, th: Thread, c: Choice): (Mem, Thread) {
    match th.pc
    case Idle => (m, Call(th, c))
    case WriteTest => (m, th.(pc := if Owner(m.flag) == id then CountUp else WriteSpin))
    case WriteSpin =>
      if m.flag == EMPTY_FLAG then (m.(flag := Desired(id)), th.(pc := CountUp)) else (m, th)
    case CountUp => (m, th.(pc := CountUpStore(m.writeCount)))
    case CountUpStore(seen) => (m.(writeCount := (seen + 1) % HALF), Thread(Idle, th.w + 1, th.r))
    case UnlockTest => (m, th.(pc := if Reads(m.flag) != 0 then Crashed else CountDown))
    case CountDown => (m, th.(pc := CountDownStore(m.writeCount)))
    case CountDownStore(seen) =>
      var lockCount := (seen + HALF - 1) % HALF;
      (m.(writeCount := lockCount), th.(pc := if lockCount == 0 then Clear else Idle))
    case Clear => (m.(flag := EMPTY_FLAG), th.(pc := Idle))
    case ReadTest => (m, th.(pc := if Owner(m.flag) == id then ReadSelf else ReadLoad))
    case ReadSelf => (m.(flag := (m.flag + 1) % WORD), Thread(Idle, th.w, th.r + 1))
    case ReadLoad => (m, th.(pc := ReadCas(Reads(m.flag))))
    case ReadCas(expected) =>
      if m.flag == expected then (m.(flag := (expected + 1) % WORD), Thread(Idle, th.w, th.r + 1))
      else (m, th.(pc := ReadLoad))
    case ReadSub =>
      (m.(flag := (m.flag + WORD - 1) % WORD), th.(pc := if Reads(m.flag) == 0 then Crashed else Idle))
    case Crashed => (m, th)
  }

  function Step(s: State, t: Tid, c: Choice): State
    requires t < |s.ths|
  {
    var (m, th) := Act(s.m, t + 1, s.ths[t], c);
    State(m, s.ths[t := th])
  }

  datatype Move = Move(t: Tid, c: Choice)

  function Exec(s: State, moves: seq<Move>): State
    decreases |moves|
  {
    if moves == [] then s
    else Exec(if moves[0].t < |s.ths| then Step(s, moves[0].t, moves[0].c) else s, moves[1..])
  }

  // ---------------------------------------------------------------------------------------------

  /** The read holds of a thread that _lockFlag still counts. */
  function Registered(th: Thread): nat {
    th.r + if th.pc.ReadSub? then 1 else 0
  }

  function AllReads(ths: seq<Thread>): nat {
    if ths == [] then 0 else Registered(ths[0]) + AllReads(ths[1..])
  }

  /** From the CAS that wins the lock for writing to the store that gives it up. */
  predicate Owns(th: Thread) {
    th.w > 0 || th.pc.CountUp? || th.pc.CountUpStore? || th.pc.UnlockTest? || th.pc.CountDown?
    || th.pc.CountDownStore? || th.pc.Clear? || th.pc.Crashed?
  }

  /** The nesting that _writeCount shows, in 16 bits, while this thread owns the lock. */
  function Depth(th: Thread): nat {
    th.w + if th.pc.UnlockTest? || th.pc.CountDown? || th.pc.CountDownStore? || th.pc.Crashed? then 1 else 0
  }

  predicate LocalInv(th: Thread) {
    match th.pc
    case WriteTest => true
    case WriteSpin => th.w == 0
    case CountUp => true
    case CountUpStore(seen) => seen == th.w % HALF
    case UnlockTest => th.w < HALF
    case CountDown => th.r == 0 && th.w < HALF
    case CountDownStore(seen) => th.r == 0 && th.w < HALF && seen == (th.w + 1) % HALF
    case Clear => th.r == 0 && th.w == 0
    case ReadSelf => th.w > 0
    case ReadLoad => th.w == 0
    case ReadCas(expected) => th.w == 0 && expected < HALF
    case Idle => true
    case ReadTest => true
    case ReadSub => true
    case Crashed => th.w < HALF && th.r > 0
  }

  /** At most that many read holds at a time, and no thread nests more write locks than that. */
  predicate Within(s: State, readCap: nat, writeCap: nat) {
    AllReads(s.ths) <= readCap && forall t :: 0 <= t < |s.ths| ==> s.ths[t].w <= writeCap
  }

  /** What the halves of the word and the 16 bits of _writeCount have room for: a nesting of 65536 shows
      as a count of 0 and is still undone in order. */
  predicate Bounded(s: State) {
    Within(s, HALF - 1, HALF)
  }

  ghost predicate FreeInv(s: State) {
    && s.m.writeCount == 0 && Reads(s.m.flag) == AllReads(s.ths)
    && forall t :: 0 <= t < |s.ths| ==> !Owns(s.ths[t])
  }

  ghost predicate OwnedInv(s: State, t: Tid) {
    && t < |s.ths| && Owns(s.ths[t]) && s.m.writeCount == Depth(s.ths[t]) % HALF
    && Reads(s.m.flag) == Registered(s.ths[t])
    && forall u :: 0 <= u < |s.ths| && u != t ==> !Owns(s.ths[u]) && Registered(s.ths[u]) == 0
  }

  ghost predicate Inv(s: State) {
    && |s.ths| < HALF && s.m.flag < WORD
    && (forall t :: 0 <= t < |s.ths| ==> LocalInv(s.ths[t]))
    && (if Owner(s.m.flag) == 0 then FreeInv(s) else OwnedInv(s, Owner(s.m.flag) - 1))
  }

  lemma {:induction false} ReadsUpdate(ths: seq<Thread>, t: Tid, th: Thread)
    requires t < |ths|
    ensures AllReads(ths[t := th]) + Registered(ths[t]) == AllReads(ths) + Registered(th)
    ensures Registered(ths[t]) <= AllReads(ths)
  {
    if t == 0 {
      assert ths[t := th][1..] == ths[1..];
    } else {
      assert ths[t := th][1..] == ths[1..][t - 1 := th];
      ReadsUpdate(ths[1..], t - 1, th);
    }
  }

  lemma {:induction false} ReadsOnly(ths: seq<Thread>, t: Tid)
    requires t < |ths| && forall u :: 0 <= u < |ths| && u != t ==> Registered(ths[u]) == 0
    ensures AllReads(ths) == Registered(ths[t])
  {
    if t == 0 {
      ReadsNone(ths[1..]);
    } else {
      ReadsOnly(ths[1..], t - 1);
    }
  }

  lemma {:induction false} ReadsNone(ths: seq<Thread>)
    requires forall u :: 0 <= u < |ths| ==> Registered(ths[u]) == 0
    ensures AllReads(ths) == 0
  {
    if ths != [] {
      ReadsNone(ths[1..]);
    }
  }

  lemma InitHolds(n: nat)
    requires n < HALF
    ensures Inv(Init(n)) && Bounded(Init(n))
  {
    ReadsNone(Init(n).ths);
  }

  lemma Packed(flag: nat, owner: nat, count: nat)
    requires flag == owner * HALF + count && count < HALF
    ensures Owner(flag) == owner && Reads(flag) == count
  {
  }

  /** What the word says from thread t's point of view. */
  lemma View(s: State, t: Tid)
    requires t < |s.ths| && Inv(s)
    ensures s.m.flag == Owner(s.m.flag) * HALF + Reads(s.m.flag)
    ensures Owns(s.ths[t]) ==> Owner(s.m.flag) == t + 1
    ensures Owner(s.m.flag) == t + 1 ==> Owns(s.ths[t]) && OwnedInv(s, t)
    ensures Owner(s.m.flag) <= |s.ths|
    ensures Registered(s.ths[t]) <= Reads(s.m.flag) == AllReads(s.ths) < HALF
  {
    var o := Owner(s.m.flag);
    if o != 0 {
      ReadsOnly(s.ths, o - 1);
    }
    ReadsUpdate(s.ths, t, s.ths[t]);
  }

  /** Steps that leave the word alone. */
  lemma StepPlain(s: State, t: Tid, c: Choice)
    requires t < |s.ths| && Inv(s) && Bounded(s) && Bounded(Step(s, t, c))
    requires Step(s, t, c).m.flag == s.m.flag && !s.ths[t].pc.ReadSub?
    requires !s.ths[t].pc.WriteSpin? && !s.ths[t].pc.Clear? && !s.ths[t].pc.ReadSelf?
    ensures Inv(Step(s, t, c))
  {
    var s' := Step(s, t, c);
    View(s, t);
    ReadsUpdate(s.ths, t, s'.ths[t]);
    assert LocalInv(s.ths[t]);
    PlainLocal(s.m, t + 1, s.ths[t], c);
  }

  /** A step that leaves the word alone, of a thread that agrees with the word and the count. */
  predicate Plain(m: Mem, id: nat, th: Thread, c: Choice) {
    && LocalInv(th) && th.w <= HALF && (Owner(m.flag) == id <==> Owns(th))
    && (Owns(th) ==> m.writeCount == Depth(th) % HALF)
    && Act(m, id, th, c).0.flag == m.flag && Act(m, id, th, c).1.w <= HALF
    && !th.pc.ReadSub? && !th.pc.WriteSpin? && !th.pc.Clear? && !th.pc.ReadSelf?
    && (th.pc.ReadCas? ==> m.flag != th.pc.expected)
    && (th.pc.UnlockTest? ==> Reads(m.flag) == th.r)
  }

  predicate PlainKept(m: Mem, th: Thread, m': Mem, th': Thread) {
    && LocalInv(th') && (Owns(th') <==> Owns(th)) && Registered(th') == Registered(th)
    && (Owns(th') ==> m'.writeCount == Depth(th') % HALF)
    && (!Owns(th') ==> m'.writeCount == m.writeCount)
  }

  lemma PlainLocal(m: Mem, id: nat, th: Thread, c: Choice)
    requires Plain(m, id, th, c)
    ensures var (m', th') := Act(m, id, th, c); PlainKept(m, th, m', th')
  {
    if th.pc.Idle? || th.pc.ReadTest? || th.pc.ReadLoad? || th.pc.ReadCas? {
      PlainRead(m, id, th, c);
    } else {
      PlainWrite(m, id, th, c);
    }
  }

  lemma PlainRead(m: Mem, id: nat, th: Thread, c: Choice)
    requires Plain(m, id, th, c) && (th.pc.Idle? || th.pc.ReadTest? || th.pc.ReadLoad? || th.pc.ReadCas?)
    ensures var (m', th') := Act(m, id, th, c); PlainKept(m, th, m', th')
  {
  }

  lemma PlainWrite(m: Mem, id: nat, th: Thread, c: Choice)
    requires Plain(m, id, th, c) && !(th.pc.Idle? || th.pc.ReadTest? || th.pc.ReadLoad? || th.pc.ReadCas?)
    ensures var (m', th') := Act(m, id, th, c); PlainKept(m, th, m', th')
  {
  }

  lemma StepWriteSpin(s: State, t: Tid, c: Choice)
    requires t < |s.ths| && Inv(s) && s.ths[t].pc.WriteSpin?
    ensures Inv(Step(s, t, c))
  {
    var s' := Step(s, t, c);
    View(s, t);
    ReadsUpdate(s.ths, t, s'.ths[t]);
    assert LocalInv(s.ths[t]);
    if s.m.flag == EMPTY_FLAG {
      forall u | 0 <= u < |s.ths|
        ensures Registered(s.ths[u]) == 0
      {
        View(s, u);
      }
      Packed(s'.m.flag, t + 1, 0);
    }
  }

  lemma StepClear(s: State, t: Tid, c: Choice)
    requires t < |s.ths| && Inv(s) && s.ths[t].pc.Clear?
    ensures s.m.flag == Desired(t + 1)
    ensures Inv(Step(s, t, c))
  {
    var s' := Step(s, t, c);
    View(s, t);
    ReadsUpdate(s.ths, t, s'.ths[t]);
    assert LocalInv(s.ths[t]);
    ReadsNone(s'.ths);
  }

  /** Removing one registration takes one from the low half and leaves the owner. */
  lemma StepReadSub(s: State, t: Tid, c: Choice)
    requires t < |s.ths| && Inv(s) && s.ths[t].pc.ReadSub?
    ensures Inv(Step(s, t, c))
  {
    var s' := Step(s, t, c);
    View(s, t);
    ReadsUpdate(s.ths, t, s'.ths[t]);
    assert LocalInv(s.ths[t]);
    Packed(s'.m.flag, Owner(s.m.flag), Reads(s.m.flag) - 1);
  }

  /** Adding one registration adds one to the low half and leaves the owner. */
  lemma StepReadAdd(s: State, t: Tid, c: Choice)
    requires t < |s.ths| && Inv(s) && Bounded(s) && Bounded(Step(s, t, c))
    requires var pc := s.ths[t].pc; pc.ReadSelf? || (pc.ReadCas? && pc.expected == s.m.flag)
    ensures Inv(Step(s, t, c))
  {
    var s' := Step(s, t, c);
    View(s, t);
    ReadsUpdate(s.ths, t, s'.ths[t]);
    assert LocalInv(s.ths[t]);
    Packed(s'.m.flag, Owner(s.m.flag), Reads(s.m.flag) + 1);
  }

  lemma StepInv(s: State, t: Tid, c: Choice)
    requires t < |s.ths| && Inv(s) && Bounded(s) && Bounded(Step(s, t, c))
    ensures Inv(Step(s, t, c))
  {
    var pc := s.ths[t].pc;
    assert LocalInv(s.ths[t]);
    if pc.WriteSpin? {
      StepWriteSpin(s, t, c);
    } else if pc.Clear? {
      StepClear(s, t, c);
    } else if pc.ReadSub? {
      StepReadSub(s, t, c);
    } else if pc.ReadSelf? || (pc.ReadCas? && pc.expected == s.m.flag) {
      StepReadAdd(s, t, c);
    } else {
      StepPlain(s, t, c);
    }
  }

  // ---------------------------------------------------------------------------------------------
  // Theorems over every run that stays in bounds, whatever the order in which its clients ask and release. A
  // CRASH stops its thread; the others may go on, which only adds runs.

  predicate RunWithin(s: State, moves: seq<Move>, readCap: nat, writeCap: nat)
    decreases |moves|
  {
    Within(s, readCap, writeCap) &&
    (moves != [] ==>
       RunWithin(if moves[0].t < |s.ths| then Step(s, moves[0].t, moves[0].c) else s, moves[1..], readCap, writeCap))
  }

  predicate BoundedRun(s: State, moves: seq<Move>) {
    RunWithin(s, moves, HALF - 1, HALF)
  }

  lemma {:induction false} RunInv(s: State, moves: seq<Move>)
    requires Inv(s) && BoundedRun(s, moves)
    ensures Inv(Exec(s, moves)) && |Exec(s, moves).ths| == |s.ths|
    decreases |moves|
  {
    if moves != [] {
      var t := moves[0].t;
      var s' := if t < |s.ths| then Step(s, t, moves[0].c) else s;
      assert RunWithin(s', moves[1..], HALF - 1, HALF);
      if t < |s.ths| {
        StepInv(s, t, moves[0].c);
      }
      RunInv(s', moves[1..]);
    }
  }

  /** A thread that holds the lock for writing excludes every other hold, of either kind. */
  predicate Exclusive(s: State) {
    forall t, u :: 0 <= t < |s.ths| && 0 <= u < |s.ths| && t != u && s.ths[t].w > 0 ==>
      s.ths[u].w == 0 && s.ths[u].r == 0
  }

  lemma Exclusion(n: nat, moves: seq<Move>)
    requires n < HALF && BoundedRun(Init(n), moves)
    ensures Exclusive(Exec(Init(n), moves))
  {
    InitHolds(n);
    RunInv(Init(n), moves);
    var s := Exec(Init(n), moves);
    forall t: nat, u: nat | t < |s.ths| && u < |s.ths| && t != u && s.ths[t].w > 0
      ensures s.ths[u].w == 0 && s.ths[u].r == 0
    {
      View(s, t);
    }
  }

  /** What the packed word says: with no owner nobody writes and the low half is the number of read
      holds; with an owner nobody else holds anything and the low half is the owner's own reads. */
  lemma WordMeaning(n: nat, moves: seq<Move>)
    requires n < HALF && BoundedRun(Init(n), moves)
    ensures var s := Exec(Init(n), moves);
            var o := Owner(s.m.flag);
            && |s.ths| == n && o <= n
            && (o == 0 ==> Reads(s.m.flag) == AllReads(s.ths) && forall t :: 0 <= t < n ==> s.ths[t].w == 0)
            && (o != 0 ==> Reads(s.m.flag) == Registered(s.ths[o - 1])
                           && forall u :: 0 <= u < n && u != o - 1 ==> s.ths[u].w == 0 && Registered(s.ths[u]) == 0)
  {
    InitHolds(n);
    RunInv(Init(n), moves);
  }

  /** A step crashes exactly when it is the test of WriteUnlock and the thread still reads; ReadUnlock never
      does. */
  lemma CrashesIff(n: nat, moves: seq<Move>, t: Tid, c: Choice)
    requires n < HALF && BoundedRun(Init(n), moves) && t < |Exec(Init(n), moves).ths|
    requires !Exec(Init(n), moves).ths[t].pc.Crashed?
    ensures var s := Exec(Init(n), moves);
            Step(s, t, c).ths[t].pc.Crashed? <==> s.ths[t].pc.UnlockTest? && s.ths[t].r > 0
  {
    InitHolds(n);
    RunInv(Init(n), moves);
    View(Exec(Init(n), moves), t);
  }

  /** Nobody unlocks for writing while he reads. */
  predicate Orderly(th: Thread, c: Choice) {
    th.pc.Idle? && c.CallWriteUnlock? && th.w > 0 ==> th.r == 0
  }

  predicate OrderedRun(s: State, moves: seq<Move>)
    decreases |moves|
  {
    moves == [] ||
    if moves[0].t < |s.ths| then
      Orderly(s.ths[moves[0].t], moves[0].c) && OrderedRun(Step(s, moves[0].t, moves[0].c), moves[1..])
    else OrderedRun(s, moves[1..])
  }

  ghost predicate InOrder(s: State) {
    forall t :: 0 <= t < |s.ths| ==> !s.ths[t].pc.Crashed? && (s.ths[t].pc.UnlockTest? ==> s.ths[t].r == 0)
  }

  lemma StepInOrder(s: State, t: Tid, c: Choice)
    requires t < |s.ths| && Inv(s) && InOrder(s) && Orderly(s.ths[t], c)
    ensures InOrder(Step(s, t, c))
  {
    View(s, t);
  }

  lemma {:induction false} RunInOrder(s: State, moves: seq<Move>)
    requires Inv(s) && BoundedRun(s, moves) && OrderedRun(s, moves) && InOrder(s)
    ensures InOrder(Exec(s, moves))
    decreases |moves|
  {
    if moves != [] {
      var t := moves[0].t;
      var s' := if t < |s.ths| then Step(s, t, moves[0].c) else s;
      assert RunWithin(s', moves[1..], HALF - 1, HALF);
      if t < |s.ths| {
        StepInv(s, t, moves[0].c);
        StepInOrder(s, t, moves[0].c);
      }
      RunInOrder(s', moves[1..]);
    }
  }

  /** Where nobody unlocks for writing while he reads, neither INVALID_UNLOCK_ORDER nor MULTIPLE_UNLOCK is ever
      reached. */
  lemma NeverCrashes(n: nat, moves: seq<Move>, t: Tid)
    requires n < HALF && BoundedRun(Init(n), moves) && OrderedRun(Init(n), moves) && t < |Exec(Init(n), moves).ths|
    ensures !Exec(Init(n), moves).ths[t].pc.Crashed?
  {
    InitHolds(n);
    RunInOrder(Init(n), moves);
  }

  lemma {:induction false} StaysStuck(s: State, moves: seq<Move>, t: Tid)
    requires Inv(s) && BoundedRun(s, moves) && t < |s.ths| && s.ths[t].pc.WriteSpin? && s.ths[t].r > 0
    ensures Inv(Exec(s, moves)) && |Exec(s, moves).ths| == |s.ths| && Exec(s, moves).ths[t] == s.ths[t]
    decreases |moves|
  {
    if moves != [] {
      var u := moves[0].t;
      var s' := if u < |s.ths| then Step(s, u, moves[0].c) else s;
      assert RunWithin(s', moves[1..], HALF - 1, HALF);
      if u < |s.ths| {
        StepInv(s, u, moves[0].c);
        View(s, t);
      }
      StaysStuck(s', moves[1..], t);
    }
  }

  /** A thread that reads, does not own the word and asks for writing waits for itself: whatever the others do,
      it never gets the lock. */
  lemma ReaderNeverWrites(n: nat, before: seq<Move>, after: seq<Move>, t: Tid)
    requires n < HALF && BoundedRun(Init(n), before) && t < |Exec(Init(n), before).ths|
    requires var th := Exec(Init(n), before).ths[t]; th.pc.WriteSpin? && th.r > 0
    requires BoundedRun(Exec(Init(n), before), after)
    ensures var e := Exec(Exec(Init(n), before), after);
            t < |e.ths| && e.ths[t] == Exec(Init(n), before).ths[t]
  {
    InitHolds(n);
    RunInv(Init(n), before);
    StaysStuck(Exec(Init(n), before), after, t);
  }

  /** Only the thread in the owner bits is ever about to touch the plain field _writeCount. */
  lemma WriteCountPrivate(n: nat, moves: seq<Move>, t: Tid)
    requires n < HALF && BoundedRun(Init(n), moves) && t < |Exec(Init(n), moves).ths|
    requires var pc := Exec(Init(n), moves).ths[t].pc;
             pc.CountUp? || pc.CountUpStore? || pc.CountDown? || pc.CountDownStore?
    ensures Owner(Exec(Init(n), moves).m.flag) == t + 1
  {
    InitHolds(n);
    RunInv(Init(n), moves);
    View(Exec(Init(n), moves), t);
  }

  /** The store of EMPTY_FLAG erases nothing but the storing thread's own id: no reader's increment. */
  lemma ClearErasesNoReader(n: nat, moves: seq<Move>, t: Tid)
    requires n < HALF && BoundedRun(Init(n), moves) && t < |Exec(Init(n), moves).ths|
    requires Exec(Init(n), moves).ths[t].pc.Clear?
    ensures Exec(Init(n), moves).m.flag == Desired(t + 1)
  {
    InitHolds(n);
    RunInv(Init(n), moves);
    StepClear(Exec(Init(n), moves), t, Go);
  }
}
