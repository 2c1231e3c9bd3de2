/** What each call on the lock does when its thread runs alone, from any state that bounded runs lead to: exactly
    when it returns, and with which holds, which word and which count. */
module LockAlone {
  import opened Lock

  /** Thread t takes k steps. */
  function Alone(s: State, t: Tid, k: nat): (e: State)
    requires t < |s.ths|
    ensures |e.ths| == |s.ths|
    decreases k
  {
    if k == 0 then s else Alone(Step(s, t, Go), t, k - 1)
  }

  /** The same, as far as memory and the thread itself go. */
  function Solo(m: Mem, id: nat, th: Thread, k: nat): (Mem, Thread)
    decreases k
  {
    if k == 0 then (m, th) else var (m', th') := Act(m, id, th, Go); Solo(m', id, th', k - 1)
  }

  lemma {:induction false} AloneIs(s: State, t: Tid, k: nat)
    requires t < |s.ths|
    ensures var (m, th) := Solo(s.m, t + 1, s.ths[t], k); Alone(s, t, k) == State(m, s.ths[t := th])
    decreases k
  {
    if k > 0 {
      AloneIs(Step(s, t, Go), t, k - 1);
    } else {
      assert s.ths[t := s.ths[t]] == s.ths;
    }
  }

  lemma SoloStep(m: Mem, id: nat, th: Thread, m': Mem, th': Thread, k: nat)
    requires Act(m, id, th, Go) == (m', th')
    ensures Solo(m, id, th, k + 1) == Solo(m', id, th', k)
  {
  }

  /** After k steps alone the call has returned, to this memory and thread. */
  predicate Gives(m: Mem, id: nat, th: Thread, k: nat, m': Mem, w: nat, r: nat) {
    Solo(m, id, th, k) == (m', Thread(Idle, w, r))
  }

  ghost predicate Returns(s: State, t: Tid)
    requires t < |s.ths|
  {
    exists k :: Alone(s, t, k).ths[t].pc.Idle?
  }

  lemma Holds(n: nat, moves: seq<Move>) returns (s: State)
    requires n < HALF && BoundedRun(Init(n), moves)
    ensures s == Exec(Init(n), moves) && Inv(s) && Bounded(s)
  {
    s := Exec(Init(n), moves);
    InitHolds(n);
    RunInv(Init(n), moves);
    StaysBounded(Init(n), moves);
  }

  lemma {:induction false} StaysBounded(s: State, moves: seq<Move>)
    requires BoundedRun(s, moves)
    ensures Bounded(Exec(s, moves))
    decreases |moves|
  {
    if moves != [] {
      var s' := if moves[0].t < |s.ths| then Step(s, moves[0].t, moves[0].c) else s;
      assert RunWithin(s', moves[1..], HALF - 1, HALF);
      StaysBounded(s', moves[1..]);
    }
  }

  // ----- what the word says -----

  /** Nobody but t has the lock for writing, or is about to. */
  ghost predicate NoOtherOwner(s: State, t: Tid) {
    forall u :: 0 <= u < |s.ths| && u != t ==> !Owns(s.ths[u])
  }

  /** Nobody has the lock in any way. */
  ghost predicate Unheld(s: State) {
    forall u :: 0 <= u < |s.ths| ==> !Owns(s.ths[u]) && Registered(s.ths[u]) == 0
  }

  lemma WordIff(s: State, t: Tid)
    requires Inv(s) && t < |s.ths|
    ensures Owner(s.m.flag) == t + 1 <==> Owns(s.ths[t])
    ensures Owner(s.m.flag) == t + 1 || Owner(s.m.flag) == 0 <==> NoOtherOwner(s, t)
    ensures s.m.flag == EMPTY_FLAG <==> Unheld(s)
  {
    View(s, t);
    var o := Owner(s.m.flag);
    if o != 0 && o != t + 1 {
      assert Owns(s.ths[o - 1]);
    }
    forall u | 0 <= u < |s.ths| ensures Registered(s.ths[u]) <= Reads(s.m.flag) {
      View(s, u);
    }
    if Unheld(s) { ReadsNone(s.ths); }
  }

  // ----- the four calls -----

  /** WriteLock returns exactly if the thread has the lock for writing already, or nobody has it at all. */
  lemma WriteLockAlone(n: nat, moves: seq<Move>, t: Tid)
    requires n < HALF && BoundedRun(Init(n), moves) && t < |Exec(Init(n), moves).ths|
    requires Exec(Init(n), moves).ths[t].pc.Idle?
    ensures var s := Exec(Init(n), moves);
            var called, th := Step(s, t, CallWriteLock), s.ths[t];
            && (Returns(called, t) <==> th.w > 0 || Unheld(s))
            && (th.w > 0 || Unheld(s) ==>
                  exists k :: Alone(called, t, k)
                              == State(Mem(if th.w > 0 then s.m.flag else Desired(t + 1), (s.m.writeCount + 1) % HALF),
                                       s.ths[t := Thread(Idle, th.w + 1, th.r)]))
  {
    var s := Holds(n, moves);
    var called, th := Step(s, t, CallWriteLock), s.ths[t];
    WordIff(s, t);
    var m := s.m;
    if th.w > 0 || Unheld(s) {
      var m1 := if th.w > 0 then m else m.(flag := Desired(t + 1));
      var k := if th.w > 0 then 3 else 4;
      WritesAlone(m, t + 1, th, k);
      AloneIs(called, t, k);
      assert Alone(called, t, k).ths[t].pc.Idle?;
    } else {
      forall k ensures !Alone(called, t, k).ths[t].pc.Idle? {
        WaitsToWrite(m, t + 1, th.(pc := WriteTest), k);
        AloneIs(called, t, k);
      }
    }
  }

  lemma WritesAlone(m: Mem, id: nat, th: Thread, k: nat)
    requires 0 < id < HALF && (if Owner(m.flag) == id then k == 3 else m.flag == EMPTY_FLAG && k == 4)
    ensures Gives(m, id, th.(pc := WriteTest), k,
                  Mem(if Owner(m.flag) == id then m.flag else Desired(id), (m.writeCount + 1) % HALF), th.w + 1, th.r)
  {
    var m1 := m.(flag := if Owner(m.flag) == id then m.flag else Desired(id));
    var m2 := m1.(writeCount := (m.writeCount + 1) % HALF);
    var i: nat := 0;
    SoloStep(m1, id, th.(pc := CountUp), m1, th.(pc := CountUpStore(m.writeCount)), i + 1);
    SoloStep(m1, id, th.(pc := CountUpStore(m.writeCount)), m2, Thread(Idle, th.w + 1, th.r), i);
    if Owner(m.flag) == id {
      SoloStep(m, id, th.(pc := WriteTest), m, th.(pc := CountUp), i + 2);
    } else {
      SoloStep(m, id, th.(pc := WriteTest), m, th.(pc := WriteSpin), i + 3);
      SoloStep(m, id, th.(pc := WriteSpin), m1, th.(pc := CountUp), i + 2);
    }
  }

  lemma {:induction false} WaitsToWrite(m: Mem, id: nat, th: Thread, k: nat)
    requires m.flag != EMPTY_FLAG && (th.pc.WriteSpin? || (th.pc.WriteTest? && Owner(m.flag) != id))
    ensures var (m', th') := Solo(m, id, th, k); m' == m && (th'.pc.WriteSpin? || th'.pc.WriteTest?)
    decreases k
  {
    if k > 0 { WaitsToWrite(m, id, th.(pc := WriteSpin), k - 1); }
  }

  /** ReadLock returns exactly if nobody else has the lock for writing. */
  lemma ReadLockAlone(n: nat, moves: seq<Move>, t: Tid)
    requires n < HALF && BoundedRun(Init(n), moves) && t < |Exec(Init(n), moves).ths|
    requires Exec(Init(n), moves).ths[t].pc.Idle?
    ensures var s := Exec(Init(n), moves);
            var called, th := Step(s, t, CallReadLock), s.ths[t];
            && (Returns(called, t) <==> NoOtherOwner(s, t))
            && (NoOtherOwner(s, t) ==>
                  Alone(called, t, if th.w > 0 then 2 else 3)
                  == State(s.m.(flag := (s.m.flag + 1) % 0x1_0000_0000), s.ths[t := Thread(Idle, th.w, th.r + 1)]))
  {
    var s := Holds(n, moves);
    var called, th := Step(s, t, CallReadLock), s.ths[t];
    WordIff(s, t);
    View(s, t);
    if NoOtherOwner(s, t) {
      var k := if th.w > 0 then 2 else 3;
      ReadsAlone(s.m, t + 1, th, k);
      AloneIs(called, t, k);
      assert Alone(called, t, k).ths[t].pc.Idle?;
    } else {
      NeverReads(called, t);
    }
  }

  lemma NeverReads(s: State, t: Tid)
    requires t < |s.ths| && s.ths[t].pc.ReadTest? && Owner(s.m.flag) != 0 && Owner(s.m.flag) != t + 1
    ensures !Returns(s, t)
  {
    forall k ensures !Alone(s, t, k).ths[t].pc.Idle? {
      WaitsToRead(s.m, t + 1, s.ths[t], k);
      AloneIs(s, t, k);
    }
  }

  lemma ReadsAlone(m: Mem, id: nat, th: Thread, k: nat)
    requires id > 0 && m.flag == Owner(m.flag) * HALF + Reads(m.flag)
    requires if Owner(m.flag) == id then k == 2 else Owner(m.flag) == 0 && k == 3
    ensures Gives(m, id, th.(pc := ReadTest), k, m.(flag := (m.flag + 1) % WORD), th.w, th.r + 1)
  {
    var m1, done := m.(flag := (m.flag + 1) % WORD), Thread(Idle, th.w, th.r + 1);
    var i: nat := 0;
    if Owner(m.flag) == id {
      SoloStep(m, id, th.(pc := ReadTest), m, th.(pc := ReadSelf), i + 1);
      SoloStep(m, id, th.(pc := ReadSelf), m1, done, i);
    } else {
      SoloStep(m, id, th.(pc := ReadTest), m, th.(pc := ReadLoad), i + 2);
      SoloStep(m, id, th.(pc := ReadLoad), m, th.(pc := ReadCas(m.flag)), i + 1);
      SoloStep(m, id, th.(pc := ReadCas(m.flag)), m1, done, i);
    }
  }

  lemma {:induction false} WaitsToRead(m: Mem, id: nat, th: Thread, k: nat)
    requires Owner(m.flag) != 0
    requires th.pc.ReadLoad? || (th.pc.ReadCas? && th.pc.expected < HALF) || (th.pc.ReadTest? && Owner(m.flag) != id)
    ensures var (m', th') := Solo(m, id, th, k);
            m' == m && (th'.pc.ReadLoad? || th'.pc.ReadCas? || th'.pc.ReadTest?)
    decreases k
  {
    if k > 0 {
      var (m', th') := Act(m, id, th, Go);
      assert m' == m;
      WaitsToRead(m, id, th', k - 1);
    }
  }

  /** WriteUnlock returns exactly if the thread reads nothing, and else crashes at its first access. The last one
      empties the word. */
  lemma WriteUnlockAlone(n: nat, moves: seq<Move>, t: Tid)
    requires n < HALF && BoundedRun(Init(n), moves) && t < |Exec(Init(n), moves).ths|
    requires var th := Exec(Init(n), moves).ths[t]; th.pc.Idle? && th.w > 0
    ensures var s := Exec(Init(n), moves);
            var called, th := Step(s, t, CallWriteUnlock), s.ths[t];
            && (Returns(called, t) <==> th.r == 0)
            && (th.r == 0 ==>
                  Alone(called, t, if th.w == 1 then 4 else 3)
                  == State(Mem(if th.w == 1 then EMPTY_FLAG else s.m.flag, (s.m.writeCount + HALF - 1) % HALF),
                           s.ths[t := Thread(Idle, th.w - 1, 0)]))
            && (th.r > 0 ==> forall k :: k > 0 ==> Alone(called, t, k).ths[t].pc.Crashed?)
  {
    var s := Holds(n, moves);
    var called, th := Step(s, t, CallWriteUnlock), s.ths[t];
    View(s, t);
    if th.r == 0 {
      var k := if th.w == 1 then 4 else 3;
      UnlocksAlone(s.m, t + 1, th, k);
      AloneIs(called, t, k);
      assert Alone(called, t, k).ths[t].pc.Idle?;
    } else {
      forall k: nat ensures k > 0 ==> Alone(called, t, k).ths[t].pc.Crashed? {
        if k > 0 {
          StaysCrashed(s.m, t + 1, Thread(Crashed, th.w - 1, th.r), k - 1);
          AloneIs(called, t, k);
        }
      }
      assert Alone(called, t, 0) == called;
    }
  }

  lemma UnlocksAlone(m: Mem, id: nat, th: Thread, k: nat)
    requires th.r == 0 && Reads(m.flag) == 0 && 0 < th.w <= HALF && m.writeCount == th.w % HALF
    requires k == if th.w == 1 then 4 else 3
    ensures Gives(m, id, Thread(UnlockTest, th.w - 1, th.r), k,
                  Mem(if th.w == 1 then EMPTY_FLAG else m.flag, (m.writeCount + HALF - 1) % HALF), th.w - 1, 0)
  {
    var now := Thread(UnlockTest, th.w - 1, th.r);
    var m1 := m.(writeCount := (m.writeCount + HALF - 1) % HALF);
    var seen := m.writeCount;
    var i: nat := if th.w == 1 then 1 else 0;
    assert m1.writeCount == th.w - 1;
    SoloStep(m, id, now, m, now.(pc := CountDown), i + 2);
    SoloStep(m, id, now.(pc := CountDown), m, now.(pc := CountDownStore(seen)), i + 1);
    if th.w == 1 {
      SoloStep(m, id, now.(pc := CountDownStore(seen)), m1, now.(pc := Clear), i);
      SoloStep(m1, id, now.(pc := Clear), m1.(flag := EMPTY_FLAG), now.(pc := Idle), i - 1);
    } else {
      SoloStep(m, id, now.(pc := CountDownStore(seen)), m1, now.(pc := Idle), i);
    }
  }

  lemma {:induction false} StaysCrashed(m: Mem, id: nat, th: Thread, k: nat)
    requires th.pc.Crashed?
    ensures Solo(m, id, th, k) == (m, th)
    decreases k
  {
    if k > 0 { StaysCrashed(m, id, th, k - 1); }
  }

  /** ReadUnlock always returns, with one access. */
  lemma ReadUnlockAlone(n: nat, moves: seq<Move>, t: Tid)
    requires n < HALF && BoundedRun(Init(n), moves) && t < |Exec(Init(n), moves).ths|
    requires var th := Exec(Init(n), moves).ths[t]; th.pc.Idle? && th.r > 0
    ensures var s := Exec(Init(n), moves);
            var th := s.ths[t];
            && s.m.flag > 0
            && Alone(Step(s, t, CallReadUnlock), t, 1)
               == State(s.m.(flag := s.m.flag - 1), s.ths[t := Thread(Idle, th.w, th.r - 1)])
  {
    var s := Holds(n, moves);
    View(s, t);
    AloneIs(Step(s, t, CallReadUnlock), t, 1);
    var th := s.ths[t];
    assert (s.m.flag + WORD - 1) % WORD == s.m.flag - 1;
    var i: nat := 0;
    SoloStep(s.m, t + 1, Thread(ReadSub, th.w, th.r - 1), s.m.(flag := s.m.flag - 1), Thread(Idle, th.w, th.r - 1), i);
  }

  // ----- from any point of any call -----

  /** Whether the rest of the call returns when nobody else moves. */
  ghost predicate CanReturn(s: State, t: Tid)
    requires t < |s.ths|
  {
    match s.ths[t].pc
    case WriteTest => s.ths[t].w > 0 || Unheld(s)
    case WriteSpin => Unheld(s)
    case UnlockTest => s.ths[t].r == 0
    case ReadTest => NoOtherOwner(s, t)
    case ReadLoad => NoOtherOwner(s, t)
    case ReadCas(_) => NoOtherOwner(s, t)
    case Crashed => false
    case _ => true
  }

  /** Wherever a thread stands in any call in such a state: alone it returns, exactly if it waits for no other
      thread and not for itself, and is not about to crash. */
  lemma ReturnsIff(n: nat, moves: seq<Move>, t: Tid)
    requires n < HALF && BoundedRun(Init(n), moves) && t < |Exec(Init(n), moves).ths|
    ensures Returns(Exec(Init(n), moves), t) <==> CanReturn(Exec(Init(n), moves), t)
  {
    var s := Holds(n, moves);
    var pc, th, m, id := s.ths[t].pc, s.ths[t], s.m, t + 1;
    WordIff(s, t);
    View(s, t);
    assert LocalInv(th);
    if CanReturn(s, t) {
      var k := EndsAlone(m, id, th);
      AloneIs(s, t, k);
      assert Alone(s, t, k).ths[t].pc.Idle?;
    } else {
      forall k: nat ensures !Alone(s, t, k).ths[t].pc.Idle? {
        AloneIs(s, t, k);
        if pc.WriteTest? || pc.WriteSpin? {
          WaitsToWrite(m, id, th, k);
        } else if pc.ReadTest? || pc.ReadLoad? || pc.ReadCas? {
          WaitsToRead(m, id, th, k);
        } else if k > 0 {
          StaysCrashed(m, id, th.(pc := Crashed), k - 1);
        }
      }
    }
  }

  lemma EndsAlone(m: Mem, id: nat, th: Thread) returns (k: nat)
    requires id > 0 && m.flag == Owner(m.flag) * HALF + Reads(m.flag) && !th.pc.Crashed?
    requires th.pc.WriteTest? ==> Owner(m.flag) == id || m.flag == EMPTY_FLAG
    requires th.pc.WriteSpin? ==> m.flag == EMPTY_FLAG
    requires th.pc.UnlockTest? ==> Reads(m.flag) == 0
    requires th.pc.ReadTest? ==> Owner(m.flag) == id || Owner(m.flag) == 0
    requires th.pc.ReadLoad? || th.pc.ReadCas? ==> Owner(m.flag) == 0
    requires th.pc.ReadSub? ==> Reads(m.flag) > 0
    ensures Solo(m, id, th, k).1.pc.Idle?
    decreases Rank(m, th)
  {
    if th.pc.Idle? {
      return 0;
    }
    var (m', th') := Act(m, id, th, Go);
    k := EndsAlone(m', id, th');
    SoloStep(m, id, th, m', th', k);
    k := k + 1;
  }

  function Rank(m: Mem, th: Thread): nat {
    match th.pc
    case WriteTest => 4
    case WriteSpin => 3
    case CountUp => 2
    case CountUpStore(_) => 1
    case UnlockTest => 4
    case CountDown => 3
    case CountDownStore(_) => 2
    case Clear => 1
    case ReadTest => 5
    case ReadSelf => 1
    case ReadLoad => 2
    case ReadCas(expected) => if m.flag == expected then 1 else 3
    case ReadSub => 1
    case Idle => 0
    case Crashed => 0
  }
}
