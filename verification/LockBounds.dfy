/** Exactly when the lock of ServerCore/Lock.cpp keeps writers exclusive: how many threads, how many read
    holds at a time and how deep a nesting of write locks it stands. */
module LockBounds {
  import opened Lock

  /** s with thread t and the memory replaced. */
  function At(s: State, m: Mem, t: Tid, th: Thread): State
    requires t < |s.ths|
  {
    State(m, s.ths[t := th])
  }

  /** The other threads are within the caps, with k read holds to spare for thread t. */
  predicate Room(s: State, t: Tid, k: nat, readCap: nat, writeCap: nat) {
    && t < |s.ths| && AllReads(s.ths) + k <= readCap + Registered(s.ths[t])
    && forall u :: 0 <= u < |s.ths| && u != t ==> s.ths[u].w <= writeCap
  }

  lemma RoomAt(s: State, t: Tid, k: nat, readCap: nat, writeCap: nat, m: Mem, th: Thread)
    requires Room(s, t, k, readCap, writeCap) && Registered(th) <= k && th.w <= writeCap
    ensures Within(At(s, m, t, th), readCap, writeCap)
  {
    ReadsUpdate(s.ths, t, th);
  }

  /** One move of thread t, from a state within the caps. */
  lemma One(s: State, t: Tid, k: nat, readCap: nat, writeCap: nat,
            m: Mem, th: Thread, c: Choice, m': Mem, th': Thread, rest: seq<Move>)
    requires Room(s, t, k, readCap, writeCap) && Registered(th) <= k && th.w <= writeCap
    requires Act(m, t + 1, th, c) == (m', th') && Orderly(th, c)
    ensures Exec(At(s, m, t, th), [Move(t, c)] + rest) == Exec(At(s, m', t, th'), rest)
    ensures RunWithin(At(s, m', t, th'), rest, readCap, writeCap) ==>
              RunWithin(At(s, m, t, th), [Move(t, c)] + rest, readCap, writeCap)
    ensures OrderedRun(At(s, m', t, th'), rest) ==> OrderedRun(At(s, m, t, th), [Move(t, c)] + rest)
  {
    assert ([Move(t, c)] + rest)[1..] == rest;
    assert Step(At(s, m, t, th), t, c) == At(s, m', t, th');
    RoomAt(s, t, k, readCap, writeCap, m, th);
  }

  function Go3(t: Tid, c: Choice, rest: seq<Move>): seq<Move> {
    [Move(t, c)] + ([Move(t, Go)] + ([Move(t, Go)] + ([Move(t, Go)] + rest)))
  }

  function Go4(t: Tid, c: Choice, rest: seq<Move>): seq<Move> {
    [Move(t, c)] + ([Move(t, Go)] + ([Move(t, Go)] + ([Move(t, Go)] + ([Move(t, Go)] + rest))))
  }

  /** From s to s' by those moves, within the caps and in order if the rest is. */
  predicate Leads(s: State, moves: seq<Move>, s': State, rest: seq<Move>, readCap: nat, writeCap: nat) {
    && Exec(s, moves) == Exec(s', rest)
    && (RunWithin(s', rest, readCap, writeCap) ==> RunWithin(s, moves, readCap, writeCap))
    && (OrderedRun(s', rest) ==> OrderedRun(s, moves))
  }

  /** A thread takes the empty word for writing. */
  lemma TakesEmpty(s: State, t: Tid, readCap: nat, writeCap: nat, count: nat, rest: seq<Move>)
    requires Room(s, t, 0, readCap, writeCap) && t + 1 <= HALF && writeCap >= 1
    ensures Leads(At(s, Mem(0, count), t, Thread(Idle, 0, 0)), Go4(t, CallWriteLock, rest),
                  At(s, Mem(Desired(t + 1), (count + 1) % HALF), t, Thread(Idle, 1, 0)), rest, readCap, writeCap)
  {
    var r4 := [Move(t, Go)] + rest;
    var r3 := [Move(t, Go)] + r4;
    var r2 := [Move(t, Go)] + r3;
    var r1 := [Move(t, Go)] + r2;
    var m0 := Mem(0, count);
    var m1 := Mem(Desired(t + 1), count);
    var m2 := m1.(writeCount := (count + 1) % HALF);
    One(s, t, 0, readCap, writeCap, m0, Thread(Idle, 0, 0), CallWriteLock, m0, Thread(WriteTest, 0, 0), r1);
    One(s, t, 0, readCap, writeCap, m0, Thread(WriteTest, 0, 0), Go, m0, Thread(WriteSpin, 0, 0), r2);
    One(s, t, 0, readCap, writeCap, m0, Thread(WriteSpin, 0, 0), Go, m1, Thread(CountUp, 0, 0), r3);
    One(s, t, 0, readCap, writeCap, m1, Thread(CountUp, 0, 0), Go, m1, Thread(CountUpStore(count), 0, 0), r4);
    One(s, t, 0, readCap, writeCap, m1, Thread(CountUpStore(count), 0, 0), Go, m2, Thread(Idle, 1, 0), rest);
  }

  /** A thread whose id is in the word takes the lock once more for writing. */
  lemma TakesOwn(s: State, t: Tid, readCap: nat, writeCap: nat, flag: nat, count: nat, w: nat, rest: seq<Move>)
    requires Room(s, t, 0, readCap, writeCap) && Owner(flag) == t + 1 && w < writeCap
    ensures Leads(At(s, Mem(flag, count), t, Thread(Idle, w, 0)), Go3(t, CallWriteLock, rest),
                  At(s, Mem(flag, (count + 1) % HALF), t, Thread(Idle, w + 1, 0)), rest, readCap, writeCap)
  {
    var r3 := [Move(t, Go)] + rest;
    var r2 := [Move(t, Go)] + r3;
    var r1 := [Move(t, Go)] + r2;
    var m := Mem(flag, count);
    var m' := Mem(flag, (count + 1) % HALF);
    One(s, t, 0, readCap, writeCap, m, Thread(Idle, w, 0), CallWriteLock, m, Thread(WriteTest, w, 0), r1);
    One(s, t, 0, readCap, writeCap, m, Thread(WriteTest, w, 0), Go, m, Thread(CountUp, w, 0), r2);
    One(s, t, 0, readCap, writeCap, m, Thread(CountUp, w, 0), Go, m, Thread(CountUpStore(count), w, 0), r3);
    One(s, t, 0, readCap, writeCap, m, Thread(CountUpStore(count), w, 0), Go, m', Thread(Idle, w + 1, 0), rest);
  }

  /** A thread takes the lock for reading when the word shows no owner. */
  lemma TakesRead(s: State, t: Tid, readCap: nat, writeCap: nat, j: nat, count: nat, rest: seq<Move>)
    requires Room(s, t, j + 1, readCap, writeCap) && j < HALF
    ensures Leads(At(s, Mem(j, count), t, Thread(Idle, 0, j)), Go3(t, CallReadLock, rest),
                  At(s, Mem(j + 1, count), t, Thread(Idle, 0, j + 1)), rest, readCap, writeCap)
  {
    var r2 := [Move(t, Go)] + ([Move(t, Go)] + rest);
    var m := Mem(j, count);
    var r1 := [Move(t, Go)] + r2;
    One(s, t, j + 1, readCap, writeCap, m, Thread(Idle, 0, j), CallReadLock, m, Thread(ReadTest, 0, j), r1);
    One(s, t, j + 1, readCap, writeCap, m, Thread(ReadTest, 0, j), Go, m, Thread(ReadLoad, 0, j), r2);
    WinsRead(s, t, readCap, writeCap, j, count, rest);
  }

  lemma WinsRead(s: State, t: Tid, readCap: nat, writeCap: nat, j: nat, count: nat, rest: seq<Move>)
    requires Room(s, t, j + 1, readCap, writeCap) && j < HALF
    ensures Leads(At(s, Mem(j, count), t, Thread(ReadLoad, 0, j)), [Move(t, Go)] + ([Move(t, Go)] + rest),
                  At(s, Mem(j + 1, count), t, Thread(Idle, 0, j + 1)), rest, readCap, writeCap)
  {
    var r3 := [Move(t, Go)] + rest;
    var m, m' := Mem(j, count), Mem(j + 1, count);
    One(s, t, j + 1, readCap, writeCap, m, Thread(ReadLoad, 0, j), Go, m, Thread(ReadCas(j), 0, j), r3);
    One(s, t, j + 1, readCap, writeCap, m, Thread(ReadCas(j), 0, j), Go, m', Thread(Idle, 0, j + 1), rest);
  }

  /** The same call, k times by thread t. */
  function Repeat(t: Tid, c: Choice, k: nat, rest: seq<Move>): seq<Move> {
    if k == 0 then rest else Go3(t, c, Repeat(t, c, k - 1, rest))
  }

  lemma {:induction false} TakesReads(s: State, t: Tid, readCap: nat, writeCap: nat, j: nat, k: nat, rest: seq<Move>)
    requires Room(s, t, j + k, readCap, writeCap) && j + k <= HALF
    ensures Leads(At(s, Mem(j, 0), t, Thread(Idle, 0, j)), Repeat(t, CallReadLock, k, rest),
                  At(s, Mem(j + k, 0), t, Thread(Idle, 0, j + k)), rest, readCap, writeCap)
    decreases k
  {
    if k > 0 {
      TakesRead(s, t, readCap, writeCap, j, 0, Repeat(t, CallReadLock, k - 1, rest));
      TakesReads(s, t, readCap, writeCap, j + 1, k - 1, rest);
    }
  }

  lemma {:induction false} TakesWrites(s: State, readCap: nat, writeCap: nat, j: nat, k: nat, rest: seq<Move>)
    requires Room(s, 1, 0, readCap, writeCap) && j + k <= writeCap
    ensures Leads(At(s, Mem(Desired(2), j % HALF), 1, Thread(Idle, j, 0)), Repeat(1, CallWriteLock, k, rest),
                  At(s, Mem(Desired(2), (j + k) % HALF), 1, Thread(Idle, j + k, 0)), rest, readCap, writeCap)
    decreases k
  {
    if k > 0 {
      TakesOwn(s, 1, readCap, writeCap, Desired(2), j % HALF, j, Repeat(1, CallWriteLock, k - 1, rest));
      TakesWrites(s, readCap, writeCap, j + 1, k - 1, rest);
    }
  }

  // ----- a run that fails beyond each bound -----

  /** The state every run starts from. */
  predicate AllIdle(s: State) {
    s.m == Mem(0, 0) && forall t :: 0 <= t < |s.ths| ==> s.ths[t] == Thread(Idle, 0, 0)
  }

  /** A run within the caps ends in a state that is not exclusive. */
  ghost predicate Fails(s: State, readCap: nat, writeCap: nat) {
    exists moves :: RunWithin(s, moves, readCap, writeCap) && !Exclusive(Exec(s, moves))
  }

  ghost predicate AlwaysExclusive(s: State, readCap: nat, writeCap: nat) {
    forall moves :: RunWithin(s, moves, readCap, writeCap) ==> Exclusive(Exec(s, moves))
  }

  lemma NotAlways(s: State, readCap: nat, writeCap: nat)
    requires Fails(s, readCap, writeCap)
    ensures !AlwaysExclusive(s, readCap, writeCap)
  {
  }

  lemma FailsAt(s: State, moves: seq<Move>, e: State, readCap: nat, writeCap: nat)
    requires Leads(s, moves, e, [], readCap, writeCap) && Within(e, readCap, writeCap) && !Exclusive(e)
    ensures Fails(s, readCap, writeCap)
  {
    assert Exec(e, []) == e && RunWithin(e, [], readCap, writeCap);
  }

  /** Thread 0 takes the empty word while another thread holds the lock for writing. */
  lemma SecondWriter(s: State, t: Tid, count: nat, readCap: nat, writeCap: nat)
    requires 0 < t < |s.ths| && Room(s, 0, 0, readCap, writeCap) && writeCap >= 1
    requires s.m == Mem(0, count) && s.ths[0] == Thread(Idle, 0, 0) && s.ths[t].w > 0
    ensures var e := At(s, Mem(Desired(1), (count + 1) % HALF), 0, Thread(Idle, 1, 0));
            && Leads(s, Go4(0, CallWriteLock, []), e, [], readCap, writeCap)
            && Within(e, readCap, writeCap) && !Exclusive(e)
  {
    assert s == At(s, Mem(0, count), 0, Thread(Idle, 0, 0));
    TakesEmpty(s, 0, readCap, writeCap, count, []);
    var e := At(s, Mem(Desired(1), (count + 1) % HALF), 0, Thread(Idle, 1, 0));
    RoomAt(s, 0, 0, readCap, writeCap, e.m, Thread(Idle, 1, 0));
    assert e.ths[t].w > 0 && e.ths[0].w == 1;
  }

  /** After thread t has moved alone, thread 0 is as it was and has room for a write lock. */
  lemma OthersIdle(s: State, t: Tid, m: Mem, th: Thread, readCap: nat, writeCap: nat)
    requires AllIdle(s) && 0 < t < |s.ths| && Registered(th) <= readCap && th.w <= writeCap
    ensures var s1 := At(s, m, t, th);
            && s1.ths[0] == Thread(Idle, 0, 0) && s1.ths[t] == th && s1.m == m && |s1.ths| == |s.ths|
            && Room(s1, 0, 0, readCap, writeCap) && AllReads(s1.ths) == Registered(th)
  {
    ReadsNone(s.ths);
    ReadsUpdate(s.ths, t, th);
  }

  /** Thread 65536 stores an empty word when it takes the lock, so another thread can take it too. */
  lemma IdTooLarge(s: State, readCap: nat, writeCap: nat)
    requires AllIdle(s) && |s.ths| >= HALF && writeCap >= 1
    ensures Fails(s, readCap, writeCap)
  {
    var t := HALF - 1;
    var rest := Go4(0, CallWriteLock, []);
    LastWriter(s, t, readCap, writeCap, rest);
    OthersIdle(s, t, Mem(0, 1), Thread(Idle, 1, 0), readCap, writeCap);
    var s1 := At(s, Mem(0, 1), t, Thread(Idle, 1, 0));
    SecondWriter(s1, t, 1, readCap, writeCap);
    FailsAt(s, Go4(t, CallWriteLock, rest), At(s1, Mem(Desired(1), 2), 0, Thread(Idle, 1, 0)), readCap, writeCap);
  }

  lemma LastWriter(s: State, t: Tid, readCap: nat, writeCap: nat, rest: seq<Move>)
    requires AllIdle(s) && t == HALF - 1 < |s.ths| && writeCap >= 1
    ensures Leads(s, Go4(t, CallWriteLock, rest), At(s, Mem(0, 1), t, Thread(Idle, 1, 0)), rest, readCap, writeCap)
  {
    ReadsNone(s.ths);
    assert s == At(s, Mem(0, 0), t, Thread(Idle, 0, 0));
    TakesEmpty(s, t, readCap, writeCap, 0, rest);
  }

  /** 65536 read holds of thread 1 look like ownership by thread 0. */
  lemma FalseOwner(s: State, readCap: nat, writeCap: nat)
    requires |s.ths| >= 2 && Room(s, 0, 0, readCap, writeCap) && writeCap >= 1
    requires s.m == Mem(HALF, 0) && s.ths[0] == Thread(Idle, 0, 0) && s.ths[1].r == HALF
    ensures var e := At(s, Mem(HALF, 1), 0, Thread(Idle, 1, 0));
            && Leads(s, Go3(0, CallWriteLock, []), e, [], readCap, writeCap)
            && Within(e, readCap, writeCap) && AllReads(e.ths) == AllReads(s.ths) && !Exclusive(e)
  {
    assert s == At(s, Mem(HALF, 0), 0, Thread(Idle, 0, 0));
    TakesOwn(s, 0, readCap, writeCap, HALF, 0, 0, []);
    var e := At(s, Mem(HALF, 1), 0, Thread(Idle, 1, 0));
    RoomAt(s, 0, 0, readCap, writeCap, e.m, Thread(Idle, 1, 0));
    ReadsUpdate(s.ths, 0, Thread(Idle, 1, 0));
    assert e.ths[0].w == 1 && e.ths[1].r == HALF;
  }

  /** The 65536th simultaneous read hold carries into the owner bits: the thread with id 1 then takes
      the lock for writing while all of them are held. */
  lemma TooManyReads(s: State, readCap: nat, writeCap: nat)
    requires AllIdle(s) && |s.ths| >= 2 && readCap >= HALF && writeCap >= 1
    ensures Fails(s, readCap, writeCap)
    ensures exists moves ::
              && RunWithin(s, moves, readCap, writeCap)
              && AllReads(Exec(s, moves).ths) == HALF && !Exclusive(Exec(s, moves))
  {
    var rest := Go3(0, CallWriteLock, []);
    var moves := Repeat(1, CallReadLock, HALF, rest);
    ReadsTaken(s, readCap, writeCap, rest);
    var s1 := At(s, Mem(HALF, 0), 1, Thread(Idle, 0, HALF));
    OthersIdle(s, 1, Mem(HALF, 0), Thread(Idle, 0, HALF), readCap, writeCap);
    FalseOwner(s1, readCap, writeCap);
    var e := At(s1, Mem(HALF, 1), 0, Thread(Idle, 1, 0));
    assert Exec(e, []) == e && RunWithin(e, [], readCap, writeCap);
    assert RunWithin(s, moves, readCap, writeCap) && Exec(s, moves) == e;
  }

  lemma ReadsTaken(s: State, readCap: nat, writeCap: nat, rest: seq<Move>)
    requires AllIdle(s) && |s.ths| >= 2 && readCap >= HALF
    ensures Leads(s, Repeat(1, CallReadLock, HALF, rest), At(s, Mem(HALF, 0), 1, Thread(Idle, 0, HALF)), rest,
                  readCap, writeCap)
  {
    ReadsNone(s.ths);
    assert s == At(s, Mem(0, 0), 1, Thread(Idle, 0, 0));
    TakesReads(s, 1, readCap, writeCap, 0, HALF, rest);
  }

  /** A nesting of 65537 shows in _writeCount as 1: the first unlock empties the word with 65536 holds
      left, and another thread takes it. No thread reads. */
  lemma TooDeep(s: State, readCap: nat, writeCap: nat)
    requires AllIdle(s) && |s.ths| >= 2 && writeCap > HALF
    ensures Fails(s, readCap, writeCap)
  {
    var rest := Go4(0, CallWriteLock, []);
    var moves := Emptied(s, readCap, writeCap, rest);
    OthersIdle(s, 1, Mem(0, 0), Thread(Idle, HALF, 0), readCap, writeCap);
    var s1 := At(s, Mem(0, 0), 1, Thread(Idle, HALF, 0));
    SecondWriter(s1, 1, 0, readCap, writeCap);
    FailsAt(s, moves, At(s1, Mem(Desired(1), 1), 0, Thread(Idle, 1, 0)), readCap, writeCap);
  }

  lemma Emptied(s: State, readCap: nat, writeCap: nat, rest: seq<Move>) returns (moves: seq<Move>)
    requires AllIdle(s) && |s.ths| >= 2 && writeCap > HALF
    ensures Leads(s, moves, At(s, Mem(0, 0), 1, Thread(Idle, HALF, 0)), rest, readCap, writeCap)
  {
    ReadsNone(s.ths);
    var unlock := Go4(1, CallWriteUnlock, rest);
    var nest := Repeat(1, CallWriteLock, HALF, unlock);
    moves := Go4(1, CallWriteLock, nest);
    assert s == At(s, Mem(0, 0), 1, Thread(Idle, 0, 0));
    TakesEmpty(s, 1, readCap, writeCap, 0, nest);
    TakesWrites(s, readCap, writeCap, 1, HALF, unlock);
    UnlocksEarly(s, readCap, writeCap, rest);
  }

  lemma UnlocksEarly(s: State, readCap: nat, writeCap: nat, rest: seq<Move>)
    requires Room(s, 1, 0, readCap, writeCap) && writeCap > HALF
    ensures Leads(At(s, Mem(Desired(2), 1), 1, Thread(Idle, HALF + 1, 0)), Go4(1, CallWriteUnlock, rest),
                  At(s, Mem(0, 0), 1, Thread(Idle, HALF, 0)), rest, readCap, writeCap)
  {
    var r3 := [Move(1, Go)] + ([Move(1, Go)] + rest);
    var r2 := [Move(1, Go)] + r3;
    var r1 := [Move(1, Go)] + r2;
    var m := Mem(Desired(2), 1);
    var h := HALF;
    One(s, 1, 0, readCap, writeCap, m, Thread(Idle, h + 1, 0), CallWriteUnlock, m, Thread(UnlockTest, h, 0), r1);
    One(s, 1, 0, readCap, writeCap, m, Thread(UnlockTest, h, 0), Go, m, Thread(CountDown, h, 0), r2);
    One(s, 1, 0, readCap, writeCap, m, Thread(CountDown, h, 0), Go, m, Thread(CountDownStore(1), h, 0), r3);
    ClearsEarly(s, readCap, writeCap, rest);
  }

  lemma ClearsEarly(s: State, readCap: nat, writeCap: nat, rest: seq<Move>)
    requires Room(s, 1, 0, readCap, writeCap) && writeCap > HALF
    ensures Leads(At(s, Mem(Desired(2), 1), 1, Thread(CountDownStore(1), HALF, 0)),
                  [Move(1, Go)] + ([Move(1, Go)] + rest),
                  At(s, Mem(0, 0), 1, Thread(Idle, HALF, 0)), rest, readCap, writeCap)
  {
    var r4 := [Move(1, Go)] + rest;
    var m, m0 := Mem(Desired(2), 1), Mem(Desired(2), 0);
    var h := HALF;
    One(s, 1, 0, readCap, writeCap, m, Thread(CountDownStore(1), h, 0), Go, m0, Thread(Clear, h, 0), r4);
    One(s, 1, 0, readCap, writeCap, m0, Thread(Clear, h, 0), Go, Mem(0, 0), Thread(Idle, h, 0), rest);
  }

  // ----- the exact bounds -----

  lemma {:induction false} WiderCaps(s: State, moves: seq<Move>, readCap: nat, writeCap: nat,
                                     readCap': nat, writeCap': nat)
    requires RunWithin(s, moves, readCap, writeCap) && readCap <= readCap' && writeCap <= writeCap'
    ensures RunWithin(s, moves, readCap', writeCap')
    decreases |moves|
  {
    if moves != [] {
      var s' := if moves[0].t < |s.ths| then Step(s, moves[0].t, moves[0].c) else s;
      WiderCaps(s', moves[1..], readCap, writeCap, readCap', writeCap');
    }
  }

  /** Nobody writes, or there is nobody else. */
  lemma {:induction false} Trivially(s: State, moves: seq<Move>, readCap: nat, writeCap: nat)
    requires RunWithin(s, moves, readCap, writeCap) && (|s.ths| <= 1 || writeCap == 0)
    ensures Exclusive(Exec(s, moves))
    decreases |moves|
  {
    if moves != [] {
      var s' := if moves[0].t < |s.ths| then Step(s, moves[0].t, moves[0].c) else s;
      Trivially(s', moves[1..], readCap, writeCap);
    }
  }

  /** Of n threads, every run with at most readCap read holds at a time and write locks nested at most
      writeCap deep keeps writers exclusive, if and only if the ids and the read count fit 16 bits and the
      nesting is at most 65536 -- or there is no second thread or no writer at all. */
  lemma ExclusiveIff(n: nat, readCap: nat, writeCap: nat)
    ensures AlwaysExclusive(Init(n), readCap, writeCap)
            <==> n <= 1 || writeCap == 0 || (n < 65536 && readCap < 65536 && writeCap <= 65536)
  {
    var s := Init(n);
    if n <= 1 || writeCap == 0 {
      forall moves | RunWithin(s, moves, readCap, writeCap) ensures Exclusive(Exec(s, moves)) {
        Trivially(s, moves, readCap, writeCap);
      }
    } else if n < HALF && readCap < HALF && writeCap <= HALF {
      forall moves | RunWithin(s, moves, readCap, writeCap) ensures Exclusive(Exec(s, moves)) {
        WiderCaps(s, moves, readCap, writeCap, HALF - 1, HALF);
        Exclusion(n, moves);
      }
    } else {
      if n >= HALF {
        IdTooLarge(s, readCap, writeCap);
      } else if readCap >= HALF {
        TooManyReads(s, readCap, writeCap);
      } else {
        TooDeep(s, readCap, writeCap);
      }
      NotAlways(s, readCap, writeCap);
    }
  }

  // ----- the crashes of the unlock calls -----

  predicate Crashes(s: State) {
    exists t :: 0 <= t < |s.ths| && s.ths[t].pc.Crashed?
  }

  ghost predicate CrashesWithin(s: State, readCap: nat, writeCap: nat) {
    exists moves :: RunWithin(s, moves, readCap, writeCap) && OrderedRun(s, moves) && Crashes(Exec(s, moves))
  }

  lemma CrashesAt(s: State, moves: seq<Move>, e: State, readCap: nat, writeCap: nat)
    requires Leads(s, moves, e, [], readCap, writeCap) && Within(e, readCap, writeCap) && Crashes(e)
    ensures CrashesWithin(s, readCap, writeCap)
  {
    assert Exec(e, []) == e && RunWithin(e, [], readCap, writeCap) && OrderedRun(e, []);
  }

  predicate Unlocking(pc: PC) {
    pc.UnlockTest? || pc.CountDown? || pc.CountDownStore? || pc.Clear?
  }

  /** Without readers, without writers, or with one thread, whatever the ids and the nesting are: the low
      half counts the read holds, and nobody unlocks for writing while somebody reads. */
  predicate Counts(s: State, writeCap: nat) {
    && s.m.flag < WORD && Reads(s.m.flag) == AllReads(s.ths)
    && forall t :: 0 <= t < |s.ths| ==>
         !s.ths[t].pc.Crashed? && (Unlocking(s.ths[t].pc) ==> AllReads(s.ths) == 0 && writeCap > 0)
  }

  /** What a step does to the count: th is the thread, all the read holds that the word counts. */
  predicate Counted(m: Mem, th: Thread, all: nat, m': Mem, th': Thread) {
    && m'.flag < WORD && Reads(m'.flag) == all - Registered(th) + Registered(th') && !th'.pc.Crashed?
    && (Unlocking(th'.pc) ==> Unlocking(th.pc) || (th.pc.Idle? && th.w > 0 && th.r == 0))
  }

  predicate Countable(m: Mem, id: nat, th: Thread, c: Choice, all: nat) {
    && m.flag < WORD && Reads(m.flag) == all && Registered(th) <= all && !th.pc.Crashed?
    && (Unlocking(th.pc) ==> all == 0)
    && all + Registered(Act(m, id, th, c).1) < HALF + Registered(th) && Orderly(th, c)
  }

  lemma CountsAct(m: Mem, id: nat, th: Thread, c: Choice, all: nat)
    requires Countable(m, id, th, c, all)
    ensures var (m', th') := Act(m, id, th, c); Counted(m, th, all, m', th')
  {
    if th.pc.ReadSelf? || th.pc.ReadCas? || th.pc.ReadSub? {
      CountsRead(m, id, th, c, all);
    } else if th.pc.WriteSpin? {
      Packed(Desired(id), id % HALF, 0);
    } else {
      CountsPlain(m, id, th, c, all);
    }
  }

  lemma CountsRead(m: Mem, id: nat, th: Thread, c: Choice, all: nat)
    requires Countable(m, id, th, c, all) && (th.pc.ReadSelf? || th.pc.ReadCas? || th.pc.ReadSub?)
    ensures var (m', th') := Act(m, id, th, c); Counted(m, th, all, m', th')
  {
    assert m.flag == Owner(m.flag) * HALF + all;
    if th.pc.ReadSub? {
      Packed(Act(m, id, th, c).0.flag, Owner(m.flag), all - 1);
    } else if th.pc.ReadSelf? || m.flag == th.pc.expected {
      Packed(Act(m, id, th, c).0.flag, Owner(m.flag), all + 1);
    }
  }

  lemma CountsPlain(m: Mem, id: nat, th: Thread, c: Choice, all: nat)
    requires Countable(m, id, th, c, all)
    requires !(th.pc.ReadSelf? || th.pc.ReadCas? || th.pc.ReadSub? || th.pc.WriteSpin?)
    ensures var (m', th') := Act(m, id, th, c); Counted(m, th, all, m', th')
  {
    assert th.pc.Clear? || Act(m, id, th, c).0.flag == m.flag;
  }

  lemma CountsStep(s: State, t: Tid, c: Choice, readCap: nat, writeCap: nat)
    requires t < |s.ths| && Counts(s, writeCap) && readCap < HALF && (readCap == 0 || writeCap == 0 || |s.ths| == 1)
    requires Within(s, readCap, writeCap) && Within(Step(s, t, c), readCap, writeCap) && Orderly(s.ths[t], c)
    ensures Counts(Step(s, t, c), writeCap)
  {
    var s' := Step(s, t, c);
    ReadsUpdate(s.ths, t, s'.ths[t]);
    if |s.ths| == 1 {
      ReadsOnly(s.ths, t);
      ReadsOnly(s'.ths, t);
    }
    CountsAct(s.m, t + 1, s.ths[t], c, AllReads(s.ths));
  }

  lemma {:induction false} CountsRun(s: State, moves: seq<Move>, readCap: nat, writeCap: nat)
    requires Counts(s, writeCap) && readCap < HALF && (readCap == 0 || writeCap == 0 || |s.ths| == 1)
    requires RunWithin(s, moves, readCap, writeCap) && OrderedRun(s, moves)
    ensures !Crashes(Exec(s, moves))
    decreases |moves|
  {
    if moves != [] {
      var t := moves[0].t;
      var s' := if t < |s.ths| then Step(s, t, moves[0].c) else s;
      assert RunWithin(s', moves[1..], readCap, writeCap);
      if t < |s.ths| { CountsStep(s, t, moves[0].c, readCap, writeCap); }
      CountsRun(s', moves[1..], readCap, writeCap);
    }
  }

  /** 65536 read holds count as none: the first of them to be released is a MULTIPLE_UNLOCK. */
  lemma ReadsCrash(s: State, readCap: nat, writeCap: nat)
    requires AllIdle(s) && |s.ths| >= 1 && readCap >= HALF
    ensures CrashesWithin(s, readCap, writeCap)
  {
    ReadsNone(s.ths);
    var r1 := [Move(0, Go)] + [];
    var rest := [Move(0, CallReadUnlock)] + r1;
    var h := HALF;
    assert s == At(s, Mem(0, 0), 0, Thread(Idle, 0, 0));
    TakesReads(s, 0, readCap, writeCap, 0, h, rest);
    var m, m' := Mem(h, 0), Mem(h - 1, 0);
    One(s, 0, h, readCap, writeCap, m, Thread(Idle, 0, h), CallReadUnlock, m, Thread(ReadSub, 0, h - 1), r1);
    One(s, 0, h, readCap, writeCap, m, Thread(ReadSub, 0, h - 1), Go, m', Thread(Crashed, 0, h - 1), []);
    var e := At(s, m', 0, Thread(Crashed, 0, h - 1));
    RoomAt(s, 0, h, readCap, writeCap, m', Thread(Crashed, 0, h - 1));
    assert e.ths[0].pc.Crashed?;
    CrashesAt(s, Repeat(0, CallReadLock, h, rest), e, readCap, writeCap);
  }

  /** Thread t holds the lock for writing and the word is empty: thread 0 may read, and t's unlock is then
      an INVALID_UNLOCK_ORDER. */
  lemma UnlockCrashes(s: State, t: Tid, count: nat, readCap: nat, writeCap: nat) returns (moves: seq<Move>, e: State)
    requires 0 < t < |s.ths| && Room(s, 0, 1, readCap, writeCap)
    requires s.m == Mem(0, count) && s.ths[0] == Thread(Idle, 0, 0)
    requires s.ths[t].pc.Idle? && s.ths[t].w > 0 && s.ths[t].r == 0 && s.ths[t].w <= writeCap
    ensures Leads(s, moves, e, [], readCap, writeCap) && Within(e, readCap, writeCap) && Crashes(e)
  {
    var w := s.ths[t].w;
    var r1 := [Move(t, Go)] + [];
    var rest := [Move(t, CallWriteUnlock)] + r1;
    moves := Go3(0, CallReadLock, rest);
    assert s == At(s, Mem(0, count), 0, Thread(Idle, 0, 0));
    TakesRead(s, 0, readCap, writeCap, 0, count, rest);
    var m := Mem(1, count);
    var s1 := At(s, m, 0, Thread(Idle, 0, 1));
    ReadsUpdate(s.ths, 0, Thread(Idle, 0, 1));
    assert s1 == At(s1, m, t, Thread(Idle, w, 0));
    One(s1, t, 0, readCap, writeCap, m, Thread(Idle, w, 0), CallWriteUnlock, m, Thread(UnlockTest, w - 1, 0), r1);
    One(s1, t, 0, readCap, writeCap, m, Thread(UnlockTest, w - 1, 0), Go, m, Thread(Crashed, w - 1, 0), []);
    e := At(s1, m, t, Thread(Crashed, w - 1, 0));
    RoomAt(s1, t, 0, readCap, writeCap, m, Thread(Crashed, w - 1, 0));
    assert e.ths[t].pc.Crashed?;
  }

  lemma LastWriterCrashes(s: State, readCap: nat, writeCap: nat)
    requires AllIdle(s) && |s.ths| >= HALF && readCap >= 1 && writeCap >= 1
    ensures CrashesWithin(s, readCap, writeCap)
  {
    var t := HALF - 1;
    OthersIdle(s, t, Mem(0, 1), Thread(Idle, 1, 0), readCap, writeCap);
    var s1 := At(s, Mem(0, 1), t, Thread(Idle, 1, 0));
    var rest, e := UnlockCrashes(s1, t, 1, readCap, writeCap);
    LastWriter(s, t, readCap, writeCap, rest);
    CrashesAt(s, Go4(t, CallWriteLock, rest), e, readCap, writeCap);
  }

  lemma DeepWriterCrashes(s: State, readCap: nat, writeCap: nat)
    requires AllIdle(s) && |s.ths| >= 2 && readCap >= 1 && writeCap > HALF
    ensures CrashesWithin(s, readCap, writeCap)
  {
    OthersIdle(s, 1, Mem(0, 0), Thread(Idle, HALF, 0), readCap, writeCap);
    var s1 := At(s, Mem(0, 0), 1, Thread(Idle, HALF, 0));
    var rest, e := UnlockCrashes(s1, 1, 0, readCap, writeCap);
    var moves := Emptied(s, readCap, writeCap, rest);
    CrashesAt(s, moves, e, readCap, writeCap);
  }

  /** Exactly when no run of n threads within the caps reaches INVALID_UNLOCK_ORDER or MULTIPLE_UNLOCK, as long
      as nobody unlocks for writing while he reads. */
  lemma NeverCrashesIff(n: nat, readCap: nat, writeCap: nat)
    ensures !CrashesWithin(Init(n), readCap, writeCap)
            <==> n == 0 || readCap == 0
                 || (readCap < 65536 && (writeCap == 0 || n == 1 || (n < 65536 && writeCap <= 65536)))
  {
    var s := Init(n);
    ReadsNone(s.ths);
    if n == 0 || readCap == 0 || (readCap < HALF && (writeCap == 0 || n == 1)) {
      forall moves | RunWithin(s, moves, readCap, writeCap) && OrderedRun(s, moves) ensures !Crashes(Exec(s, moves)) {
        if n == 0 { Nobody(s, moves); } else { CountsRun(s, moves, readCap, writeCap); }
      }
    } else if n < HALF && readCap < HALF && writeCap <= HALF {
      forall moves | RunWithin(s, moves, readCap, writeCap) && OrderedRun(s, moves) ensures !Crashes(Exec(s, moves)) {
        WiderCaps(s, moves, readCap, writeCap, HALF - 1, HALF);
        forall t: nat | t < |Exec(s, moves).ths| ensures !Exec(s, moves).ths[t].pc.Crashed? {
          NeverCrashes(n, moves, t);
        }
      }
    } else if readCap >= HALF {
      ReadsCrash(s, readCap, writeCap);
    } else if n >= HALF {
      LastWriterCrashes(s, readCap, writeCap);
    } else {
      DeepWriterCrashes(s, readCap, writeCap);
    }
  }

  lemma {:induction false} Nobody(s: State, moves: seq<Move>)
    requires s.ths == []
    ensures Exec(s, moves).ths == []
    decreases |moves|
  {
    if moves != [] { Nobody(s, moves[1..]); }
  }
}
