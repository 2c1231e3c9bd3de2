/** When job queues come to a delete in Pop that is not safe: as soon as there are two threads and a queue. */
module UnsafeDelete {
  import opened Wrappers
  import opened MpscQueue
  import opened JobQueue
  import opened Tails

  /** Every run is careful. */
  ghost predicate AlwaysCareful(s: State) {
    forall moves :: Careful(s, moves)
  }

  /** Every delete of every run is safe, exactly when there is no queue or no second thread. */
  lemma AlwaysCarefulIff(queues: nat, threads: nat)
    ensures AlwaysCareful(Init(queues, threads)) <==> queues == 0 || threads <= 1
  {
    if queues == 0 || threads <= 1 {
      InitLone(queues, threads);
      forall moves ensures Careful(Init(queues, threads), moves) {
        LoneRun(Init(queues, threads), InitGhost(queues), moves);
      }
    } else {
      var before := UnsafeDelete(Init(queues, threads));
      var go := Move(0, Go(0, false));
      if Careful(Init(queues, threads), before + [go]) {
        CarefulParts(Init(queues, threads), before, [go]);
        assert false;
      }
    }
  }

  /** No thread ever follows a pointer to a deleted node. */
  ghost predicate NobodyFaults(s: State) {
    forall moves, t :: 0 <= t < |Exec(s, moves).ths| ==> !Faulted(Exec(s, moves).ths[t])
  }

  /** Which is exactly when no thread ever follows a deleted node. */
  lemma NobodyFaultsIff(queues: nat, threads: nat)
    ensures NobodyFaults(Init(queues, threads)) <==> queues == 0 || threads <= 1
  {
    if queues == 0 || threads <= 1 {
      AlwaysCarefulIff(queues, threads);
      forall moves, t | 0 <= t < |Exec(Init(queues, threads), moves).ths|
        ensures !Faulted(Exec(Init(queues, threads), moves).ths[t])
      {
        NeverFaults(queues, threads, moves);
      }
    } else {
      var before := UnsafeDelete(Init(queues, threads));
      var moves := before + [Move(0, Go(0, false)), Move(1, Go(0, false))];
      assert Faulted(Exec(Init(queues, threads), moves).ths[1]);
    }
  }

  // ----- one thread -----

  ghost predicate AtEnd(q: Queue, g: Trail) {
    InList(g, q.tail) && g.pos[q.tail] + 1 == |g.order|
  }

  /** A producer that nobody disturbs finds _tail at the end. */
  ghost predicate LonePC(q: Queue, g: Trail, pc: LinkPC) {
    match pc
    case LoadTail => AtEnd(q, g)
    case LoadNext(p) => AtEnd(q, g) && p == q.tail
    case LinkCas(p) => AtEnd(q, g) && p == q.tail
    case HelpCas(_, _) => false
    case SwingTail(p) => InList(g, p) && p == q.tail && g.pos[p] + 2 == |g.order|
    case LinkDone => AtEnd(q, g)
    case LinkFault => false
  }

  ghost predicate LoneQueue(s: State, g: seq<Ghost>, q: Qid)
    requires q < |g| == |s.m.slots|
  {
    if s.ths != [] && s.ths[0].push.Linking? && s.ths[0].push.call.q == q
    then LonePC(s.m.slots[q].jobs, g[q].trail, s.ths[0].push.pc)
    else AtEnd(s.m.slots[q].jobs, g[q].trail)
  }

  ghost predicate LoneInv(s: State, g: seq<Ghost>) {
    Inv(s, g) && |s.ths| <= 1 && forall q: nat :: q < |g| ==> LoneQueue(s, g, q)
  }

  lemma InitLone(queues: nat, threads: nat)
    ensures Inv(Init(queues, threads), InitGhost(queues))
    ensures threads <= 1 ==> LoneInv(Init(queues, threads), InitGhost(queues))
  {
    InitHolds(queues, threads);
  }

  lemma LoneLink(q: Queue, g: Trail, node: Ptr, job: Job, pc: LinkPC)
    requires ListInv(q, g) && Producer(q, g, node, job, pc) && LonePC(q, g, pc)
    ensures LonePC(LinkAct(q, node, pc).0, LinkTrack(q, g, node, job, pc), LinkAct(q, node, pc).1)
  {
    ListNode(q, g, q.tail);
  }

  lemma LoneStep(s: State, g: seq<Ghost>, c: Choice, q: Qid)
    requires LoneInv(s, g) && |s.ths| == 1 && q < |g|
    ensures |Step(s, 0, c).m.slots| == |Track(s, g, 0, c)| == |g| && |Step(s, 0, c).ths| == 1
    ensures LoneQueue(Step(s, 0, c), Track(s, g, 0, c), q)
  {
    var p := s.ths[0].push;
    SameLength(s, g, 0, c);
    assert LoneQueue(s, g, q);
    if p.Linking? {
      LinksOn(s, g, 0, c);
      if p.call.q == q {
        assert ThreadInv(s.m, g, 0, s.ths[0]) && SlotInv(s.m, s.ths, g[q], q);
        LoneLink(s.m.slots[q].jobs, g[q].trail, p.node, p.call.job, p.pc);
      } else {
        Untouched(s, g, 0, c, q);
      }
    } else if p.Announced? {
      AllocatesOn(s, g, 0, c);
      if p.call.q != q { Untouched(s, g, 0, c, q); }
    } else {
      NotLinking(s, 0, c);
      LoneDrain(s, g, c, q);
    }
  }

  lemma LoneDrain(s: State, g: seq<Ghost>, c: Choice, q: Qid)
    requires Inv(s, g) && |s.ths| == 1 && q < |g| && AtEnd(s.m.slots[q].jobs, g[q].trail)
    requires !s.ths[0].push.Linking? && !s.ths[0].push.Announced?
    ensures |Step(s, 0, c).m.slots| == |Track(s, g, 0, c)| == |g|
    ensures AtEnd(Step(s, 0, c).m.slots[q].jobs, Track(s, g, 0, c)[q].trail)
  {
    if DrainsNow(s, 0) && s.ths[0].exec.q == q {
      DrainsOn(s, g, 0, c);
    } else {
      Untouched(s, g, 0, c, q);
    }
  }

  lemma LoneSafe(s: State, g: seq<Ghost>, t: Tid)
    requires Inv(s, g) && t < |s.ths| && (|g| == 0 || LoneInv(s, g))
    ensures DeleteSafe(s, t)
  {
    assert ThreadInv(s.m, g, t, s.ths[t]);
    if s.ths[t].push.NoPush? && Freeing(s.ths[t].exec) {
      var q := s.ths[t].exec.q;
      assert LoneQueue(s, g, q) && SlotInv(s.m, s.ths, g[q], q);
      assert NodeOk(s.m.slots[q].jobs, g[q].trail, g[q].trail.freed);
    }
  }

  lemma {:induction false} LoneRun(s: State, g: seq<Ghost>, moves: seq<Move>)
    requires Inv(s, g) && (|g| == 0 || LoneInv(s, g))
    ensures Careful(s, moves)
    decreases |moves|
  {
    if moves != [] {
      var Move(t, c) := moves[0];
      if t < |s.ths| {
        LoneSafe(s, g, t);
        StepInv(s, g, t, c);
        SameLength(s, g, t, c);
        forall q: nat | q < |g| ensures LoneQueue(Step(s, t, c), Track(s, g, t, c), q) {
          LoneStep(s, g, c, q);
        }
        LoneRun(Step(s, t, c), Track(s, g, t, c), moves[1..]);
      } else {
        LoneRun(s, g, moves[1..]);
      }
    }
  }

  // ----- runs put together -----

  lemma {:induction false} Append(s: State, before: seq<Move>, after: seq<Move>)
    ensures Exec(s, before + after) == Exec(Exec(s, before), after)
    ensures Careful(s, before) && Careful(Exec(s, before), after) ==> Careful(s, before + after)
    decreases |before|
  {
    if before == [] {
      assert before + after == after;
    } else {
      assert (before + after)[1..] == before[1..] + after;
      var s1 := if before[0].t < |s.ths| then Step(s, before[0].t, before[0].c) else s;
      Append(s1, before[1..], after);
    }
  }

  lemma {:induction false} CarefulParts(s: State, before: seq<Move>, after: seq<Move>)
    requires Careful(s, before + after)
    ensures Careful(Exec(s, before), after)
    decreases |before|
  {
    if before == [] {
      assert before + after == after;
    } else {
      assert (before + after)[1..] == before[1..] + after;
      var s1 := if before[0].t < |s.ths| then Step(s, before[0].t, before[0].c) else s;
      CarefulParts(s1, before[1..], after);
    }
  }

  /** One move of a run; the run is careful if nothing is about to be deleted and the rest is. */
  lemma One(s: State, moves: seq<Move>, k: nat) returns (s': State)
    requires k < |moves| && moves[k].t < |s.ths| && DeleteSafe(s, moves[k].t)
    ensures s' == Step(s, moves[k].t, moves[k].c) && Exec(s, moves[k..]) == Exec(s', moves[k + 1..])
    ensures Careful(s', moves[k + 1..]) ==> Careful(s, moves[k..])
  {
    s' := Step(s, moves[k].t, moves[k].c);
    assert moves[k..][1..] == moves[k + 1..];
  }

  // ----- two threads -----

  predicate Start(s: State) {
    && |s.m.slots| >= 1 && |s.ths| >= 2 && s.m.slots[0] == Slot(0, Fresh(), 0, [])
    && s.ths[0] == s.ths[1] == Thread(None, NoExec, NoPush)
  }

  /** The state that differs from s in its first queue and its first two threads. */
  function Two(s: State, jobs: Queue, count: nat, a: Thread, b: Thread): State
    requires Start(s)
  {
    State(s.m.(slots := s.m.slots[0 := Slot(count, jobs, count, [])]), s.ths[0 := a][1 := b])
  }

  /** Thread 1 has loaded _tail when thread 0 links its job, runs the queue and takes the job. The delete is not
      safe, and thread 1 follows the deleted node next. */
  lemma UnsafeDelete(s0: State) returns (before: seq<Move>)
    requires Start(s0)
    ensures Careful(s0, before) && |Exec(s0, before).ths| == |s0.ths|
    ensures !DeleteSafe(Exec(s0, before), 0)
    ensures var s := Exec(s0, before + [Move(0, Go(0, false)), Move(1, Go(0, false))]);
            |s.ths| == |s0.ths| && Faulted(s.ths[1])
  {
    var go := Go(0, false);
    var links, s := LinksBehind(s0);
    var pops, e := Takes(s);
    before := links + pops;
    Append(s0, links, pops);
    Append(s0, before, [Move(0, go), Move(1, go)]);
    var e1 := Step(e, 0, go);
    assert [Move(0, go), Move(1, go)][1..] == [Move(1, go)] && [Move(1, go)][1..] == [];
    assert Exec(e1, [Move(1, go)]) == Step(e1, 1, go);
    assert Exec(e, [Move(0, go), Move(1, go)]) == Step(e1, 1, go);
  }

  lemma LinksBehind(s0: State) returns (moves: seq<Move>, s: State)
    requires Start(s0)
    ensures s == Exec(s0, moves) && Careful(s0, moves)
    ensures |s.m.slots| >= 1 && |s.ths| == |s0.ths|
    ensures s.m.slots[0].jobs.nodes == map[1 := Node(0, 3), 2 := Node(1, 0), 3 := Node(0, 0)]
    ensures s.m.slots[0].jobs.head == 1
    ensures s.ths[0] == Thread(Some(0), Drain(0, [], LoadHead), NoPush)
    ensures s.ths[1] == InLink(Call(0, 1, false, false), 2, LoadNext(1))
  {
    var first, s1 := LoadsTail(s0);
    var second;
    second, s := LinksAndRuns(s0, s1);
    moves := first + second;
    Append(s0, first, second);
  }

  lemma LoadsTail(s0: State) returns (moves: seq<Move>, s: State)
    requires Start(s0)
    ensures s == Exec(s0, moves) && Careful(s0, moves)
    ensures s == Two(s0, Alloc(Fresh(), 2, 1), 2, Announces0(), InLink(Call(0, 1, false, false), 2, LoadNext(1)))
  {
    moves := [Move(0, CallPush(0, false)), Move(1, CallPush(0, false)), Move(1, Go(2, false)), Move(1, Go(0, false))];
    var call := Call(0, 1, false, false);
    var b := Thread(None, NoExec, Announced(call));
    Calls(s0);
    var s1 := One(s0, moves, 0);
    var s2 := One(s1, moves, 1);
    assert s2 == Two(s0, Fresh(), 2, Announces0(), b);
    var s3 := One(s2, moves, 2);
    AllocTwo(s0, Fresh(), 2, Announces0(), b, 1, call, 2);
    s := One(s3, moves, 3);
    LinkTwo(s0, Alloc(Fresh(), 2, 1), 2, Announces0(), InLink(call, 2, LoadTail), 1, call, 2, LoadTail);
    assert moves[0..] == moves && moves[4..] == [];
  }

  function Announces0(): Thread {
    Thread(None, NoExec, Announced(Call(0, 0, true, false)))
  }

  function InLink(call: Call, node: Ptr, pc: LinkPC): Thread {
    Thread(None, NoExec, Linking(call, node, pc))
  }

  lemma Calls(s0: State)
    requires Start(s0)
    ensures Step(s0, 0, CallPush(0, false)) == Two(s0, Fresh(), 1, Announces0(), Thread(None, NoExec, NoPush))
    ensures Step(Two(s0, Fresh(), 1, Announces0(), Thread(None, NoExec, NoPush)), 1, CallPush(0, false))
            == Two(s0, Fresh(), 2, Announces0(), Thread(None, NoExec, Announced(Call(0, 1, false, false))))
  {
    SlotTwice(s0, Slot(1, Fresh(), 1, []), Slot(2, Fresh(), 2, []));
    assert s0.ths[0 := Announces0()][1 := Thread(None, NoExec, NoPush)] == s0.ths[0 := Announces0()];
  }

  lemma SlotTwice(s: State, x: Slot, y: Slot)
    requires s.m.slots != []
    ensures s.m.slots[0 := x][0 := y] == s.m.slots[0 := y]
  {
  }

  lemma ThreadTwice(s: State, a: Thread, b: Thread, t: Tid, th: Thread)
    requires |s.ths| >= 2 && t < 2
    ensures s.ths[0 := a][1 := b][t := th] == s.ths[0 := if t == 0 then th else a][1 := if t == 1 then th else b]
  {
  }

  lemma AllocTwo(s: State, jobs: Queue, count: nat, a: Thread, b: Thread, t: Tid, call: Call, addr: Addr)
    requires Start(s) && t < 2 && call.q == 0 && CanAlloc(jobs, addr)
    requires (if t == 0 then a else b) == Thread(None, NoExec, Announced(call))
    ensures var th := InLink(call, |jobs.addrs|, LoadTail);
            Step(Two(s, jobs, count, a, b), t, Go(addr, false))
            == Two(s, Alloc(jobs, addr, call.job), count, if t == 0 then th else a, if t == 1 then th else b)
  {
    var slot := Slot(count, jobs, count, []);
    SlotTwice(s, slot, slot.(jobs := Alloc(jobs, addr, call.job)));
    ThreadTwice(s, a, b, t, InLink(call, |jobs.addrs|, LoadTail));
  }

  lemma LinkTwo(s: State, jobs: Queue, count: nat, a: Thread, b: Thread, t: Tid, call: Call, node: Ptr, pc: LinkPC)
    requires Start(s) && t < 2 && call.q == 0 && (if t == 0 then a else b) == InLink(call, node, pc)
    requires !LinkAct(jobs, node, pc).1.LinkDone?
    ensures var (jobs', pc') := LinkAct(jobs, node, pc);
            var th := InLink(call, node, pc');
            Step(Two(s, jobs, count, a, b), t, Go(0, false))
            == Two(s, jobs', count, if t == 0 then th else a, if t == 1 then th else b)
  {
    var slot := Slot(count, jobs, count, []);
    var (jobs', pc') := LinkAct(jobs, node, pc);
    SlotTwice(s, slot, slot.(jobs := jobs'));
    ThreadTwice(s, a, b, t, InLink(call, node, pc'));
  }

  lemma LinksAndRuns(s0: State, s: State) returns (moves: seq<Move>, e: State)
    requires Start(s0)
    requires s == Two(s0, Alloc(Fresh(), 2, 1), 2, Announces0(), InLink(Call(0, 1, false, false), 2, LoadNext(1)))
    ensures e == Exec(s, moves) && Careful(s, moves) && |e.m.slots| >= 1 && |e.ths| == |s.ths|
    ensures e.m.slots[0].jobs.nodes == map[1 := Node(0, 3), 2 := Node(1, 0), 3 := Node(0, 0)]
    ensures e.m.slots[0].jobs.head == 1
    ensures e.ths[0] == Thread(Some(0), Drain(0, [], LoadHead), NoPush) && e.ths[1] == s.ths[1]
  {
    var go := Go(0, false);
    var b := s.ths[1];
    var call := Call(0, 0, true, false);
    var q := Alloc(Alloc(Fresh(), 2, 1), 3, 0);
    var linked := q.(nodes := q.nodes[1 := Node(0, 3)]);
    moves := [Move(0, Go(3, false)), Move(0, go), Move(0, go), Move(0, go), Move(0, go), Move(0, go)];
    AllocTwo(s0, Alloc(Fresh(), 2, 1), 2, Announces0(), b, 0, call, 3);
    LinkTwo(s0, q, 2, InLink(call, 3, LoadTail), b, 0, call, 3, LoadTail);
    LinkTwo(s0, q, 2, InLink(call, 3, LoadNext(1)), b, 0, call, 3, LoadNext(1));
    LinkTwo(s0, q, 2, InLink(call, 3, LinkCas(1)), b, 0, call, 3, LinkCas(1));
    var s1 := One(s, moves, 0);
    var s2 := One(s1, moves, 1);
    var s3 := One(s2, moves, 2);
    var s4 := One(s3, moves, 3);
    Runs(s0, linked, b);
    var s5 := One(s4, moves, 4);
    e := One(s5, moves, 5);
    assert moves[0..] == moves && moves[6..] == [];
  }

  lemma Runs(s0: State, linked: Queue, b: Thread)
    requires Start(s0) && linked.tail == 1
    ensures var call := Call(0, 0, true, false);
            var s5 := Two(s0, linked.(tail := 3), 2, Thread(None, NoExec, Decide(call)), b);
            && Step(Two(s0, linked, 2, InLink(call, 3, SwingTail(1)), b), 0, Go(0, false)) == s5
            && Step(s5, 0, Go(0, false))
               == Two(s0, linked.(tail := 3), 2, Thread(Some(0), Drain(0, [], LoadHead), NoPush), b)
  {
    var call := Call(0, 0, true, false);
    SlotTwice(s0, Slot(2, linked, 2, []), Slot(2, linked.(tail := 3), 2, []));
    ThreadTwice(s0, InLink(call, 3, SwingTail(1)), b, 0, Thread(None, NoExec, Decide(call)));
    ThreadTwice(s0, Thread(None, NoExec, Decide(call)), b, 0, Thread(Some(0), Drain(0, [], LoadHead), NoPush));
  }

  lemma Takes(s: State) returns (moves: seq<Move>, e: State)
    requires |s.m.slots| >= 1 && |s.ths| >= 2
    requires s.m.slots[0].jobs.nodes == map[1 := Node(0, 3), 2 := Node(1, 0), 3 := Node(0, 0)]
    requires s.m.slots[0].jobs.head == 1
    requires s.ths[0] == Thread(Some(0), Drain(0, [], LoadHead), NoPush)
    requires s.ths[1] == InLink(Call(0, 1, false, false), 2, LoadNext(1))
    ensures e == Exec(s, moves) && Careful(s, moves) && |e.m.slots| >= 1 && |e.ths| == |s.ths|
    ensures e.m.slots[0].jobs.nodes == s.m.slots[0].jobs.nodes && e.ths[1] == s.ths[1]
    ensures e.ths[0] == Thread(Some(0), Drain(0, [], PopPC.Free(1, 0)), NoPush) && !DeleteSafe(e, 0)
  {
    var go := Go(0, false);
    moves := [Move(0, go), Move(0, go), Move(0, go), Move(0, go)];
    var s1 := One(s, moves, 0);
    var s2 := One(s1, moves, 1);
    var s3 := One(s2, moves, 2);
    e := One(s3, moves, 3);
    assert moves[0..] == moves && moves[4..] == [];
    assert PushHasTail(e.ths[1].push, 0, 1);
  }
}
