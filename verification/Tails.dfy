/** What job queues promise of _tail: how far it lags and when a producer finishes, in every run in which no
    compare-and-swap on _tail is deceived by an address that was given out again; and that runs whose deletes
    are safe are such runs, and never follow a deleted node. */
module Tails {
  import opened Wrappers
  import opened MpscQueue
  import opened JobQueue

  /** The next step of thread t is a CAS that takes another node for the one the thread has loaded. */
  predicate SlipsNow(s: State, t: Tid)
    requires t < |s.ths|
  {
    var p := s.ths[t].push;
    p.Linking? && p.call.q < |s.m.slots| && Slips(s.m.slots[p.call.q].jobs, p.pc)
  }

  ghost predicate NoSlips(s: State, moves: seq<Move>)
    decreases |moves|
  {
    moves == [] ||
    if moves[0].t < |s.ths| then !SlipsNow(s, moves[0].t) && NoSlips(Step(s, moves[0].t, moves[0].c), moves[1..])
    else NoSlips(s, moves[1..])
  }

  ghost predicate QueueTail(s: State, g: seq<Ghost>, q: Qid)
    requires q < |g| == |s.m.slots|
  {
    NearEnd(s.m.slots[q].jobs, g[q].trail) && Distinct(s.m.slots[q].jobs)
  }

  ghost predicate ThreadTail(s: State, g: seq<Ghost>, t: Tid)
    requires |g| == |s.m.slots| && t < |s.ths|
  {
    var p := s.ths[t].push;
    p.Linking? && p.call.q < |g| ==> Seen(s.m.slots[p.call.q].jobs, g[p.call.q].trail, p.pc)
  }

  ghost predicate TailsInv(s: State, g: seq<Ghost>) {
    && Inv(s, g)
    && (forall q: nat :: q < |g| ==> QueueTail(s, g, q))
    && (forall t: nat :: t < |s.ths| ==> ThreadTail(s, g, t))
  }

  lemma InitTails(queues: nat, threads: nat)
    ensures TailsInv(Init(queues, threads), InitGhost(queues))
  {
    InitHolds(queues, threads);
  }

  // ----- one step -----

  /** How a queue's list may change in one step. */
  ghost predicate Onward(jobs: Queue, g: Trail, jobs': Queue, g': Trail) {
    TailForward(jobs, g, jobs', g') && exists own :: Grows(jobs, g, jobs', g', own)
  }

  /** What a step has to do for queue q. */
  ghost predicate KeepsQueue(s: State, g: seq<Ghost>, s': State, g': seq<Ghost>, q: Qid) {
    && q < |s.m.slots| == |g| == |s'.m.slots| == |g'|
    && Onward(s.m.slots[q].jobs, g[q].trail, s'.m.slots[q].jobs, g'[q].trail)
    && QueueTail(s', g', q)
  }

  lemma StepQueue(s: State, g: seq<Ghost>, t: Tid, c: Choice, q: Qid)
    requires TailsInv(s, g) && t < |s.ths| && q < |g| && !SlipsNow(s, t)
    ensures KeepsQueue(s, g, Step(s, t, c), Track(s, g, t, c), q)
  {
    var p := s.ths[t].push;
    if p.Linking? && p.call.q == q {
      QueueLinks(s, g, t, c);
    } else if p.Announced? && p.call.q == q {
      QueueAllocates(s, g, t, c);
    } else if DrainsNow(s, t) && s.ths[t].exec.q == q {
      QueueDrains(s, g, t, c);
    } else {
      QueueRests(s, g, t, c, q);
    }
  }

  lemma QueueLinks(s: State, g: seq<Ghost>, t: Tid, c: Choice)
    requires TailsInv(s, g) && t < |s.ths| && s.ths[t].push.Linking? && !SlipsNow(s, t)
    ensures KeepsQueue(s, g, Step(s, t, c), Track(s, g, t, c), s.ths[t].push.call.q)
  {
    var p := s.ths[t].push;
    LinksOn(s, g, t, c);
    assert ThreadInv(s.m, g, t, s.ths[t]) && ThreadTail(s, g, t);
    assert SlotInv(s.m, s.ths, g[p.call.q], p.call.q) && QueueTail(s, g, p.call.q);
    ListLinks(s.m.slots[p.call.q].jobs, g[p.call.q].trail, p.node, p.call.job, p.pc);
  }

  lemma QueueAllocates(s: State, g: seq<Ghost>, t: Tid, c: Choice)
    requires TailsInv(s, g) && t < |s.ths| && s.ths[t].push.Announced?
    ensures KeepsQueue(s, g, Step(s, t, c), Track(s, g, t, c), s.ths[t].push.call.q)
  {
    var q := s.ths[t].push.call.q;
    AllocatesOn(s, g, t, c);
    assert SlotInv(s.m, s.ths, g[q], q) && QueueTail(s, g, q);
    ListAllocates(s.m.slots[q].jobs, g[q].trail, c.Go?, if c.Go? then c.addr else 0, s.ths[t].push.call.job);
  }

  lemma QueueDrains(s: State, g: seq<Ghost>, t: Tid, c: Choice)
    requires TailsInv(s, g) && t < |s.ths| && DrainsNow(s, t)
    ensures KeepsQueue(s, g, Step(s, t, c), Track(s, g, t, c), s.ths[t].exec.q)
  {
    var e := s.ths[t].exec;
    DrainsOn(s, g, t, c);
    assert ThreadInv(s.m, g, t, s.ths[t]) && SlotInv(s.m, s.ths, g[e.q], e.q) && QueueTail(s, g, e.q);
    ListDrains(s.m.slots[e.q].jobs, g[e.q].trail, e.pc);
  }

  lemma QueueRests(s: State, g: seq<Ghost>, t: Tid, c: Choice, q: Qid)
    requires TailsInv(s, g) && t < |s.ths| && q < |g|
    requires var p := s.ths[t].push; !((p.Linking? || p.Announced?) && p.call.q == q)
    requires !(DrainsNow(s, t) && s.ths[t].exec.q == q)
    ensures KeepsQueue(s, g, Step(s, t, c), Track(s, g, t, c), q)
  {
    Untouched(s, g, t, c, q);
    assert QueueTail(s, g, q);
    assert Grows(s.m.slots[q].jobs, g[q].trail, s.m.slots[q].jobs, g[q].trail, 0);
  }

  lemma ListDrains(q: Queue, g: Trail, pc: PopPC)
    requires ListInv(q, g) && Consumer(q, g, pc) && NearEnd(q, g) && Distinct(q)
    ensures var q', g' := PopAct(q, pc).0, PopTrack(g, pc);
            Onward(q, g, q', g') && NearEnd(q', g') && Distinct(q')
  {
    PopStep(q, g, pc);
  }

  lemma ListLinks(q: Queue, g: Trail, node: Ptr, job: Job, pc: LinkPC)
    requires ListInv(q, g) && Producer(q, g, node, job, pc) && NearEnd(q, g) && Distinct(q) && Seen(q, g, pc)
    requires !Slips(q, pc)
    ensures var q', g' := LinkAct(q, node, pc).0, LinkTrack(q, g, node, job, pc);
            Onward(q, g, q', g') && NearEnd(q', g') && Distinct(q')
  {
    LinkStep(q, g, node, job, pc);
    LinkTail(q, g, node, job, pc);
    LinkDistinct(q, g, node, job, pc);
  }

  lemma ListAllocates(q: Queue, g: Trail, go: bool, addr: Addr, job: Job)
    requires ListInv(q, g) && NearEnd(q, g) && Distinct(q)
    ensures var q' := if go && CanAlloc(q, addr) then Alloc(q, addr, job) else q;
            Onward(q, g, q', g) && NearEnd(q', g) && Distinct(q')
  {
    if go && CanAlloc(q, addr) {
      AllocStep(q, g, addr, job);
      AllocDistinct(q, g, addr, job);
    } else {
      assert Grows(q, g, q, g, 0);
    }
  }

  predicate DrainsNow(s: State, t: Tid)
    requires t < |s.ths|
  {
    s.ths[t].push.NoPush? && s.ths[t].exec.Drain?
  }

  // What a step does to the list, case by case.

  lemma LinksOn(s: State, g: seq<Ghost>, t: Tid, c: Choice)
    requires Inv(s, g) && t < |s.ths| && s.ths[t].push.Linking?
    ensures var p := s.ths[t].push;
            var q := p.call.q;
            var s', g' := Step(s, t, c), Track(s, g, t, c);
            && q < |s'.m.slots| == |g| == |g'| && |s'.ths| == |s.ths|
            && s'.m.slots[q].jobs == LinkAct(s.m.slots[q].jobs, p.node, p.pc).0
            && g'[q].trail == LinkTrack(s.m.slots[q].jobs, g[q].trail, p.node, p.call.job, p.pc)
            && s'.ths[t].push == var pc' := LinkAct(s.m.slots[q].jobs, p.node, p.pc).1;
                                 if pc'.LinkDone? then Decide(p.call) else Linking(p.call, p.node, pc')
  {
    assert ThreadInv(s.m, g, t, s.ths[t]);
  }

  lemma AllocatesOn(s: State, g: seq<Ghost>, t: Tid, c: Choice)
    requires Inv(s, g) && t < |s.ths| && s.ths[t].push.Announced?
    ensures var q := s.ths[t].push.call.q;
            var s', g' := Step(s, t, c), Track(s, g, t, c);
            && q < |s'.m.slots| == |g| == |g'| && |s'.ths| == |s.ths| && g'[q].trail == g[q].trail
            && (s'.ths[t].push == s.ths[t].push || InCall(s'.ths[t].push, q))
            && s'.m.slots[q].jobs == if c.Go? && CanAlloc(s.m.slots[q].jobs, c.addr)
                                     then Alloc(s.m.slots[q].jobs, c.addr, s.ths[t].push.call.job)
                                     else s.m.slots[q].jobs
  {
    assert ThreadInv(s.m, g, t, s.ths[t]);
  }

  predicate InCall(p: PushPC, q: Qid) {
    p.Linking? && p.call.q == q && p.pc.LoadTail?
  }

  lemma DrainsOn(s: State, g: seq<Ghost>, t: Tid, c: Choice)
    requires Inv(s, g) && t < |s.ths| && DrainsNow(s, t)
    ensures var e := s.ths[t].exec;
            var q := e.q;
            var s', g' := Step(s, t, c), Track(s, g, t, c);
            && q < |s'.m.slots| == |g| == |g'| && s'.ths[t].push.NoPush?
            && s'.m.slots[q].jobs == PopAct(s.m.slots[q].jobs, e.pc).0 && g'[q].trail == PopTrack(g[q].trail, e.pc)
  {
    assert ThreadInv(s.m, g, t, s.ths[t]);
  }

  lemma Untouched(s: State, g: seq<Ghost>, t: Tid, c: Choice, q: Qid)
    requires Inv(s, g) && t < |s.ths| && q < |g|
    requires var p := s.ths[t].push; !((p.Linking? || p.Announced?) && p.call.q == q)
    requires !(DrainsNow(s, t) && s.ths[t].exec.q == q)
    ensures |Step(s, t, c).m.slots| == |g| && |Track(s, g, t, c)| == |g|
    ensures Step(s, t, c).m.slots[q].jobs == s.m.slots[q].jobs && Track(s, g, t, c)[q].trail == g[q].trail
  {
    assert ThreadInv(s.m, g, t, s.ths[t]);
    UntouchedQueue(s, t, c, q);
    UntouchedTrail(s, g, t, c, q);
  }

  lemma UntouchedTrail(s: State, g: seq<Ghost>, t: Tid, c: Choice, q: Qid)
    requires t < |s.ths| && q < |g| == |s.m.slots| && ThreadInv(s.m, g, t, s.ths[t])
    requires forall q :: q in s.m.global ==> q < |g|
    requires var p := s.ths[t].push; !((p.Linking? || p.Announced?) && p.call.q == q)
    requires !(DrainsNow(s, t) && s.ths[t].exec.q == q)
    ensures Track(s, g, t, c)[q].trail == g[q].trail
  {
  }

  lemma UntouchedQueue(s: State, t: Tid, c: Choice, q: Qid)
    requires t < |s.ths| && q < |s.m.slots|
    requires var p := s.ths[t].push; !((p.Linking? || p.Announced?) && p.call.q == q)
    requires !(DrainsNow(s, t) && s.ths[t].exec.q == q)
    ensures |Step(s, t, c).m.slots| == |s.m.slots| && Step(s, t, c).m.slots[q].jobs == s.m.slots[q].jobs
  {
  }

  lemma LinkDistinct(q: Queue, g: Trail, node: Ptr, job: Job, pc: LinkPC)
    requires ListInv(q, g) && Producer(q, g, node, job, pc) && Distinct(q)
    ensures Distinct(LinkAct(q, node, pc).0)
  {
    var q' := LinkAct(q, node, pc).0;
    assert q'.nodes.Keys == q.nodes.Keys && q'.addrs == q.addrs;
    assert forall p :: Address(q', p) == Address(q, p);
  }

  lemma StepThread(s: State, g: seq<Ghost>, t: Tid, c: Choice, u: Tid)
    requires TailsInv(s, g) && t < |s.ths| && u < |s.ths| && !SlipsNow(s, t)
    ensures |Step(s, t, c).m.slots| == |Track(s, g, t, c)| && |Step(s, t, c).ths| == |s.ths|
    ensures ThreadTail(Step(s, t, c), Track(s, g, t, c), u)
  {
    if u == t {
      OwnTail(s, g, t, c);
    } else {
      OtherTail(s, g, t, c, u);
    }
  }

  lemma OtherTail(s: State, g: seq<Ghost>, t: Tid, c: Choice, u: Tid)
    requires TailsInv(s, g) && t < |s.ths| && u < |s.ths| && u != t && !SlipsNow(s, t)
    ensures |Step(s, t, c).m.slots| == |Track(s, g, t, c)| && |Step(s, t, c).ths| == |s.ths|
    ensures ThreadTail(Step(s, t, c), Track(s, g, t, c), u)
  {
    var p := s.ths[u].push;
    SameLength(s, g, t, c);
    if p.Linking? && p.call.q < |g| {
      assert ThreadTail(s, g, u);
      StepQueue(s, g, t, c, p.call.q);
      var jobs', trail' := Step(s, t, c).m.slots[p.call.q].jobs, Track(s, g, t, c)[p.call.q].trail;
      var own :| Grows(s.m.slots[p.call.q].jobs, g[p.call.q].trail, jobs', trail', own);
      SeenStable(s.m.slots[p.call.q].jobs, g[p.call.q].trail, jobs', trail', own, p.pc);
    }
  }

  lemma SameLength(s: State, g: seq<Ghost>, t: Tid, c: Choice)
    requires Inv(s, g) && t < |s.ths|
    ensures |Step(s, t, c).m.slots| == |Track(s, g, t, c)| == |g| && |Step(s, t, c).ths| == |s.ths|
  {
    StepInv(s, g, t, c);
    assert ThreadInv(s.m, g, t, s.ths[t]);
  }

  lemma OwnTail(s: State, g: seq<Ghost>, t: Tid, c: Choice)
    requires TailsInv(s, g) && t < |s.ths| && !SlipsNow(s, t)
    ensures |Step(s, t, c).m.slots| == |Track(s, g, t, c)| && |Step(s, t, c).ths| == |s.ths|
    ensures ThreadTail(Step(s, t, c), Track(s, g, t, c), t)
  {
    var p := s.ths[t].push;
    SameLength(s, g, t, c);
    if p.Linking? {
      assert ThreadInv(s.m, g, t, s.ths[t]) && ThreadTail(s, g, t);
      assert SlotInv(s.m, s.ths, g[p.call.q], p.call.q) && QueueTail(s, g, p.call.q);
      LinksOn(s, g, t, c);
      LinkTail(s.m.slots[p.call.q].jobs, g[p.call.q].trail, p.node, p.call.job, p.pc);
    } else if p.Announced? {
      AllocatesOn(s, g, t, c);
    } else {
      NotLinking(s, t, c);
    }
  }

  lemma NotLinking(s: State, t: Tid, c: Choice)
    requires t < |s.ths| && !s.ths[t].push.Linking? && !s.ths[t].push.Announced?
    ensures !Step(s, t, c).ths[t].push.Linking?
  {
  }

  lemma StepTails(s: State, g: seq<Ghost>, t: Tid, c: Choice)
    requires TailsInv(s, g) && t < |s.ths| && !SlipsNow(s, t)
    ensures TailsInv(Step(s, t, c), Track(s, g, t, c))
  {
    StepInv(s, g, t, c);
    forall q: nat | q < |g| ensures QueueTail(Step(s, t, c), Track(s, g, t, c), q) {
      StepQueue(s, g, t, c, q);
    }
    forall u: nat | u < |s.ths| ensures ThreadTail(Step(s, t, c), Track(s, g, t, c), u) {
      StepThread(s, g, t, c, u);
    }
  }

  lemma {:induction false} RunTails(s: State, g: seq<Ghost>, moves: seq<Move>) returns (g': seq<Ghost>)
    requires TailsInv(s, g) && NoSlips(s, moves)
    ensures TailsInv(Exec(s, moves), g') && |g'| == |g|
    decreases |moves|
  {
    if moves == [] {
      return g;
    }
    var Move(t, c) := moves[0];
    if t < |s.ths| {
      StepTails(s, g, t, c);
      g' := RunTails(Step(s, t, c), Track(s, g, t, c), moves[1..]);
    } else {
      g' := RunTails(s, g, moves[1..]);
    }
  }

  // ----- over every run in which no CAS slips -----

  /** In every such state _tail of every queue is its last node or the one before; and if that node has been
      deleted there is nothing behind _head. */
  lemma TailLag(queues: nat, threads: nat, moves: seq<Move>, q: Qid)
    requires NoSlips(Init(queues, threads), moves) && q < queues
    ensures var s := Exec(Init(queues, threads), moves);
            q < |s.m.slots| &&
            var jobs := s.m.slots[q].jobs;
            && (jobs.tail in jobs.nodes ==>
                  var n := jobs.nodes[jobs.tail].next; n == 0 || (n in jobs.nodes && jobs.nodes[n].next == 0))
            && (jobs.tail !in jobs.nodes ==> jobs.head in jobs.nodes && jobs.nodes[jobs.head].next == 0)
  {
    InitTails(queues, threads);
    var g := RunTails(Init(queues, threads), InitGhost(queues), moves);
    var s := Exec(Init(queues, threads), moves);
    assert SlotInv(s.m, s.ths, g[q], q) && QueueTail(s, g, q);
    TailNearEnd(s.m.slots[q].jobs, g[q].trail);
  }

  /** A producer that is linking a node and runs alone from such a state, its next step no slip either, is done
      after at most two more iterations of its loop, exactly if the first node it follows is still there. */
  lemma ProducerAlone(queues: nat, threads: nat, moves: seq<Move>, t: Tid)
    requires NoSlips(Init(queues, threads), moves)
    requires var s := Exec(Init(queues, threads), moves); t < |s.ths| && s.ths[t].push.Linking? && !SlipsNow(s, t)
    ensures var s := Exec(Init(queues, threads), moves);
            var p := s.ths[t].push;
            p.call.q < |s.m.slots| &&
            ((exists n: nat :: n <= 10 && Finishes(s.m.slots[p.call.q].jobs, p.node, p.pc, n, 2))
             <==> !Stuck(s.m.slots[p.call.q].jobs, p.pc))
  {
    InitTails(queues, threads);
    var g := RunTails(Init(queues, threads), InitGhost(queues), moves);
    var s := Exec(Init(queues, threads), moves);
    var p := s.ths[t].push;
    assert ThreadInv(s.m, g, t, s.ths[t]) && ThreadTail(s, g, t);
    assert SlotInv(s.m, s.ths, g[p.call.q], p.call.q) && QueueTail(s, g, p.call.q);
    SoloFinishes(s.m.slots[p.call.q].jobs, g[p.call.q].trail, p.node, p.call.job, p.pc);
  }

  // ----- runs whose deletes are safe -----

  predicate PushHasTail(p: PushPC, q: Qid, n: Ptr) {
    p.Linking? && p.call.q == q && Holds(p.pc, n)
  }

  /** If thread t's next step deletes a node, _tail has left it and no thread has it as its oldTail. */
  ghost predicate DeleteSafe(s: State, t: Tid)
    requires t < |s.ths|
  {
    s.ths[t].push.NoPush? && Freeing(s.ths[t].exec) ==>
      var q, n := s.ths[t].exec.q, s.ths[t].exec.pc.oldHead;
      q < |s.m.slots| && s.m.slots[q].jobs.tail != n && NobodyHas(s, q, n)
  }

  /** Every delete of the run is safe. */
  ghost predicate Careful(s: State, moves: seq<Move>)
    decreases |moves|
  {
    moves == [] ||
    if moves[0].t < |s.ths| then DeleteSafe(s, moves[0].t) && Careful(Step(s, moves[0].t, moves[0].c), moves[1..])
    else Careful(s, moves[1..])
  }

  ghost predicate ThreadAlive(s: State, t: Tid)
    requires t < |s.ths|
  {
    var p := s.ths[t].push;
    p.Linking? && p.call.q < |s.m.slots| ==> Alive(s.m.slots[p.call.q].jobs, p.pc) && !p.pc.LinkFault?
  }

  ghost predicate AliveInv(s: State) {
    && (forall q: nat :: q < |s.m.slots| ==> s.m.slots[q].jobs.tail in s.m.slots[q].jobs.nodes)
    && (forall t: nat :: t < |s.ths| ==> ThreadAlive(s, t))
  }

  lemma AliveNoSlip(s: State, g: seq<Ghost>, t: Tid)
    requires TailsInv(s, g) && AliveInv(s) && t < |s.ths|
    ensures !SlipsNow(s, t)
  {
    var p := s.ths[t].push;
    assert ThreadInv(s.m, g, t, s.ths[t]) && ThreadAlive(s, t);
    if p.Linking? {
      assert SlotInv(s.m, s.ths, g[p.call.q], p.call.q) && QueueTail(s, g, p.call.q);
      LinkAlive(s.m.slots[p.call.q].jobs, g[p.call.q].trail, p.node, p.call.job, p.pc);
    }
  }

  /** No node but one that is safely deleted goes, and _tail goes to a node that is there. */
  ghost predicate KeepsAlive(s: State, s': State, q: Qid) {
    && q < |s.m.slots| == |s'.m.slots|
    && var jobs, jobs' := s.m.slots[q].jobs, s'.m.slots[q].jobs;
    && jobs'.tail in jobs'.nodes
    && forall p :: p in jobs.nodes && p !in jobs'.nodes ==> NobodyHas(s, q, p)
  }

  lemma QueueAlive(s: State, g: seq<Ghost>, t: Tid, c: Choice, q: Qid)
    requires TailsInv(s, g) && AliveInv(s) && t < |s.ths| && DeleteSafe(s, t) && q < |g|
    ensures KeepsAlive(s, Step(s, t, c), q)
  {
    var p := s.ths[t].push;
    if p.Linking? && p.call.q == q {
      LinksAlive(s, g, t, c);
    } else if p.Announced? && p.call.q == q {
      AllocatesOn(s, g, t, c);
    } else if DrainsNow(s, t) && s.ths[t].exec.q == q {
      DrainsAlive(s, g, t, c);
    } else {
      Untouched(s, g, t, c, q);
    }
  }

  lemma LinksAlive(s: State, g: seq<Ghost>, t: Tid, c: Choice)
    requires TailsInv(s, g) && AliveInv(s) && t < |s.ths| && s.ths[t].push.Linking?
    ensures KeepsAlive(s, Step(s, t, c), s.ths[t].push.call.q)
  {
    var p := s.ths[t].push;
    LinksOn(s, g, t, c);
    assert ThreadInv(s.m, g, t, s.ths[t]) && ThreadAlive(s, t);
    assert SlotInv(s.m, s.ths, g[p.call.q], p.call.q) && QueueTail(s, g, p.call.q);
    LinkAlive(s.m.slots[p.call.q].jobs, g[p.call.q].trail, p.node, p.call.job, p.pc);
  }

  lemma DrainsAlive(s: State, g: seq<Ghost>, t: Tid, c: Choice)
    requires TailsInv(s, g) && AliveInv(s) && t < |s.ths| && DrainsNow(s, t) && DeleteSafe(s, t)
    ensures KeepsAlive(s, Step(s, t, c), s.ths[t].exec.q)
  {
    var e := s.ths[t].exec;
    DrainsOn(s, g, t, c);
    assert ThreadInv(s.m, g, t, s.ths[t]);
    PopDeletes(s.m.slots[e.q].jobs, e.pc);
  }

  lemma PopDeletes(q: Queue, pc: PopPC)
    ensures var q' := PopAct(q, pc).0;
            q'.tail == q.tail && forall p :: p in q.nodes && p !in q'.nodes ==> pc.Free? && p == pc.oldHead
  {
  }

  ghost predicate NobodyHas(s: State, q: Qid, n: Ptr) {
    forall u :: 0 <= u < |s.ths| ==> !PushHasTail(s.ths[u].push, q, n)
  }

  lemma StepAlive(s: State, g: seq<Ghost>, t: Tid, c: Choice)
    requires TailsInv(s, g) && AliveInv(s) && t < |s.ths| && DeleteSafe(s, t)
    ensures AliveInv(Step(s, t, c))
  {
    var s' := Step(s, t, c);
    forall q: nat | q < |s'.m.slots| ensures s'.m.slots[q].jobs.tail in s'.m.slots[q].jobs.nodes {
      StepInv(s, g, t, c);
      QueueAlive(s, g, t, c, q);
    }
    forall u: nat | u < |s'.ths| ensures ThreadAlive(s', u) {
      ThreadStaysAlive(s, g, t, c, u);
    }
  }

  lemma ThreadStaysAlive(s: State, g: seq<Ghost>, t: Tid, c: Choice, u: Tid)
    requires TailsInv(s, g) && AliveInv(s) && t < |s.ths| && DeleteSafe(s, t) && u < |s.ths|
    ensures |Step(s, t, c).ths| == |s.ths| && ThreadAlive(Step(s, t, c), u)
  {
    var p := s.ths[u].push;
    assert ThreadInv(s.m, g, u, s.ths[u]) && ThreadAlive(s, u);
    SameLength(s, g, t, c);
    if u != t && p.Linking? {
      QueueAlive(s, g, t, c, p.call.q);
      assert HasTail(p.pc) ==> PushHasTail(p, p.call.q, p.pc.oldTail);
    } else if u == t {
      OwnAlive(s, g, t, c);
    }
  }

  lemma OwnAlive(s: State, g: seq<Ghost>, t: Tid, c: Choice)
    requires TailsInv(s, g) && AliveInv(s) && t < |s.ths| && DeleteSafe(s, t)
    ensures |Step(s, t, c).ths| == |s.ths| && ThreadAlive(Step(s, t, c), t)
  {
    var p := s.ths[t].push;
    assert ThreadInv(s.m, g, t, s.ths[t]) && ThreadAlive(s, t);
    if p.Linking? {
      assert SlotInv(s.m, s.ths, g[p.call.q], p.call.q) && QueueTail(s, g, p.call.q);
      LinksOn(s, g, t, c);
      LinkAlive(s.m.slots[p.call.q].jobs, g[p.call.q].trail, p.node, p.call.job, p.pc);
    } else if p.Announced? {
      AllocatesOn(s, g, t, c);
      QueueAlive(s, g, t, c, p.call.q);
    } else {
      NotLinking(s, t, c);
    }
  }

  lemma {:induction false} CarefulRun(s: State, g: seq<Ghost>, moves: seq<Move>)
    requires TailsInv(s, g) && AliveInv(s) && Careful(s, moves)
    ensures NoSlips(s, moves) && AliveInv(Exec(s, moves))
    decreases |moves|
  {
    if moves != [] {
      var Move(t, c) := moves[0];
      if t < |s.ths| {
        AliveNoSlip(s, g, t);
        StepTails(s, g, t, c);
        StepAlive(s, g, t, c);
        CarefulRun(Step(s, t, c), Track(s, g, t, c), moves[1..]);
      } else {
        CarefulRun(s, g, moves[1..]);
      }
    }
  }

  /** In a run whose deletes are safe no CAS slips, and no thread ever follows a pointer to a deleted node. */
  lemma NeverFaults(queues: nat, threads: nat, moves: seq<Move>)
    requires Careful(Init(queues, threads), moves)
    ensures NoSlips(Init(queues, threads), moves)
    ensures forall t :: 0 <= t < |Exec(Init(queues, threads), moves).ths| ==>
              !Faulted(Exec(Init(queues, threads), moves).ths[t])
  {
    InitTails(queues, threads);
    CarefulRun(Init(queues, threads), InitGhost(queues), moves);
    var g := Reached(queues, threads, moves);
    var s := Exec(Init(queues, threads), moves);
    forall t: nat | t < |s.ths| ensures !Faulted(s.ths[t]) {
      assert ThreadInv(s.m, g, t, s.ths[t]) && ThreadAlive(s, t);
    }
  }

  predicate Faulted(th: Thread) {
    (th.push.Linking? && th.push.pc.LinkFault?) || (th.exec.Drain? && th.exec.pc.PopFault?)
  }
}
