/** What the calls on a job queue do to its end: who runs a queue, when a runner gives it up and to whom, and what a
    thread that runs alone gets done. */
module QueueAlone {
  import opened Wrappers
  import opened MpscQueue
  import opened JobQueue

  const GO := Go(0, false)  // nothing to allocate, and the time slice is not over

  /** Thread t takes k steps. */
  function Alone(s: State, t: Tid, k: nat): (e: State)
    requires t < |s.ths|
    ensures |e.ths| == |s.ths|
    decreases k
  {
    if k == 0 then s else Alone(Step(s, t, GO), t, k - 1)
  }

  /** The same, as far as memory and the thread itself go. */
  function Solo(m: Mem, th: Thread, k: nat): (Mem, Thread)
    decreases k
  {
    if k == 0 then (m, th) else var (m', th') := Act(m, th, GO); Solo(m', th', k - 1)
  }

  lemma {:induction false} AloneIs(s: State, t: Tid, k: nat)
    requires t < |s.ths|
    ensures var (m, th) := Solo(s.m, s.ths[t], k); Alone(s, t, k) == State(m, s.ths[t := th])
    decreases k
  {
    if k > 0 {
      AloneIs(Step(s, t, GO), t, k - 1);
    } else {
      assert s.ths[t := s.ths[t]] == s.ths;
    }
  }

  lemma SoloStep(m: Mem, th: Thread, m': Mem, th': Thread, k: nat)
    requires Act(m, th, GO) == (m', th')
    ensures Solo(m, th, k + 1) == Solo(m', th', k)
  {
  }

  lemma {:induction false} SoloMore(m: Mem, th: Thread, i: nat, j: nat)
    ensures var (m1, th1) := Solo(m, th, i); Solo(m, th, i + j) == Solo(m1, th1, j)
    decreases i
  {
    if i > 0 {
      var (m', th') := Act(m, th, GO);
      SoloMore(m', th', i - 1, j);
    }
  }

  // ----- hand-offs -----

  /** A thread that is idle, or is inside a job that it runs, can always call Push: the job is counted and named by
      the number of calls before it, and the caller is the first if none was outstanding. */
  lemma PushBegins(s: State, t: Tid, q: Qid, pushOnly: bool)
    requires t < |s.ths| && q < |s.m.slots| && s.ths[t].push.NoPush?
    requires s.ths[t].exec.NoExec? || (s.ths[t].exec.Running? && s.ths[t].exec.inJob)
    ensures var slot := s.m.slots[q];
            Step(s, t, CallPush(q, pushOnly))
            == State(s.m.(slots := s.m.slots[q := slot.(jobCount := slot.jobCount + 1, pushes := slot.pushes + 1)]),
                     s.ths[t := s.ths[t].(push := Announced(Call(q, slot.pushes, slot.jobCount == 0, pushOnly)))])
  {
  }

  /** The last step of Push, by the thread whose push found the queue empty: it is inside Execute, unless pushOnly
      is set or it already runs a queue. Then, one step later, the queue is at the end of the global queue and the
      thread goes on as before. Nobody else's push does anything there. */
  lemma FirstPusherRuns(queues: nat, threads: nat, moves: seq<Move>, t: Tid, c1: Choice, c2: Choice)
    requires var s := Exec(Init(queues, threads), moves); t < |s.ths| && s.ths[t].push.Decide?
    ensures var s := Exec(Init(queues, threads), moves);
            var th, call := s.ths[t], s.ths[t].push.call;
            var s1 := Step(s, t, c1);
            && |s1.ths| == |s.ths|
            && (call.first && !call.pushOnly && th.exec.NoExec? ==>
                  s1 == State(s.m, s.ths[t := Thread(Some(call.q), Drain(call.q, [], LoadHead), NoPush)]))
            && (call.first && (call.pushOnly || !th.exec.NoExec?) ==>
                  Step(s1, t, c2) == State(s.m.(global := s.m.global + [call.q]), s.ths[t := th.(push := NoPush)]))
            && (!call.first ==> s1 == State(s.m, s.ths[t := th.(push := NoPush)]))
  {
    var g := Reached(queues, threads, moves);
    var s := Exec(Init(queues, threads), moves);
    assert ThreadInv(s.m, g, t, s.ths[t]);
    var s1 := Step(s, t, c1);
    if s1.ths[t].push.HandOff? {
      var th := s.ths[t];
      assert s1 == State(s.m, s.ths[t := th.(push := HandOff(th.push.call))]);
      Overwrites(s, t, th.(push := HandOff(th.push.call)), th.(push := NoPush));
    }
  }

  /** What the steps of thread t from the end of a batch do. With nothing outstanding it is outside Execute and runs
      no queue. Otherwise, if its time slice is over, two steps later the queue is at the end of the global queue and
      the thread outside Execute; if not, it begins the next batch. */
  ghost predicate EndsBatch(s: State, t: Tid, c1: Choice, addr: Addr, late: bool, c3: Choice)
    requires t < |s.ths| && s.ths[t].exec.Subtract? && s.ths[t].exec.q < |s.m.slots|
  {
    var q, n := s.ths[t].exec.q, s.ths[t].exec.n;
    var left := s.m.(slots := s.m.slots[q := s.m.slots[q].(jobCount := s.m.slots[q].jobCount - n)]);
    var s1 := Step(s, t, c1);
    && (s.m.slots[q].jobCount == n ==> s1 == State(left, s.ths[t := Thread(None, NoExec, NoPush)]))
    && (s.m.slots[q].jobCount != n ==>
          && |s1.ths| == |s.ths|
          && var s2 := Step(s1, t, Go(addr, late));
          && |s2.ths| == |s.ths|
          && (late ==> Step(s2, t, c3) == State(left.(global := left.global + [q]),
                                                s.ths[t := Thread(None, NoExec, NoPush)]))
          && (!late ==> s2 == State(left, s.ths[t := s.ths[t].(exec := Drain(q, [], LoadHead))])))
  }

  lemma BatchEnds(queues: nat, threads: nat, moves: seq<Move>, t: Tid, c1: Choice, addr: Addr, late: bool,
                  c3: Choice)
    requires var s := Exec(Init(queues, threads), moves);
             t < |s.ths| && s.ths[t].push.NoPush? && s.ths[t].exec.Subtract?
    ensures var s := Exec(Init(queues, threads), moves);
            var q, n := s.ths[t].exec.q, s.ths[t].exec.n;
            q < |s.m.slots| && n <= s.m.slots[q].jobCount && EndsBatch(s, t, c1, addr, late, c3)
  {
    var s := Exec(Init(queues, threads), moves);
    Outstanding(queues, threads, moves, t);
    Ends(s, t, c1, addr, late, c3);
  }

  lemma Outstanding(queues: nat, threads: nat, moves: seq<Move>, t: Tid)
    requires var s := Exec(Init(queues, threads), moves); t < |s.ths| && s.ths[t].exec.Subtract?
    ensures var s := Exec(Init(queues, threads), moves);
            s.ths[t].exec.q < |s.m.slots| && s.ths[t].exec.n <= s.m.slots[s.ths[t].exec.q].jobCount
  {
    var g := Reached(queues, threads, moves);
    var s := Exec(Init(queues, threads), moves);
    assert ThreadInv(s.m, g, t, s.ths[t]);
    assert SlotInv(s.m, s.ths, g[s.ths[t].exec.q], s.ths[t].exec.q);
  }

  lemma Ends(s: State, t: Tid, c1: Choice, addr: Addr, late: bool, c3: Choice)
    requires t < |s.ths| && s.ths[t].push.NoPush? && s.ths[t].exec.Subtract? && s.ths[t].exec.q < |s.m.slots|
    ensures EndsBatch(s, t, c1, addr, late, c3)
  {
    var q := s.ths[t].exec.q;
    var th := s.ths[t];
    var tick, back := th.(exec := CheckTick(q)), Thread(None, HandBack(q), NoPush);
    Overwrites(s, t, tick, back);
    Overwrites(s, t, tick, th.(exec := Drain(q, [], LoadHead)));
    Overwrites(s, t, back, Thread(None, NoExec, NoPush));
  }

  lemma Overwrites(s: State, t: Tid, x: Thread, y: Thread)
    requires t < |s.ths|
    ensures s.ths[t := x][t := y] == s.ths[t := y]
  {
  }

  /** A worker takes the queue that was handed over first. */
  lemma PollTakesFirst(s: State, t: Tid)
    requires t < |s.ths| && s.ths[t].push.NoPush? && s.ths[t].exec.NoExec? && s.m.global != []
    ensures var q := s.m.global[0];
            Step(s, t, Poll) == State(s.m.(global := s.m.global[1..]),
                                      s.ths[t := Thread(Some(q), Drain(q, [], LoadHead), NoPush)])
  {
  }

  // ----- a batch -----

  /** The memory with another list and another log in slot q. */
  function With(m: Mem, q: Qid, jobs: Queue, executed: seq<Job>): Mem
    requires q < |m.slots|
  {
    m.(slots := m.slots[q := m.slots[q].(jobs := jobs, executed := executed)])
  }

  function Draining(th: Thread, q: Qid, items: seq<Job>, pc: PopPC): Thread {
    th.(exec := Drain(q, items, pc))
  }

  lemma Drains(m: Mem, th: Thread, q: Qid, items: seq<Job>, pc: PopPC, jobs: Queue, pc': PopPC, k: nat)
    requires q < |m.slots| && th.push.NoPush? && PopAct(m.slots[q].jobs, pc) == (jobs, pc')
    requires !pc'.GotNone? && !pc'.GotJob?
    ensures Solo(m, Draining(th, q, items, pc), k + 1)
            == Solo(With(m, q, jobs, m.slots[q].executed), Draining(th, q, items, pc'), k)
  {
  }

  /** One Pop that finds a job. */
  lemma TakesOne(m: Mem, th: Thread, q: Qid, items: seq<Job>, k: nat)
    requires q < |m.slots| && th.push.NoPush?
    requires var jobs := m.slots[q].jobs;
             jobs.head in jobs.nodes && jobs.nodes[jobs.head].next != 0 && jobs.nodes[jobs.head].next in jobs.nodes
    ensures var jobs := m.slots[q].jobs;
            var next := jobs.nodes[jobs.head].next;
            Solo(m, Draining(th, q, items, LoadHead), k + 5)
            == Solo(With(m, q, jobs.(head := next, nodes := jobs.nodes - {jobs.head}), m.slots[q].executed),
                    Draining(th, q, items + [jobs.nodes[next].job], LoadHead), k)
  {
    var jobs := m.slots[q].jobs;
    var p, next := jobs.head, jobs.nodes[jobs.head].next;
    var job, done := jobs.nodes[next].job, m.slots[q].executed;
    var jobs1 := jobs.(head := next);
    var m1 := With(m, q, jobs1, done);
    assert With(m, q, jobs, done) == m by { assert m.slots[q := m.slots[q]] == m.slots; }
    Drains(m, th, q, items, LoadHead, jobs, LoadHeadNext(p), k + 4);
    Drains(m, th, q, items, LoadHeadNext(p), jobs, ReadData(p, next), k + 3);
    Drains(m, th, q, items, ReadData(p, next), jobs, StoreHead(p, next, job), k + 2);
    Drains(m, th, q, items, StoreHead(p, next, job), jobs1, PopPC.Free(p, job), k + 1);
    var m2 := With(m, q, jobs1.(nodes := jobs.nodes - {p}), done);
    assert m2 == With(m1, q, jobs1.(nodes := jobs.nodes - {p}), done) by {
      assert m1.slots[q := m2.slots[q]] == m.slots[q := m2.slots[q]];
    }
    SoloStep(m1, Draining(th, q, items, PopPC.Free(p, job)), m2, Draining(th, q, items + [job], LoadHead), k);
  }

  /** One Pop that finds none, and PopAll is done. */
  lemma TakesNone(m: Mem, th: Thread, q: Qid, items: seq<Job>, k: nat)
    requires q < |m.slots| && th.push.NoPush?
    requires var jobs := m.slots[q].jobs; jobs.head in jobs.nodes && jobs.nodes[jobs.head].next == 0
    ensures Solo(m, Draining(th, q, items, LoadHead), k + 2) == Solo(m, th.(exec := Running(q, items, 0, false)), k)
  {
    var jobs := m.slots[q].jobs;
    assert With(m, q, jobs, m.slots[q].executed) == m by { assert m.slots[q := m.slots[q]] == m.slots; }
    Drains(m, th, q, items, LoadHead, jobs, LoadHeadNext(jobs.head), k + 1);
    SoloStep(m, Draining(th, q, items, LoadHeadNext(jobs.head)), m, th.(exec := Running(q, items, 0, false)), k);
  }

  /** PopAll takes everything that is behind _head, in order, and deletes as many nodes. */
  lemma {:induction false} TakesAll(m: Mem, th: Thread, q: Qid, items: seq<Job>, g: Trail, k: nat)
    returns (jobs': Queue)
    requires q < |m.slots| && th.push.NoPush? && ListInv(m.slots[q].jobs, g) && g.freed == g.popped
    ensures Solo(m, Draining(th, q, items, LoadHead), k + 5 * |Contents(g)| + 2)
            == Solo(With(m, q, jobs', m.slots[q].executed), th.(exec := Running(q, items + Contents(g), 0, false)), k)
    ensures var jobs := m.slots[q].jobs;
            && jobs'.head in jobs'.nodes && jobs'.nodes[jobs'.head].next == 0
            && jobs'.tail == jobs.tail && jobs'.addrs == jobs.addrs
            && |jobs'.nodes| == |jobs.nodes| - |Contents(g)|
            && forall p :: p in jobs'.nodes ==> p in jobs.nodes && jobs'.nodes[p] == jobs.nodes[p]
    decreases |Contents(g)|
  {
    var jobs := m.slots[q].jobs;
    assert NodeOk(jobs, g, g.popped);
    if Contents(g) == [] {
      jobs' := jobs;
      assert With(m, q, jobs, m.slots[q].executed) == m by { assert m.slots[q := m.slots[q]] == m.slots; }
      assert items + Contents(g) == items;
      TakesNone(m, th, q, items, k);
    } else {
      assert NodeOk(jobs, g, g.popped + 1);
      var next := jobs.nodes[jobs.head].next;
      var jobs1 := jobs.(head := next, nodes := jobs.nodes - {jobs.head});
      var g1 := g.(popped := g.popped + 1, freed := g.freed + 1);
      var m1 := With(m, q, jobs1, m.slots[q].executed);
      PopsOne(jobs, g);
      TakesOne(m, th, q, items, k + 5 * |Contents(g1)| + 2);
      jobs' := TakesAll(m1, th, q, items + [jobs.nodes[next].job], g1, k);
      assert items + [jobs.nodes[next].job] + Contents(g1) == items + Contents(g);
      assert m1.slots[q := m1.slots[q].(jobs := jobs')] == m.slots[q := m.slots[q].(jobs := jobs')];
    }
  }

  lemma PopsOne(jobs: Queue, g: Trail)
    requires ListInv(jobs, g) && g.freed == g.popped && Contents(g) != []
    ensures jobs.head in jobs.nodes
    ensures var next := jobs.nodes[jobs.head].next;
            var g1 := g.(popped := g.popped + 1, freed := g.freed + 1);
            && next != 0 && next in jobs.nodes
            && ListInv(jobs.(head := next, nodes := jobs.nodes - {jobs.head}), g1)
            && Contents(g) == [jobs.nodes[next].job] + Contents(g1)
            && |jobs.nodes - {jobs.head}| == |jobs.nodes| - 1
  {
    assert NodeOk(jobs, g, g.popped) && NodeOk(jobs, g, g.popped + 1);
    var p, next := jobs.head, jobs.nodes[jobs.head].next;
    var job := jobs.nodes[next].job;
    PopStep(jobs, g, StoreHead(p, next, job));
    PopStep(jobs.(head := next), g.(popped := g.popped + 1), PopPC.Free(p, job));
    assert jobs.nodes.Keys == (jobs.nodes - {p}).Keys + {p};
  }

  /** The batch runs to its end, in order. */
  lemma {:induction false} RunsAll(m: Mem, th: Thread, q: Qid, items: seq<Job>, i: nat, k: nat)
    requires q < |m.slots| && th.push.NoPush? && i <= |items|
    ensures Solo(m, th.(exec := Running(q, items, i, false)), k + 2 * (|items| - i) + 1)
            == Solo(With(m, q, m.slots[q].jobs, m.slots[q].executed + items[i..]), th.(exec := Subtract(q, |items|)), k)
    decreases |items| - i
  {
    var slot := m.slots[q];
    var th0 := th.(exec := Running(q, items, i, false));
    if i == |items| {
      assert slot.executed + items[i..] == slot.executed && m.slots[q := slot] == m.slots;
      SoloStep(m, th0, m, th.(exec := Subtract(q, |items|)), k);
    } else {
      var left := k + 2 * (|items| - i - 1) + 1;
      var m1 := With(m, q, slot.jobs, slot.executed + [items[i]]);
      SoloStep(m, th0, m1, th.(exec := Running(q, items, i, true)), left + 1);
      SoloStep(m1, th.(exec := Running(q, items, i, true)), m1, th.(exec := Running(q, items, i + 1, false)), left);
      RunsAll(m1, th, q, items, i + 1, k);
      assert slot.executed + [items[i]] + items[i + 1..] == slot.executed + items[i..];
      var executed := slot.executed + items[i..];
      assert m1.slots[q := slot.(executed := executed)] == m.slots[q := slot.(executed := executed)];
    }
  }

  /** A thread that enters Execute, or begins its next batch, and runs alone: it takes all the jobs that are behind
      _head, runs exactly those in order, and comes to subtract their number. */
  lemma BatchAlone(queues: nat, threads: nat, moves: seq<Move>, t: Tid) returns (k: nat, js: seq<Job>, jobs': Queue)
    requires var s := Exec(Init(queues, threads), moves);
             t < |s.ths| && s.ths[t].push.NoPush? && s.ths[t].exec.Drain?
             && s.ths[t].exec == Drain(s.ths[t].exec.q, [], LoadHead)
    ensures var s := Exec(Init(queues, threads), moves);
            var q := s.ths[t].exec.q;
            && q < |s.m.slots|
            && var jobs := s.m.slots[q].jobs;
            && Behind(jobs.nodes, jobs.head, js) && Behind(jobs'.nodes, jobs'.head, [])
            && jobs'.tail == jobs.tail && jobs'.addrs == jobs.addrs && |jobs'.nodes| == |jobs.nodes| - |js|
            && Alone(s, t, k) == State(With(s.m, q, jobs', s.m.slots[q].executed + js),
                                       s.ths[t := s.ths[t].(exec := Subtract(q, |js|))])
  {
    var g := Reached(queues, threads, moves);
    var s := Exec(Init(queues, threads), moves);
    assert ThreadInv(s.m, g, t, s.ths[t]);
    var q := s.ths[t].exec.q;
    assert SlotInv(s.m, s.ths, g[q], q);
    js := Contents(g[q].trail);
    BehindAt(s.m.slots[q].jobs, g[q].trail, g[q].trail.popped);
    k, jobs' := RunsBatch(s.m, s.ths[t], q, g[q].trail);
    AloneIs(s, t, k);
  }

  lemma RunsBatch(m: Mem, th: Thread, q: Qid, g: Trail) returns (k: nat, jobs': Queue)
    requires q < |m.slots| && th.push.NoPush? && th.exec == Drain(q, [], LoadHead)
    requires ListInv(m.slots[q].jobs, g) && g.freed == g.popped
    ensures Solo(m, th, k) == (With(m, q, jobs', m.slots[q].executed + Contents(g)),
                               th.(exec := Subtract(q, |Contents(g)|)))
    ensures var jobs := m.slots[q].jobs;
            && jobs'.head in jobs'.nodes && jobs'.nodes[jobs'.head].next == 0
            && jobs'.tail == jobs.tail && jobs'.addrs == jobs.addrs && |jobs'.nodes| == |jobs.nodes| - |Contents(g)|
            && forall p :: p in jobs'.nodes ==> p in jobs.nodes && jobs'.nodes[p] == jobs.nodes[p]
  {
    var js := Contents(g);
    var i: nat := 0;
    var runs := i + 2 * |js| + 1;
    jobs' := TakesAll(m, th, q, [], g, runs);
    assert [] + js == js && Draining(th, q, [], LoadHead) == th;
    var m1 := With(m, q, jobs', m.slots[q].executed);
    RunsAll(m1, th, q, js, 0, i);
    k := runs + 5 * |js| + 2;
    assert js[0..] == js;
    var executed := m.slots[q].executed + js;
    assert m1.slots[q := m1.slots[q].(executed := executed)] == m.slots[q := m1.slots[q].(executed := executed)];
  }

  // ----- a whole Push -----

  /** An idle thread calls Push on a queue without outstanding jobs, whose _tail has not been deleted, and runs alone:
      without pushOnly the job has run when it returns, and the queue is as empty as before; with pushOnly the job is
      the one in the list, and the queue is at the end of the global queue. */
  lemma PushAlone(queues: nat, threads: nat, moves: seq<Move>, t: Tid, q: Qid, pushOnly: bool, addr: Addr)
    returns (k: nat)
    requires var s := Exec(Init(queues, threads), moves);
             && t < |s.ths| && s.ths[t].push.NoPush? && s.ths[t].exec.NoExec?
             && q < |s.m.slots| && s.m.slots[q].jobCount == 0
             && s.m.slots[q].jobs.tail in s.m.slots[q].jobs.nodes && CanAlloc(s.m.slots[q].jobs, addr)
    ensures var s := Exec(Init(queues, threads), moves);
            var slot := s.m.slots[q];
            var jobs, job, node := slot.jobs, slot.pushes, |slot.jobs.addrs|;
            && jobs.head in jobs.nodes
            && var linked := jobs.nodes[jobs.head := Node(jobs.nodes[jobs.head].job, node)][node := Node(job, 0)];
            Alone(Step(Step(s, t, CallPush(q, pushOnly)), t, Go(addr, false)), t, k)
            == if pushOnly
               then State(Mem(s.m.slots[q := Slot(1, Queue(jobs.addrs + [addr], linked, jobs.head, node), job + 1,
                                                  slot.executed)],
                              s.m.global + [q]), s.ths)
               else State(s.m.(slots := s.m.slots[q := Slot(0, Queue(jobs.addrs + [addr], linked - {jobs.head}, node,
                                                                     node), job + 1, slot.executed + [job])]),
                          s.ths[t := Thread(None, NoExec, NoPush)])
  {
    var g := Reached(queues, threads, moves);
    var s := Exec(Init(queues, threads), moves);
    EmptyQueue(s, g, q);
    assert ThreadInv(s.m, g, t, s.ths[t]);
    var s2 := Step(Step(s, t, CallPush(q, pushOnly)), t, Go(addr, false));
    var slot := s.m.slots[q];
    var call := Call(q, slot.pushes, true, pushOnly);
    var th := Thread(None, NoExec, Linking(call, |slot.jobs.addrs|, LoadTail));
    var called := s.m.slots[q := slot.(jobCount := 1, pushes := slot.pushes + 1)];
    var new2 := Slot(1, Alloc(slot.jobs, addr, slot.pushes), slot.pushes + 1, slot.executed);
    assert called[q := new2] == s.m.slots[q := new2];
    assert s2 == State(s.m.(slots := s.m.slots[q := new2]), s.ths[t := th]);
    k := PushesOne(s2.m, q, call, addr, slot.jobs);
    AloneIs(s2, t, k);
    var (m, done) := Solo(s2.m, th, k);
    assert m.slots == s2.m.slots[q := m.slots[q]] && m.slots == s.m.slots[q := m.slots[q]];
    Overwrites(s, t, th, done);
    assert pushOnly ==> s.ths[t := done] == s.ths;
  }

  /** With no job outstanding, and _tail not deleted, the list is one node. */
  lemma EmptyQueue(s: State, g: seq<Ghost>, q: Qid)
    requires Inv(s, g) && q < |s.m.slots| && s.m.slots[q].jobCount == 0
    requires s.m.slots[q].jobs.tail in s.m.slots[q].jobs.nodes
    ensures var jobs := s.m.slots[q].jobs;
            && jobs.tail == jobs.head && jobs.nodes[jobs.head].next == 0 && jobs.head < |jobs.addrs|
  {
    assert SlotInv(s.m, s.ths, g[q], q);
    var jobs, trail := s.m.slots[q].jobs, g[q].trail;
    ListNode(jobs, trail, jobs.tail);
    assert NodeOk(jobs, trail, trail.popped);
  }

  lemma PushesOne(m: Mem, q: Qid, call: Call, addr: Addr, was: Queue) returns (k: nat)
    requires q < |m.slots| && call.q == q && call.first && was.tail == was.head && was.head in was.nodes
    requires was.nodes[was.head].next == 0 && was.head < |was.addrs|
    requires m.slots[q].jobs == Alloc(was, addr, call.job) && m.slots[q].jobCount == 1
    ensures var slot, node := m.slots[q], |was.addrs|;
            var linked := was.nodes[was.head := Node(was.nodes[was.head].job, node)][node := Node(call.job, 0)];
            Solo(m, Thread(None, NoExec, Linking(call, node, LoadTail)), k)
            == (if call.pushOnly
                then Mem(m.slots[q := slot.(jobs := Queue(was.addrs + [addr], linked, was.head, node))], m.global + [q])
                else m.(slots := m.slots[q := Slot(0, Queue(was.addrs + [addr], linked - {was.head}, node, node),
                                                   slot.pushes, slot.executed + [call.job])]),
                Thread(None, NoExec, NoPush))
  {
    var slot, node := m.slots[q], |was.addrs|;
    var linked := was.nodes[was.head := Node(was.nodes[was.head].job, node)][node := Node(call.job, 0)];
    var jobs := Queue(was.addrs + [addr], linked, was.head, node);
    var m1 := With(m, q, jobs, slot.executed);
    if call.pushOnly {
      var i: nat := 0;
      var m2 := m1.(global := m.global + [q]);
      SoloStep(m1, Thread(None, NoExec, HandOff(call)), m2, Thread(None, NoExec, NoPush), i);
      SoloStep(m1, Thread(None, NoExec, Decide(call)), m1, Thread(None, NoExec, HandOff(call)), i + 1);
      k := i + 2;
    } else {
      k := RunsOne(m1, q, call);
      SoloStep(m1, Thread(None, NoExec, Decide(call)), m1, Thread(Some(q), Drain(q, [], LoadHead), NoPush), k);
      k := k + 1;
      assert linked[node] == Node(call.job, 0) && linked[was.head].next == node;
      var slot3 := Slot(0, Queue(was.addrs + [addr], linked - {was.head}, node, node), slot.pushes,
                        slot.executed + [call.job]);
      assert m1.slots[q := slot3] == m.slots[q := slot3];
    }
    LinksOne(m, q, call, addr, was, k);
    k := k + 4;
  }

  function InLink(call: Call, node: Ptr, pc: LinkPC): Thread {
    Thread(None, NoExec, Linking(call, node, pc))
  }

  /** The four accesses of Push(Node*) on a list of one node. */
  lemma LinksOne(m: Mem, q: Qid, call: Call, addr: Addr, was: Queue, k: nat)
    requires q < |m.slots| && call.q == q && was.tail == was.head && was.head in was.nodes
    requires was.nodes[was.head].next == 0 && was.head < |was.addrs|
    requires m.slots[q].jobs == Alloc(was, addr, call.job)
    ensures var node := |was.addrs|;
            var linked := was.nodes[was.head := Node(was.nodes[was.head].job, node)][node := Node(call.job, 0)];
            Solo(m, Thread(None, NoExec, Linking(call, node, LoadTail)), k + 4)
            == Solo(With(m, q, Queue(was.addrs + [addr], linked, was.head, node), m.slots[q].executed),
                    Thread(None, NoExec, Decide(call)), k)
  {
    var slot, node, p := m.slots[q], |was.addrs|, was.head;
    var linked := was.nodes[p := Node(was.nodes[p].job, node)][node := Node(call.job, 0)];
    assert was.nodes[node := Node(call.job, 0)][p := Node(was.nodes[p].job, node)] == linked;
    var m1 := With(m, q, Queue(was.addrs + [addr], linked, p, p), slot.executed);
    var m2 := With(m, q, Queue(was.addrs + [addr], linked, p, node), slot.executed);
    assert m.slots[q := slot] == m.slots && m1.slots[q := m2.slots[q]] == m.slots[q := m2.slots[q]];
    SoloStep(m, InLink(call, node, LoadTail), m, InLink(call, node, LoadNext(p)), k + 3);
    SoloStep(m, InLink(call, node, LoadNext(p)), m, InLink(call, node, LinkCas(p)), k + 2);
    SoloStep(m, InLink(call, node, LinkCas(p)), m1, InLink(call, node, SwingTail(p)), k + 1);
    SoloStep(m1, InLink(call, node, SwingTail(p)), m2, Thread(None, NoExec, Decide(call)), k);
  }

  /** Execute on a list of one job. */
  lemma RunsOne(m: Mem, q: Qid, call: Call) returns (k: nat)
    requires q < |m.slots| && m.slots[q].jobCount == 1
    requires var jobs := m.slots[q].jobs;
             jobs.head in jobs.nodes && jobs.nodes[jobs.head].next != 0 && jobs.nodes[jobs.head].next in jobs.nodes
             && jobs.nodes[jobs.head].next != jobs.head && jobs.nodes[jobs.nodes[jobs.head].next] == Node(call.job, 0)
    ensures var slot := m.slots[q];
            var next := slot.jobs.nodes[slot.jobs.head].next;
            Solo(m, Thread(Some(q), Drain(q, [], LoadHead), NoPush), k)
            == (m.(slots := m.slots[q := Slot(0, slot.jobs.(head := next, nodes := slot.jobs.nodes - {slot.jobs.head}),
                                              slot.pushes, slot.executed + [call.job])]),
                Thread(None, NoExec, NoPush))
  {
    var slot := m.slots[q];
    var next := slot.jobs.nodes[slot.jobs.head].next;
    var th := Thread(Some(q), Drain(q, [], LoadHead), NoPush);
    var jobs1 := slot.jobs.(head := next, nodes := slot.jobs.nodes - {slot.jobs.head});
    var m1 := With(m, q, jobs1, slot.executed);
    var m2 := With(m, q, jobs1, slot.executed + [call.job]);
    var m3 := m.(slots := m.slots[q := Slot(0, jobs1, slot.pushes, slot.executed + [call.job])]);
    var i: nat := 0;
    assert Draining(th, q, [], LoadHead) == th && [] + [call.job] == [call.job] && [call.job][0..] == [call.job];
    assert m1.slots[q := m2.slots[q]] == m.slots[q := m2.slots[q]] && m2.slots[q := m3.slots[q]] == m3.slots;
    TakesOne(m, th, q, [], i + 6);
    TakesNone(m1, th, q, [call.job], i + 4);
    RunsAll(m1, th, q, [call.job], 0, i + 1);
    SoloStep(m2, th.(exec := Subtract(q, 1)), m3, Thread(None, NoExec, NoPush), i);
    k := i + 11;
  }
}
