/** ServerCore/JobQueue.cpp with GlobalQueue.cpp and ThreadManager::DoGlobalQueueWork: any number of
    job queues and threads. `_jobCount` decides who runs a queue; the runner drains it and either
    gives it up or hands it to the global queue. Running jobs may push to any queue. Pop deletes the
    node it leaves, whoever still has it, and addresses of deleted nodes may be allocated again. A
    thread that follows a pointer to a deleted node stops there; the others go on. */
module JobQueue {
  import opened Wrappers
  import opened Counting
  import opened MpscQueue

  type Tid = nat
  type Qid = nat

  /** One call of Push: `first` is prevCount == 0. The job is named by its place among the calls
      of Push on that queue. */
  datatype Call = Call(q: Qid, job: Job, first: bool, pushOnly: bool)

  datatype PushPC =
    | NoPush
    | Announced(call: Call)  // after fetch_add
    | Linking(call: Call, node: Ptr, pc: LinkPC)
    | Decide(call: Call)  // after _jobs.Push
    | HandOff(call: Call)

  datatype ExecPC =
    | NoExec
    | Drain(q: Qid, items: seq<Job>, pc: PopPC)
    | Running(q: Qid, items: seq<Job>, i: nat, inJob: bool)
    | Subtract(q: Qid, n: nat)
    | CheckTick(q: Qid)
    | HandBack(q: Qid)

  /** current is LCurrentJobQueue. A push that a running job makes happens on top of exec. */
  datatype Thread = Thread(current: Option<Qid>, exec: ExecPC, push: PushPC)

  /** pushes counts the calls of Push so far; executed is the log of jobs in the order they ran. */
  datatype Slot = Slot(jobCount: int, jobs: Queue, pushes: nat, executed: seq<Job>)

  datatype Mem = Mem(slots: seq<Slot>, global: seq<Qid>)

  datatype State = State(m: Mem, ths: seq<Thread>)

  /** The environment: which Push a free thread or a running job calls, when a worker polls the global
      queue, which address the allocator returns, and whether the time slice is over. */
  datatype Choice = CallPush(q: Qid, pushOnly: bool) | Poll | Go(addr: Addr, late: bool)

  function Init(queues: nat, threads: nat): State {
    State(Mem(seq(queues, _ => Slot(0, Fresh(), 0, [])), []), seq(threads, _ => Thread(None, NoExec, NoPush)))
  }

  /** Only a thread outside Push that is idle or inside a job can call Push. */
  predicate MayCall(th: Thread) {
    th.push.NoPush? && (th.exec.NoExec? || (th.exec.Running? && th.exec.inJob))
  }

  function PushAct(m: Mem, th: Thread, c: Choice): (Mem, Thread) {
    match th.push
    case NoPush => (m, th)
    case Announced(call) =>
      if c.Go? && call.q < |m.slots| && CanAlloc(m.slots[call.q].jobs, c.addr) then
        var slot := m.slots[call.q];
        (m.(slots := m.slots[call.q := slot.(jobs := Alloc(slot.jobs, c.addr, call.job))]),
         th.(push := Linking(call, |slot.jobs.addrs|, LoadTail)))
      else (m, th)
    case Linking(call, node, pc) =>
      if call.q < |m.slots| then
        var slot := m.slots[call.q];
        var (jobs, pc') := LinkAct(slot.jobs, node, pc);
        (m.(slots := m.slots[call.q := slot.(jobs := jobs)]),
         th.(push := if pc'.LinkDone? then Decide(call) else Linking(call, node, pc')))
      else (m, th)
    case Decide(call) =>
      if !call.first then (m, th.(push := NoPush))
      else if th.current == None && !call.pushOnly then
        (m, Thread(Some(call.q), Drain(call.q, [], LoadHead), NoPush))
      else (m, th.(push := HandOff(call)))
    case HandOff(call) => (m.(global := m.global + [call.q]), th.(push := NoPush))
  }

  function ExecAct(m: Mem, th: Thread, c: Choice): (Mem, Thread) {
    match th.exec
    case NoExec => (m, th)
    case Drain(q, items, pc) =>
      if q < |m.slots| then
        var slot := m.slots[q];
        var (jobs, pc') := PopAct(slot.jobs, pc);
        (m.(slots := m.slots[q := slot.(jobs := jobs)]),
         th.(exec := match pc'
                     case GotNone => Running(q, items, 0, false)
                     case GotJob(job) => Drain(q, items + [job], LoadHead)
                     case _ => Drain(q, items, pc')))
      else (m, th)
    case Running(q, items, i, inJob) =>
      if inJob then (m, th.(exec := Running(q, items, i + 1, false)))
      else if i < |items| && q < |m.slots| then
        var slot := m.slots[q];
        (m.(slots := m.slots[q := slot.(executed := slot.executed + [items[i]])]),
         th.(exec := Running(q, items, i, true)))
      else (m, th.(exec := Subtract(q, |items|)))
    case Subtract(q, n) =>
      if q < |m.slots| then
        var slot := m.slots[q];
        (m.(slots := m.slots[q := slot.(jobCount := slot.jobCount - n)]),
         if slot.jobCount == n then Thread(None, NoExec, th.push) else th.(exec := CheckTick(q)))
      else (m, th)
    case CheckTick(q) =>
      (m, if c.Go? && c.late then Thread(None, HandBack(q), th.push) else th.(exec := Drain(q, [], LoadHead)))
    case HandBack(q) => (m.(global := m.global + [q]), th.(exec := NoExec))
  }

  function Act(m: Mem, th: Thread, c: Choice): (Mem, Thread) {
    if !th.push.NoPush? then PushAct(m, th, c)
    else if c.CallPush? && MayCall(th) && c.q < |m.slots| then
      var slot := m.slots[c.q];
      (m.(slots := m.slots[c.q := slot.(jobCount := slot.jobCount + 1, pushes := slot.pushes + 1)]),
       th.(push := Announced(Call(c.q, slot.pushes, slot.jobCount == 0, c.pushOnly))))
    else if c.Poll? && th.exec.NoExec? then
      if m.global == [] then (m, th)
      else (m.(global := m.global[1..]), Thread(Some(m.global[0]), Drain(m.global[0], [], LoadHead), NoPush))
    else ExecAct(m, th, c)
  }

  function Step(s: State, t: Tid, c: Choice): State
    requires t < |s.ths|
  {
    var (m, th) := Act(s.m, s.ths[t], c);
    State(m, s.ths[t := th])
  }

  datatype Move = Move(t: Tid, c: Choice)

  function Exec(s: State, moves: seq<Move>): State
    decreases |moves|
  {
    if moves == [] then s
    else Exec(if moves[0].t < |s.ths| then Step(s, moves[0].t, moves[0].c) else s, moves[1..])
  }

  // ---------------------------------------------------------------------------------------------
  // Who owns a queue, and which pushes have been announced but not linked.

  datatype Token = Nobody | OfPush(t: Tid) | OfExec(t: Tid) | InGlobal

  datatype Ghost = Ghost(trail: Trail, token: Token, inflight: map<Job, Tid>)

  ghost function InitGhost(queues: nat): seq<Ghost> {
    seq(queues, _ => Ghost(FreshTrail(), Nobody, map[]))
  }

  /** Between fetch_add and the CAS that links the node. */
  predicate Announces(p: PushPC, q: Qid) {
    !p.NoPush? && p.call.q == q && (p.Announced? || (p.Linking? && Pending(p.pc)))
  }

  function AnnouncedCount(ths: seq<Thread>, q: Qid): nat {
    Count(ths, (th: Thread) => Announces(th.push, q))
  }

  predicate PushHolds(p: PushPC, q: Qid) {
    !p.NoPush? && p.call.first && p.call.q == q
  }

  predicate ExecHolds(e: ExecPC, q: Qid) {
    !e.NoExec? && e.q == q
  }

  /** Popped and not yet run. */
  function Unrun(e: ExecPC): seq<Job> {
    match e
    case Drain(_, items, pc) => if pc.Free? then items + [pc.job] else items
    case Running(_, items, i, inJob) =>
      var k := if inJob then i + 1 else i;
      if k <= |items| then items[k..] else []
    case _ => []
  }

  /** Popped and not yet subtracted from _jobCount. */
  function Unsubtracted(e: ExecPC): nat {
    match e
    case Drain(_, items, pc) => if pc.Free? then |items| + 1 else |items|
    case Running(_, items, _, _) => |items|
    case Subtract(_, n) => n
    case _ => 0
  }

  /** The frame of the thread that runs the queue, if there is one. */
  function Runner(ths: seq<Thread>, token: Token): ExecPC {
    if token.OfExec? && token.t < |ths| then ths[token.t].exec else NoExec
  }

  ghost predicate TokenInv(m: Mem, ths: seq<Thread>, g: Ghost, q: Qid)
    requires q < |m.slots|
  {
    && (g.token == Nobody <==> m.slots[q].jobCount == 0)
    && multiset(m.global)[q] == (if g.token == InGlobal then 1 else 0)
    && (g.token.OfPush? ==> g.token.t < |ths| && PushHolds(ths[g.token.t].push, q))
    && (g.token.OfExec? ==> g.token.t < |ths| && ExecHolds(ths[g.token.t].exec, q))
  }

  ghost predicate CountInv(m: Mem, ths: seq<Thread>, g: Ghost, q: Qid)
    requires q < |m.slots|
  {
    var slot := m.slots[q];
    var run := Runner(ths, g.token);
    && ListInv(slot.jobs, g.trail)
    && slot.jobCount == |Contents(g.trail)| + Unsubtracted(run) + AnnouncedCount(ths, q)
    && slot.executed + Unrun(run) == g.trail.linked[..g.trail.popped]
    && (Freeing(run) || g.trail.freed == g.trail.popped)
  }

  /** Between the store of _head and the delete of the old head. */
  predicate Freeing(e: ExecPC) {
    e.Drain? && e.pc.Free?
  }

  ghost predicate NameInv(m: Mem, ths: seq<Thread>, g: Ghost, q: Qid)
    requires q < |m.slots|
  {
    && (forall k :: k in g.inflight ==>
          g.inflight[k] < |ths| && Announces(ths[g.inflight[k]].push, q) && ths[g.inflight[k]].push.call.job == k)
    && (forall k: nat :: k < m.slots[q].pushes <==> k in g.inflight || k in g.trail.linked)
    && (forall k :: k in g.inflight ==> k !in g.trail.linked)
    && (forall k :: k in g.trail.linked ==> multiset(g.trail.linked)[k] == 1)
  }

  ghost predicate SlotInv(m: Mem, ths: seq<Thread>, g: Ghost, q: Qid)
    requires q < |m.slots|
  {
    TokenInv(m, ths, g, q) && CountInv(m, ths, g, q) && NameInv(m, ths, g, q)
  }

  ghost predicate PushInv(m: Mem, g: seq<Ghost>, t: Tid, p: PushPC)
    requires |g| == |m.slots|
  {
    p.NoPush? ||
    (&& p.call.q < |g|
     && (p.call.first ==> g[p.call.q].token == OfPush(t))
     && (Announces(p, p.call.q) ==> p.call.job in g[p.call.q].inflight && g[p.call.q].inflight[p.call.job] == t)
     && (p.Linking? ==>
           Producer(m.slots[p.call.q].jobs, g[p.call.q].trail, p.node, p.call.job, p.pc) && !p.pc.LinkDone?)
     && (p.HandOff? ==> p.call.first))
  }

  ghost predicate ExecInv(m: Mem, g: seq<Ghost>, t: Tid, e: ExecPC)
    requires |g| == |m.slots|
  {
    e.NoExec? ||
    (&& e.q < |g| && g[e.q].token == OfExec(t)
     && (e.Drain? ==> Consumer(m.slots[e.q].jobs, g[e.q].trail, e.pc) && !e.pc.GotNone? && !e.pc.GotJob?)
     && (e.Running? ==> e.i <= |e.items| && (e.inJob ==> e.i < |e.items|)))
  }

  ghost predicate ThreadInv(m: Mem, g: seq<Ghost>, t: Tid, th: Thread)
    requires |g| == |m.slots|
  {
    && PushInv(m, g, t, th.push) && ExecInv(m, g, t, th.exec)
    && (th.current == None <==> th.exec.NoExec? || th.exec.HandBack?)
    && (!th.push.NoPush? ==> th.exec.NoExec? || (th.exec.Running? && th.exec.inJob))
  }

  ghost predicate Inv(s: State, g: seq<Ghost>) {
    && |g| == |s.m.slots|
    && (forall q :: q in s.m.global ==> q < |g|)
    && (forall q: nat :: q < |g| ==> SlotInv(s.m, s.ths, g[q], q))
    && (forall t: nat :: t < |s.ths| ==> ThreadInv(s.m, g, t, s.ths[t]))
  }

  lemma InitHolds(queues: nat, threads: nat)
    ensures Inv(Init(queues, threads), InitGhost(queues))
  {
    FreshInv();
    var s := Init(queues, threads);
    forall q: nat | q < queues
      ensures SlotInv(s.m, s.ths, InitGhost(queues)[q], q)
    {
      CountNone(s.ths, (th: Thread) => Announces(th.push, q));
    }
  }

  // ---------------------------------------------------------------------------------------------
  // A step of thread t concerns one queue; everything else is left alone.

  ghost predicate SameView(th: Thread, th': Thread, q: Qid) {
    && (Announces(th.push, q) <==> Announces(th'.push, q))
    && (Announces(th.push, q) ==> th.push.call.job == th'.push.call.job)
    && (PushHolds(th.push, q) <==> PushHolds(th'.push, q))
    && (ExecHolds(th.exec, q) ==> th'.exec == th.exec)
  }

  /** What the other threads may rely on for the queue that thread t's step concerns. */
  ghost predicate Rely(slot: Slot, g: Ghost, slot': Slot, g': Ghost, t: Tid, own: Ptr) {
    && ListInv(slot.jobs, g.trail) && ListInv(slot'.jobs, g'.trail)
    && Grows(slot.jobs, g.trail, slot'.jobs, g'.trail, own)
    && (own != 0 && own in slot.jobs.nodes && own !in g.trail.pos ==>
          var k := slot.jobs.nodes[own].job; k in g.inflight && g.inflight[k] == t)
    && (forall k :: k in g.inflight && g.inflight[k] != t ==> k in g'.inflight && g'.inflight[k] == g.inflight[k])
    && ((g.token.OfPush? || g.token.OfExec?) && g.token.t != t ==> g'.token == g.token)
    && (g.token.OfExec? && g.token.t != t ==>
          && slot'.jobs.head == slot.jobs.head && g'.trail.popped == g.trail.popped
          && g'.trail.freed == g.trail.freed)
  }

  lemma AnnouncedUpdate(ths: seq<Thread>, t: Tid, th: Thread, q: Qid)
    requires t < |ths|
    ensures AnnouncedCount(ths[t := th], q) + (if Announces(ths[t].push, q) then 1 else 0)
            == AnnouncedCount(ths, q) + (if Announces(th.push, q) then 1 else 0)
  {
    CountUpdate(ths, t, th, (th: Thread) => Announces(th.push, q));
  }

  lemma OtherSlot(m: Mem, m': Mem, ths: seq<Thread>, t: Tid, th: Thread, g: Ghost, q: Qid)
    requires t < |ths| && q < |m.slots| == |m'.slots| && m'.slots[q] == m.slots[q]
    requires multiset(m'.global)[q] == multiset(m.global)[q]
    requires SameView(ths[t], th, q) && SlotInv(m, ths, g, q)
    ensures SlotInv(m', ths[t := th], g, q)
  {
    AnnouncedUpdate(ths, t, th, q);
  }

  lemma OtherThread(m: Mem, m': Mem, g: seq<Ghost>, g': seq<Ghost>, t: Tid, u: Tid, th: Thread, qa: Qid, own: Ptr)
    requires u != t && qa < |g| == |m.slots| == |g'| == |m'.slots|
    requires forall q: nat :: q < |g| && q != qa ==> g'[q] == g[q] && m'.slots[q] == m.slots[q]
    requires Rely(m.slots[qa], g[qa], m'.slots[qa], g'[qa], t, own)
    requires ThreadInv(m, g, u, th)
    ensures ThreadInv(m', g', u, th)
  {
    var p := th.push;
    var e := th.exec;
    if p.Linking? && p.call.q == qa {
      ProducerStable(m.slots[qa].jobs, g[qa].trail, m'.slots[qa].jobs, g'[qa].trail, own,
                     p.node, p.call.job, p.pc);
    }
    if e.Drain? && e.q == qa {
      ConsumerStable(m.slots[qa].jobs, g[qa].trail, m'.slots[qa].jobs, g'[qa].trail, own, e.pc);
    }
  }

  /** A step that leaves the other queues alone ... */
  ghost predicate Frame(s: State, g: seq<Ghost>, t: Tid, s': State, g': seq<Ghost>, qa: Qid) {
    && t < |s.ths| == |s'.ths| && s'.ths == s.ths[t := s'.ths[t]]
    && qa < |g| == |g'| == |s.m.slots| == |s'.m.slots|
    && (forall q: nat :: q < |g| && q != qa ==>
          && s'.m.slots[q] == s.m.slots[q] && g'[q] == g[q]
          && multiset(s'.m.global)[q] == multiset(s.m.global)[q] && SameView(s.ths[t], s'.ths[t], q))
    && (forall q :: q in s'.m.global ==> q in s.m.global || q == qa)
  }

  /** ... and keeps its own queue and its own thread in order. */
  ghost predicate Local(s: State, g: seq<Ghost>, t: Tid, s': State, g': seq<Ghost>, qa: Qid, own: Ptr) {
    && Frame(s, g, t, s', g', qa)
    && SlotInv(s'.m, s'.ths, g'[qa], qa) && ThreadInv(s'.m, g', t, s'.ths[t])
    && Rely(s.m.slots[qa], g[qa], s'.m.slots[qa], g'[qa], t, own)
  }

  lemma AssembleSlots(s: State, g: seq<Ghost>, t: Tid, s': State, g': seq<Ghost>, qa: Qid)
    requires Frame(s, g, t, s', g', qa) && SlotInv(s'.m, s'.ths, g'[qa], qa)
    requires forall q: nat :: q < |g| ==> SlotInv(s.m, s.ths, g[q], q)
    requires forall q :: q in s.m.global ==> q < |g|
    ensures forall q: nat :: q < |g'| ==> SlotInv(s'.m, s'.ths, g'[q], q)
    ensures forall q :: q in s'.m.global ==> q < |g'|
  {
    forall q: nat | q < |g'| ensures SlotInv(s'.m, s'.ths, g'[q], q) {
      if q != qa {
        OtherSlot(s.m, s'.m, s.ths, t, s'.ths[t], g[q], q);
      }
    }
  }

  lemma AssembleThreads(s: State, g: seq<Ghost>, t: Tid, s': State, g': seq<Ghost>, qa: Qid, own: Ptr)
    requires Local(s, g, t, s', g', qa, own)
    requires forall u: nat :: u < |s.ths| ==> ThreadInv(s.m, g, u, s.ths[u])
    ensures forall u: nat :: u < |s'.ths| ==> ThreadInv(s'.m, g', u, s'.ths[u])
  {
    forall u: nat | u < |s'.ths| ensures ThreadInv(s'.m, g', u, s'.ths[u]) {
      if u != t {
        OtherThread(s.m, s'.m, g, g', t, u, s.ths[u], qa, own);
      }
    }
  }

  /** What a step lemma may use: its own thread, and the queue q it works on. */
  ghost predicate Ready(s: State, g: seq<Ghost>, t: Tid, q: Qid) {
    && t < |s.ths| && q < |g| == |s.m.slots| && ThreadInv(s.m, g, t, s.ths[t]) && SlotInv(s.m, s.ths, g[q], q)
    && (forall q :: q in s.m.global ==> q < |g|)
  }

  /** How the bookkeeping follows a step. */
  ghost function Track(s: State, g: seq<Ghost>, t: Tid, c: Choice): (g': seq<Ghost>)
    requires t < |s.ths| && |g| == |s.m.slots| && ThreadInv(s.m, g, t, s.ths[t])
    requires forall q :: q in s.m.global ==> q < |g|
    ensures |g'| == |g|
  {
    var th := s.ths[t];
    assert s.m.global != [] ==> s.m.global[0] in s.m.global;
    if !th.push.NoPush? then
      var q := th.push.call.q;
      var call := th.push.call;
      match th.push
      case Linking(_, node, pc) =>
        var jobs := s.m.slots[q].jobs;
        g[q := g[q].(trail := LinkTrack(jobs, g[q].trail, node, call.job, pc),
                     inflight := if Links(jobs, pc) then g[q].inflight - {call.job} else g[q].inflight)]
      case Decide(_) =>
        if call.first && th.current == None && !call.pushOnly then g[q := g[q].(token := OfExec(t))] else g
      case HandOff(_) => g[q := g[q].(token := InGlobal)]
      case _ => g
    else if c.CallPush? && MayCall(th) && c.q < |g| then
      var slot := s.m.slots[c.q];
      g[c.q := g[c.q].(token := if slot.jobCount == 0 then OfPush(t) else g[c.q].token,
                       inflight := g[c.q].inflight[slot.pushes := t])]
    else if c.Poll? && th.exec.NoExec? then
      if s.m.global == [] then g else g[s.m.global[0] := g[s.m.global[0]].(token := OfExec(t))]
    else
      match th.exec
      case Drain(q, _, pc) => g[q := g[q].(trail := PopTrack(g[q].trail, pc))]
      case Subtract(q, n) => if s.m.slots[q].jobCount == n then g[q := g[q].(token := Nobody)] else g
      case HandBack(q) => g[q := g[q].(token := InGlobal)]
      case _ => g
  }

  lemma StepCall(s: State, g: seq<Ghost>, t: Tid, c: Choice)
    requires t < |s.ths|
    requires s.ths[t].push.NoPush? && c.CallPush? && MayCall(s.ths[t]) && c.q < |g|
    requires Ready(s, g, t, c.q)
    ensures Local(s, g, t, Step(s, t, c), Track(s, g, t, c), c.q, 0)
  {
    CallSlot(s, g, t, c);
    var s' := Step(s, t, c);
    var g' := Track(s, g, t, c);
    assert Frame(s, g, t, s', g', c.q);
    assert ThreadInv(s'.m, g', t, s'.ths[t]);
  }

  lemma CallSlot(s: State, g: seq<Ghost>, t: Tid, c: Choice)
    requires t < |s.ths|
    requires s.ths[t].push.NoPush? && c.CallPush? && MayCall(s.ths[t]) && c.q < |g|
    requires Ready(s, g, t, c.q)
    ensures |Step(s, t, c).m.slots| == |g| && SlotInv(Step(s, t, c).m, Step(s, t, c).ths, Track(s, g, t, c)[c.q], c.q)
  {
    var s' := Step(s, t, c);
    var g' := Track(s, g, t, c);
    var q := c.q;
    AnnouncedUpdate(s.ths, t, s'.ths[t], q);
    assert TokenInv(s'.m, s'.ths, g'[q], q);
    assert CountInv(s'.m, s'.ths, g'[q], q);
    assert NameInv(s'.m, s'.ths, g'[q], q);
  }

  lemma StepAlloc(s: State, g: seq<Ghost>, t: Tid, c: Choice)
    requires t < |s.ths| && s.ths[t].push.Announced?
    requires Ready(s, g, t, s.ths[t].push.call.q)
    ensures Local(s, g, t, Step(s, t, c), Track(s, g, t, c), s.ths[t].push.call.q, Allocated(s, t, c))
  {
    if Step(s, t, c).ths[t].push.Linking? {
      AllocSlot(s, g, t, c);
      AllocThread(s, g, t, c);
      AllocFrame(s, g, t, c);
    } else {
      assert Step(s, t, c) == s && Track(s, g, t, c) == g;
      Stutter(s, g, t, s.ths[t].push.call.q);
    }
  }

  /** The node that the step allocates, if any. */
  function Allocated(s: State, t: Tid, c: Choice): Ptr
    requires t < |s.ths|
  {
    var p := Step(s, t, c).ths[t].push;
    if s.ths[t].push.Announced? && p.Linking? then p.node else 0
  }

  lemma AllocFrame(s: State, g: seq<Ghost>, t: Tid, c: Choice)
    requires t < |s.ths| && s.ths[t].push.Announced? && Step(s, t, c).ths[t].push.Linking?
    requires Ready(s, g, t, s.ths[t].push.call.q)
    ensures Frame(s, g, t, Step(s, t, c), Track(s, g, t, c), s.ths[t].push.call.q)
  {
  }

  lemma Stutter(s: State, g: seq<Ghost>, t: Tid, q: Qid)
    requires t < |s.ths| && Ready(s, g, t, q)
    ensures Local(s, g, t, s, g, q, 0)
  {
  }

  lemma AllocThread(s: State, g: seq<Ghost>, t: Tid, c: Choice)
    requires t < |s.ths| && s.ths[t].push.Announced? && Step(s, t, c).ths[t].push.Linking?
    requires Ready(s, g, t, s.ths[t].push.call.q)
    ensures |Step(s, t, c).m.slots| == |g| && |Step(s, t, c).ths| == |s.ths|
    ensures ThreadInv(Step(s, t, c).m, Track(s, g, t, c), t, Step(s, t, c).ths[t])
    ensures var q := s.ths[t].push.call.q;
            Rely(s.m.slots[q], g[q], Step(s, t, c).m.slots[q], Track(s, g, t, c)[q], t, Allocated(s, t, c))
  {
    var call := s.ths[t].push.call;
    AllocStep(s.m.slots[call.q].jobs, g[call.q].trail, c.addr, call.job);
  }

  lemma AllocSlot(s: State, g: seq<Ghost>, t: Tid, c: Choice)
    requires t < |s.ths| && s.ths[t].push.Announced? && Step(s, t, c).ths[t].push.Linking?
    requires Ready(s, g, t, s.ths[t].push.call.q)
    ensures var q := s.ths[t].push.call.q;
            |Step(s, t, c).m.slots| == |g| && SlotInv(Step(s, t, c).m, Step(s, t, c).ths, Track(s, g, t, c)[q], q)
  {
    var s' := Step(s, t, c);
    var g' := Track(s, g, t, c);
    var q := s.ths[t].push.call.q;
    AllocStep(s.m.slots[q].jobs, g[q].trail, c.addr, s.ths[t].push.call.job);
    AnnouncedUpdate(s.ths, t, s'.ths[t], q);
    assert CountInv(s'.m, s'.ths, g'[q], q);
  }

  /** The queue's own invariant across a step of Push(Node*): either nothing abstract changes, or
      the announced job becomes the last one of the list. */
  lemma LinkingSlot(m: Mem, m': Mem, ths: seq<Thread>, t: Tid, th: Thread, g: Ghost, g': Ghost, q: Qid, linked: bool)
    requires t < |ths| && q < |m.slots| == |m'.slots| && SlotInv(m, ths, g, q) && ths[t].push.Linking?
    requires m'.global == m.global && m'.slots[q] == m.slots[q].(jobs := m'.slots[q].jobs)
    requires ListInv(m'.slots[q].jobs, g'.trail) && g'.trail.popped == g.trail.popped
    requires g'.trail.freed == g.trail.freed
    requires g'.token == g.token && th.exec == ths[t].exec
    requires PushHolds(th.push, q) <==> PushHolds(ths[t].push, q)
    requires Announces(th.push, q) <==> Announces(ths[t].push, q) && !linked
    requires Announces(th.push, q) ==> th.push.call == ths[t].push.call
    requires linked ==> Announces(ths[t].push, q) && Has(g.inflight, ths[t].push.call.job, t)
    requires g'.trail.linked == if linked then g.trail.linked + [ths[t].push.call.job] else g.trail.linked
    requires g'.inflight == if linked then g.inflight - {ths[t].push.call.job} else g.inflight
    ensures SlotInv(m', ths[t := th], g', q)
  {
    AnnouncedUpdate(ths, t, th, q);
    assert TokenInv(m', ths[t := th], g', q);
    assert CountInv(m', ths[t := th], g', q);
    if linked {
      LinkedNames(m, m', ths, t, th, g, g', q);
    }
    assert NameInv(m', ths[t := th], g', q);
  }

  ghost predicate Has(m: map<Job, Tid>, k: Job, t: Tid) {
    k in m && m[k] == t
  }

  lemma LinkedNames(m: Mem, m': Mem, ths: seq<Thread>, t: Tid, th: Thread, g: Ghost, g': Ghost, q: Qid)
    requires t < |ths| && q < |m.slots| == |m'.slots| && NameInv(m, ths, g, q)
    requires m'.slots[q].pushes == m.slots[q].pushes && Announces(ths[t].push, q)
    requires var k := ths[t].push.call.job;
             Has(g.inflight, k, t) && g'.trail.linked == g.trail.linked + [k] && g'.inflight == g.inflight - {k}
    ensures NameInv(m', ths[t := th], g', q)
  {
    var k := ths[t].push.call.job;
    forall j: nat
      ensures j < m'.slots[q].pushes <==> j in g'.inflight || j in g'.trail.linked
    {
      assert j in g'.trail.linked <==> j in g.trail.linked || j == k;
    }
  }

  lemma PushFrame(s: State, g: seq<Ghost>, t: Tid, s': State, gq: Ghost, q: Qid)
    requires t < |s.ths| == |s'.ths| && q < |g| == |s.m.slots| == |s'.m.slots| && s'.m.global == s.m.global
    requires s'.ths == s.ths[t := s'.ths[t]] && s'.m.slots == s.m.slots[q := s'.m.slots[q]]
    requires s'.ths[t].exec == s.ths[t].exec && !s.ths[t].push.NoPush? && s.ths[t].push.call.q == q
    requires !s'.ths[t].push.NoPush? && s'.ths[t].push.call.q == q
    ensures Frame(s, g, t, s', g[q := gq], q)
  {
  }

  lemma LinkingRely(slot: Slot, g: Ghost, slot': Slot, g': Ghost, t: Tid, p: PushPC, linked: bool)
    requires ListInv(slot.jobs, g.trail) && ListInv(slot'.jobs, g'.trail)
    requires p.Linking? && !p.pc.LinkDone? && Producer(slot.jobs, g.trail, p.node, p.call.job, p.pc)
    requires Pending(p.pc) ==> Has(g.inflight, p.call.job, t)
    requires linked ==> Pending(p.pc)
    requires Grows(slot.jobs, g.trail, slot'.jobs, g'.trail, p.node) && g'.trail.freed == g.trail.freed
    requires g'.token == g.token && slot'.jobs.head == slot.jobs.head && g'.trail.popped == g.trail.popped
    requires g'.inflight == if linked then g.inflight - {p.call.job} else g.inflight
    ensures Rely(slot, g, slot', g', t, p.node)
  {
    if p.node !in g.trail.pos {
      OwnNode(slot.jobs, g.trail, p.node, p.call.job, p.pc);
    }
  }

  ghost predicate LinkingStep(s: State, g: seq<Ghost>, t: Tid, s': State, jobs: Queue, pc: LinkPC, trail: Trail,
                              linked: bool)
  {
    && t < |s.ths| && s.ths[t].push.Linking? && Ready(s, g, t, s.ths[t].push.call.q)
    && var p := s.ths[t].push;
    var q := p.call.q;
    var before := s.m.slots[q].jobs;
    && ListInv(jobs, trail) && Producer(jobs, trail, p.node, p.call.job, pc)
    && Grows(before, g[q].trail, jobs, trail, p.node)
    && jobs.head == before.head && trail.popped == g[q].trail.popped && trail.freed == g[q].trail.freed
    && (Pending(pc) <==> Pending(p.pc) && !linked) && (linked ==> Pending(p.pc))
    && trail.linked == (if linked then g[q].trail.linked + [p.call.job] else g[q].trail.linked)
    && s' == State(s.m.(slots := s.m.slots[q := s.m.slots[q].(jobs := jobs)]),
                   s.ths[t := s.ths[t].(push := if pc.LinkDone? then Decide(p.call)
                                                else Linking(p.call, p.node, pc))])
  }

  function LinkingGhost(g: Ghost, job: Job, trail: Trail, linked: bool): Ghost {
    g.(trail := trail, inflight := if linked then g.inflight - {job} else g.inflight)
  }

  lemma LinkingToSlot(s: State, g: seq<Ghost>, t: Tid, s': State, jobs: Queue, pc: LinkPC, trail: Trail, linked: bool)
    requires LinkingStep(s, g, t, s', jobs, pc, trail, linked)
    ensures var p := s.ths[t].push;
            SlotInv(s'.m, s'.ths, LinkingGhost(g[p.call.q], p.call.job, trail, linked), p.call.q)
  {
    var p := s.ths[t].push;
    var q := p.call.q;
    LinkingSlot(s.m, s'.m, s.ths, t, s'.ths[t], g[q], LinkingGhost(g[q], p.call.job, trail, linked), q, linked);
  }

  /** A step of Push(Node*) on the queue seen from outside: all that matters is what LinkStep says. */
  lemma LinkingLocal(s: State, g: seq<Ghost>, t: Tid, s': State, jobs: Queue, pc: LinkPC, trail: Trail, linked: bool)
    requires LinkingStep(s, g, t, s', jobs, pc, trail, linked)
    ensures var p := s.ths[t].push;
            var q := p.call.q;
            Local(s, g, t, s', g[q := LinkingGhost(g[q], p.call.job, trail, linked)], q, p.node)
  {
    var p := s.ths[t].push;
    var q := p.call.q;
    var gq := LinkingGhost(g[q], p.call.job, trail, linked);
    LinkingToSlot(s, g, t, s', jobs, pc, trail, linked);
    PushFrame(s, g, t, s', gq, q);
    LinkingThread(s, g, t, s', jobs, pc, trail, linked);
    LinkingRely(s.m.slots[q], g[q], s'.m.slots[q], gq, t, p, linked);
  }

  lemma LinkingThread(s: State, g: seq<Ghost>, t: Tid, s': State, jobs: Queue, pc: LinkPC, trail: Trail, linked: bool)
    requires LinkingStep(s, g, t, s', jobs, pc, trail, linked)
    ensures var p := s.ths[t].push;
            ThreadInv(s'.m, g[p.call.q := LinkingGhost(g[p.call.q], p.call.job, trail, linked)], t, s'.ths[t])
  {
  }

  lemma StepLinking(s: State, g: seq<Ghost>, t: Tid, c: Choice)
    requires t < |s.ths| && s.ths[t].push.Linking?
    requires Ready(s, g, t, s.ths[t].push.call.q)
    ensures Local(s, g, t, Step(s, t, c), Track(s, g, t, c), s.ths[t].push.call.q, s.ths[t].push.node)
  {
    var Linking(call, node, pc) := s.ths[t].push;
    var jobs := s.m.slots[call.q].jobs;
    var (jobs', pc') := LinkAct(jobs, node, pc);
    LinkStep(jobs, g[call.q].trail, node, call.job, pc);
    LinkingLocal(s, g, t, Step(s, t, c), jobs', pc',
                 LinkTrack(jobs, g[call.q].trail, node, call.job, pc), Links(jobs, pc));
  }

  lemma StepDecide(s: State, g: seq<Ghost>, t: Tid, c: Choice)
    requires t < |s.ths| && s.ths[t].push.Decide?
    requires Ready(s, g, t, s.ths[t].push.call.q)
    ensures Local(s, g, t, Step(s, t, c), Track(s, g, t, c), s.ths[t].push.call.q, 0)
  {
    DecideSlot(s, g, t, c);
    DecideThread(s, g, t, c);
    DecideFrame(s, g, t, c);
  }

  lemma DecideFrame(s: State, g: seq<Ghost>, t: Tid, c: Choice)
    requires t < |s.ths| && s.ths[t].push.Decide?
    requires Ready(s, g, t, s.ths[t].push.call.q)
    ensures Frame(s, g, t, Step(s, t, c), Track(s, g, t, c), s.ths[t].push.call.q)
  {
  }

  lemma DecideThread(s: State, g: seq<Ghost>, t: Tid, c: Choice)
    requires t < |s.ths| && s.ths[t].push.Decide?
    requires Ready(s, g, t, s.ths[t].push.call.q)
    ensures |Step(s, t, c).m.slots| == |g| && |Step(s, t, c).ths| == |s.ths|
    ensures ThreadInv(Step(s, t, c).m, Track(s, g, t, c), t, Step(s, t, c).ths[t])
  {
  }

  lemma DecideSlot(s: State, g: seq<Ghost>, t: Tid, c: Choice)
    requires t < |s.ths| && s.ths[t].push.Decide?
    requires Ready(s, g, t, s.ths[t].push.call.q)
    ensures var q := s.ths[t].push.call.q;
            |Step(s, t, c).m.slots| == |g| && SlotInv(Step(s, t, c).m, Step(s, t, c).ths, Track(s, g, t, c)[q], q)
  {
    var s' := Step(s, t, c);
    var g' := Track(s, g, t, c);
    var q := s.ths[t].push.call.q;
    AnnouncedUpdate(s.ths, t, s'.ths[t], q);
    assert TokenInv(s'.m, s'.ths, g'[q], q);
    assert CountInv(s'.m, s'.ths, g'[q], q);
  }

  lemma StepHandOff(s: State, g: seq<Ghost>, t: Tid, c: Choice)
    requires t < |s.ths| && s.ths[t].push.HandOff?
    requires Ready(s, g, t, s.ths[t].push.call.q)
    ensures Local(s, g, t, Step(s, t, c), Track(s, g, t, c), s.ths[t].push.call.q, 0)
  {
    var s' := Step(s, t, c);
    var g' := Track(s, g, t, c);
    HandOffSlot(s, g, t, c);
    assert Frame(s, g, t, s', g', s.ths[t].push.call.q);
    assert ThreadInv(s'.m, g', t, s'.ths[t]);
  }

  lemma HandOffSlot(s: State, g: seq<Ghost>, t: Tid, c: Choice)
    requires t < |s.ths| && s.ths[t].push.HandOff?
    requires Ready(s, g, t, s.ths[t].push.call.q)
    ensures var q := s.ths[t].push.call.q;
            |Step(s, t, c).m.slots| == |g| && SlotInv(Step(s, t, c).m, Step(s, t, c).ths, Track(s, g, t, c)[q], q)
  {
    var s' := Step(s, t, c);
    var g' := Track(s, g, t, c);
    var q := s.ths[t].push.call.q;
    AnnouncedUpdate(s.ths, t, s'.ths[t], q);
    assert TokenInv(s'.m, s'.ths, g'[q], q);
    assert CountInv(s'.m, s'.ths, g'[q], q);
  }

  lemma StepPoll(s: State, g: seq<Ghost>, t: Tid, c: Choice)
    requires t < |s.ths| && s.ths[t].push.NoPush? && c.Poll? && s.ths[t].exec.NoExec? && s.m.global != []
    requires Ready(s, g, t, s.m.global[0])
    ensures Local(s, g, t, Step(s, t, c), Track(s, g, t, c), s.m.global[0], 0)
  {
    var s' := Step(s, t, c);
    var g' := Track(s, g, t, c);
    var q := s.m.global[0];
    assert s.m.global == [q] + s.m.global[1..];
    AnnouncedUpdate(s.ths, t, s'.ths[t], q);
    assert TokenInv(s'.m, s'.ths, g'[q], q);
    assert CountInv(s'.m, s'.ths, g'[q], q);
  }

  /** The queue's own invariant across a step of Pop: either nothing abstract changes, or the oldest
      job moves from the queue to the end of the runner's batch. */
  lemma DrainSlot(m: Mem, m': Mem, ths: seq<Thread>, t: Tid, th: Thread, g: Ghost, g': Ghost, q: Qid)
    requires t < |ths| && q < |m.slots| == |m'.slots| && SlotInv(m, ths, g, q)
    requires ths[t].exec.Drain? && ths[t].exec.q == q && g.token == OfExec(t)
    requires m'.global == m.global && m'.slots[q] == m.slots[q].(jobs := m'.slots[q].jobs)
    requires ListInv(m'.slots[q].jobs, g'.trail) && g' == g.(trail := g'.trail) && g'.trail.linked == g.trail.linked
    requires th.push == ths[t].push && ExecHolds(th.exec, q)
    requires Unsubtracted(th.exec) == |Unrun(th.exec)| && (Freeing(th.exec) || g'.trail.freed == g'.trail.popped)
    requires || (Contents(g'.trail) == Contents(g.trail) && Unrun(th.exec) == Unrun(ths[t].exec))
             || (Contents(g.trail) != [] && Contents(g'.trail) == Contents(g.trail)[1..]
                 && Unrun(th.exec) == Unrun(ths[t].exec) + [Contents(g.trail)[0]])
    ensures SlotInv(m', ths[t := th], g', q)
  {
    AnnouncedUpdate(ths, t, th, q);
    assert TokenInv(m', ths[t := th], g', q);
    var l := g.trail.linked;
    assert |Contents(g.trail)| == |l| - g.trail.popped;
    if g'.trail.popped != g.trail.popped {
      assert l[..g.trail.popped] + [l[g.trail.popped]] == l[..g'.trail.popped];
    }
    assert CountInv(m', ths[t := th], g', q);
  }

  lemma StepDrain(s: State, g: seq<Ghost>, t: Tid, c: Choice)
    requires t < |s.ths| && s.ths[t].push.NoPush? && s.ths[t].exec.Drain?
    requires Ready(s, g, t, s.ths[t].exec.q)
    ensures Local(s, g, t, Step(s, t, c), Track(s, g, t, c), s.ths[t].exec.q, 0)
  {
    var s' := Step(s, t, c);
    var g' := Track(s, g, t, c);
    DrainSlotInv(s, g, t, c);
    DrainThread(s, g, t, c);
    assert Frame(s, g, t, s', g', s.ths[t].exec.q);
  }

  lemma DrainThread(s: State, g: seq<Ghost>, t: Tid, c: Choice)
    requires t < |s.ths| && s.ths[t].push.NoPush? && s.ths[t].exec.Drain?
    requires Ready(s, g, t, s.ths[t].exec.q)
    ensures |Step(s, t, c).m.slots| == |g| && |Step(s, t, c).ths| == |s.ths|
    ensures ThreadInv(Step(s, t, c).m, Track(s, g, t, c), t, Step(s, t, c).ths[t])
    ensures var q := s.ths[t].exec.q;
            Rely(s.m.slots[q], g[q], Step(s, t, c).m.slots[q], Track(s, g, t, c)[q], t, 0)
  {
    var Drain(q, items, pc) := s.ths[t].exec;
    PopStep(s.m.slots[q].jobs, g[q].trail, pc);
  }

  lemma DrainSlotInv(s: State, g: seq<Ghost>, t: Tid, c: Choice)
    requires t < |s.ths| && s.ths[t].push.NoPush? && s.ths[t].exec.Drain?
    requires Ready(s, g, t, s.ths[t].exec.q)
    ensures var q := s.ths[t].exec.q;
            |Step(s, t, c).m.slots| == |g| && SlotInv(Step(s, t, c).m, Step(s, t, c).ths, Track(s, g, t, c)[q], q)
  {
    var s' := Step(s, t, c);
    var g' := Track(s, g, t, c);
    var Drain(q, items, pc) := s.ths[t].exec;
    PopStep(s.m.slots[q].jobs, g[q].trail, pc);
    DrainFrame(s.ths[t].exec, s'.ths[t].exec, s.m.slots[q].jobs, g[q].trail);
    DrainSlot(s.m, s'.m, s.ths, t, s'.ths[t], g[q], g'[q], q);
  }

  /** What a step of Pop does to the runner's batch. */
  lemma DrainFrame(e: ExecPC, e': ExecPC, jobs: Queue, g: Trail)
    requires e.Drain? && ListInv(jobs, g) && Consumer(jobs, g, e.pc) && !e.pc.GotNone? && !e.pc.GotJob?
    requires var pc' := PopAct(jobs, e.pc).1;
             e' == match pc'
                   case GotNone => Running(e.q, e.items, 0, false)
                   case GotJob(job) => Drain(e.q, e.items + [job], LoadHead)
                   case _ => Drain(e.q, e.items, pc')
    ensures Unsubtracted(e') == |Unrun(e')|
    ensures Unrun(e') == if e.pc.StoreHead? then Unrun(e) + [e.pc.job] else Unrun(e)
    ensures Freeing(e') || PopTrack(g, e.pc).freed == PopTrack(g, e.pc).popped
  {
    PopStep(jobs, g, e.pc);
  }

  lemma Regroup(e: seq<Job>, ran: seq<Job>, rest: seq<Job>, unrun: seq<Job>, all: seq<Job>)
    requires e + unrun == all && unrun == ran + rest
    ensures (e + ran) + rest == all
  {
  }

  /** Starting a job moves it from the batch to the log. */
  lemma StartsJob(e: ExecPC, e': ExecPC) returns (ran: seq<Job>)
    requires e.Running? && !e.inJob && e.i < |e.items| && e' == Running(e.q, e.items, e.i, true)
    ensures ran == [e.items[e.i]] && Unrun(e) == ran + Unrun(e') && Unsubtracted(e') == Unsubtracted(e)
  {
    ran := [e.items[e.i]];
  }

  lemma RunCount(m: Mem, m': Mem, ths: seq<Thread>, t: Tid, th: Thread, g: Ghost, q: Qid, ran: seq<Job>)
    requires t < |ths| && q < |m.slots| == |m'.slots| && CountInv(m, ths, g, q)
    requires m'.slots[q] == m.slots[q].(executed := m.slots[q].executed + ran)
    requires th.push == ths[t].push && g.token == OfExec(t) && !Freeing(ths[t].exec)
    requires Unrun(ths[t].exec) == ran + Unrun(th.exec) && Unsubtracted(th.exec) == Unsubtracted(ths[t].exec)
    ensures CountInv(m', ths[t := th], g, q)
  {
    AnnouncedUpdate(ths, t, th, q);
    Regroup(m.slots[q].executed, ran, Unrun(th.exec), Unrun(ths[t].exec), g.trail.linked[..g.trail.popped]);
  }

  lemma NameFrame(m: Mem, m': Mem, ths: seq<Thread>, t: Tid, th: Thread, g: Ghost, q: Qid)
    requires t < |ths| && q < |m.slots| == |m'.slots| && NameInv(m, ths, g, q)
    requires m'.slots[q].pushes == m.slots[q].pushes && th.push == ths[t].push
    ensures NameInv(m', ths[t := th], g, q)
  {
  }

  ghost predicate RunStep(s: State, g: seq<Ghost>, t: Tid, s': State, e': ExecPC, ran: seq<Job>) {
    && t < |s.ths| && s.ths[t].push.NoPush? && s.ths[t].exec.Running? && Ready(s, g, t, s.ths[t].exec.q)
    && var e := s.ths[t].exec;
    && s' == State(s.m.(slots := s.m.slots[e.q := s.m.slots[e.q].(executed := s.m.slots[e.q].executed + ran)]),
                   s.ths[t := s.ths[t].(exec := e')])
    && (e'.Running? || e'.Subtract?) && e'.q == e.q
    && (e'.Running? ==> e'.i <= |e'.items| && (e'.inJob ==> e'.i < |e'.items|))
    && Unrun(e) == ran + Unrun(e') && Unsubtracted(e') == Unsubtracted(e)
  }

  /** A step of the loop that runs the batch, seen from outside. */
  lemma RunLocal(s: State, g: seq<Ghost>, t: Tid, s': State, e': ExecPC, ran: seq<Job>)
    requires RunStep(s, g, t, s', e', ran)
    ensures Local(s, g, t, s', g, s.ths[t].exec.q, 0)
  {
    RunSlot(s, g, t, s', e', ran);
  }

  lemma RunSlot(s: State, g: seq<Ghost>, t: Tid, s': State, e': ExecPC, ran: seq<Job>)
    requires RunStep(s, g, t, s', e', ran)
    ensures SlotInv(s'.m, s'.ths, g[s.ths[t].exec.q], s.ths[t].exec.q)
  {
    var q := s.ths[t].exec.q;
    RunCount(s.m, s'.m, s.ths, t, s'.ths[t], g[q], q, ran);
    NameFrame(s.m, s'.m, s.ths, t, s'.ths[t], g[q], q);
    assert TokenInv(s'.m, s'.ths, g[q], q);
  }

  lemma StepRun(s: State, g: seq<Ghost>, t: Tid, c: Choice)
    requires t < |s.ths| && s.ths[t].push.NoPush? && s.ths[t].exec.Running?
    requires c.CallPush? ==> !MayCall(s.ths[t]) || c.q >= |g|
    requires Ready(s, g, t, s.ths[t].exec.q)
    ensures Local(s, g, t, Step(s, t, c), Track(s, g, t, c), s.ths[t].exec.q, 0)
  {
    var e := s.ths[t].exec;
    var e' := Step(s, t, c).ths[t].exec;
    var slot := s.m.slots[e.q];
    if !e.inJob && e.i < |e.items| {
      var ran := StartsJob(e, e');
      RunLocal(s, g, t, Step(s, t, c), e', ran);
    } else {
      assert slot.executed + [] == slot.executed;
      assert s.m.slots[e.q := slot] == s.m.slots;
      RunLocal(s, g, t, Step(s, t, c), e', []);
    }
  }

  lemma StepSubtract(s: State, g: seq<Ghost>, t: Tid, c: Choice)
    requires t < |s.ths| && s.ths[t].push.NoPush? && s.ths[t].exec.Subtract?
    requires Ready(s, g, t, s.ths[t].exec.q)
    ensures Local(s, g, t, Step(s, t, c), Track(s, g, t, c), s.ths[t].exec.q, 0)
  {
    var s' := Step(s, t, c);
    var g' := Track(s, g, t, c);
    var q := s.ths[t].exec.q;
    SubtractSlot(s, g, t, c);
    assert Frame(s, g, t, s', g', q);
    assert ThreadInv(s'.m, g', t, s'.ths[t]);
  }

  lemma SubtractSlot(s: State, g: seq<Ghost>, t: Tid, c: Choice)
    requires t < |s.ths| && s.ths[t].push.NoPush? && s.ths[t].exec.Subtract?
    requires Ready(s, g, t, s.ths[t].exec.q)
    ensures var q := s.ths[t].exec.q;
            |Step(s, t, c).m.slots| == |g| && SlotInv(Step(s, t, c).m, Step(s, t, c).ths, Track(s, g, t, c)[q], q)
  {
    var s' := Step(s, t, c);
    var g' := Track(s, g, t, c);
    var q := s.ths[t].exec.q;
    AnnouncedUpdate(s.ths, t, s'.ths[t], q);
    assert TokenInv(s'.m, s'.ths, g'[q], q);
    assert CountInv(s'.m, s'.ths, g'[q], q);
    assert NameInv(s'.m, s'.ths, g'[q], q);
  }

  lemma StepCheckTick(s: State, g: seq<Ghost>, t: Tid, c: Choice)
    requires t < |s.ths| && s.ths[t].push.NoPush? && s.ths[t].exec.CheckTick?
    requires Ready(s, g, t, s.ths[t].exec.q)
    ensures Local(s, g, t, Step(s, t, c), Track(s, g, t, c), s.ths[t].exec.q, 0)
  {
    var s' := Step(s, t, c);
    var g' := Track(s, g, t, c);
    var q := s.ths[t].exec.q;
    AnnouncedUpdate(s.ths, t, s'.ths[t], q);
    assert TokenInv(s'.m, s'.ths, g'[q], q);
    assert CountInv(s'.m, s'.ths, g'[q], q);
    assert NameInv(s'.m, s'.ths, g'[q], q);
  }

  lemma StepHandBack(s: State, g: seq<Ghost>, t: Tid, c: Choice)
    requires t < |s.ths| && s.ths[t].push.NoPush? && s.ths[t].exec.HandBack?
    requires Ready(s, g, t, s.ths[t].exec.q)
    ensures Local(s, g, t, Step(s, t, c), Track(s, g, t, c), s.ths[t].exec.q, 0)
  {
    var s' := Step(s, t, c);
    var g' := Track(s, g, t, c);
    var q := s.ths[t].exec.q;
    AnnouncedUpdate(s.ths, t, s'.ths[t], q);
    assert TokenInv(s'.m, s'.ths, g'[q], q);
    assert CountInv(s'.m, s'.ths, g'[q], q);
    assert NameInv(s'.m, s'.ths, g'[q], q);
  }

  lemma StepInv(s: State, g: seq<Ghost>, t: Tid, c: Choice)
    requires t < |s.ths| && Inv(s, g)
    ensures Inv(Step(s, t, c), Track(s, g, t, c))
  {
    var s' := Step(s, t, c);
    var g' := Track(s, g, t, c);
    if s'.m != s.m || s'.ths != s.ths || g' != g {
      var qa, own := StepLocal(s, g, t, c);
      AssembleSlots(s, g, t, s', g', qa);
      AssembleThreads(s, g, t, s', g', qa, own);
    }
  }

  /** A step that changes anything works on one queue, and does what is asked of it there. */
  lemma StepLocal(s: State, g: seq<Ghost>, t: Tid, c: Choice) returns (qa: Qid, own: Ptr)
    requires t < |s.ths| && Inv(s, g)
    requires Step(s, t, c).m != s.m || Step(s, t, c).ths != s.ths || Track(s, g, t, c) != g
    ensures Local(s, g, t, Step(s, t, c), Track(s, g, t, c), qa, own)
  {
    var th := s.ths[t];
    var s' := Step(s, t, c);
    own := 0;
    if th.push.Announced? {
      StepAlloc(s, g, t, c);
      qa, own := th.push.call.q, Allocated(s, t, c);
    } else if th.push.Linking? {
      StepLinking(s, g, t, c);
      qa, own := th.push.call.q, th.push.node;
    } else if !th.push.NoPush? {
      if th.push.Decide? {
        StepDecide(s, g, t, c);
      } else {
        StepHandOff(s, g, t, c);
      }
      qa := th.push.call.q;
    } else if c.CallPush? && MayCall(th) && c.q < |g| {
      StepCall(s, g, t, c);
      qa := c.q;
    } else if c.Poll? && th.exec.NoExec? && s.m.global != [] {
      assert s.m.global[0] in s.m.global;
      StepPoll(s, g, t, c);
      qa := s.m.global[0];
    } else {
      if th.exec.Drain? {
        StepDrain(s, g, t, c);
      } else if th.exec.Running? {
        StepRun(s, g, t, c);
      } else if th.exec.Subtract? {
        StepSubtract(s, g, t, c);
      } else if th.exec.CheckTick? {
        StepCheckTick(s, g, t, c);
      } else {
        StepHandBack(s, g, t, c);
      }
      qa := th.exec.q;
    }
  }

  // ---------------------------------------------------------------------------------------------
  // Theorems over every run.

  ghost function TrackRun(s: State, g: seq<Ghost>, moves: seq<Move>): seq<Ghost>
    decreases |moves|
  {
    if moves == [] || !Inv(s, g) then g
    else
      var Move(t, c) := moves[0];
      if t < |s.ths| then TrackRun(Step(s, t, c), Track(s, g, t, c), moves[1..]) else TrackRun(s, g, moves[1..])
  }

  lemma {:induction false} RunInv(s: State, g: seq<Ghost>, moves: seq<Move>)
    requires Inv(s, g)
    ensures Inv(Exec(s, moves), TrackRun(s, g, moves))
    ensures |Exec(s, moves).m.slots| == |s.m.slots| && |Exec(s, moves).ths| == |s.ths|
    decreases |moves|
  {
    if moves != [] {
      var t := moves[0].t;
      if t < |s.ths| {
        StepInv(s, g, t, moves[0].c);
        RunInv(Step(s, t, moves[0].c), Track(s, g, t, moves[0].c), moves[1..]);
      } else {
        RunInv(s, g, moves[1..]);
      }
    }
  }

  lemma Reached(queues: nat, threads: nat, moves: seq<Move>) returns (g: seq<Ghost>)
    ensures Inv(Exec(Init(queues, threads), moves), g)
    ensures |Exec(Init(queues, threads), moves).m.slots| == queues
  {
    InitHolds(queues, threads);
    RunInv(Init(queues, threads), InitGhost(queues), moves);
    g := TrackRun(Init(queues, threads), InitGhost(queues), moves);
  }

  lemma {:induction false} CountSingle(ths: seq<Thread>, p: Thread -> bool, t: Tid)
    requires t < |ths| && p(ths[t]) && forall u :: 0 <= u < |ths| && u != t ==> !p(ths[u])
    ensures Count(ths, p) == 1
  {
    if t == 0 {
      CountNone(ths[1..], p);
    } else {
      CountSingle(ths[1..], p, t - 1);
    }
  }

  function Holders(s: State, q: Qid): nat {
    Count(s.ths, (th: Thread) => PushHolds(th.push, q)) + Count(s.ths, (th: Thread) => ExecHolds(th.exec, q))
    + multiset(s.m.global)[q]
  }

  /** The ownership token: pushers that saw prevCount == 0 and have not handed off, threads inside
      Execute, and entries of the global queue are together exactly one if the queue has jobs
      outstanding, and none otherwise. */
  lemma OwnershipToken(queues: nat, threads: nat, moves: seq<Move>, q: Qid)
    requires q < queues
    ensures var s := Exec(Init(queues, threads), moves);
            q < |s.m.slots| && s.m.slots[q].jobCount >= 0
            && Holders(s, q) == if s.m.slots[q].jobCount > 0 then 1 else 0
  {
    var g := Reached(queues, threads, moves);
    var s := Exec(Init(queues, threads), moves);
    assert SlotInv(s.m, s.ths, g[q], q);
    var onPush := (th: Thread) => PushHolds(th.push, q);
    var onExec := (th: Thread) => ExecHolds(th.exec, q);
    forall u: nat | u < |s.ths|
      ensures (onPush(s.ths[u]) <==> g[q].token == OfPush(u)) && (onExec(s.ths[u]) <==> g[q].token == OfExec(u))
    {
      assert ThreadInv(s.m, g, u, s.ths[u]);
    }
    match g[q].token {
      case OfPush(t) =>
        CountSingle(s.ths, onPush, t);
        CountNone(s.ths, onExec);
      case OfExec(t) =>
        CountNone(s.ths, onPush);
        CountSingle(s.ths, onExec, t);
      case _ =>
        CountNone(s.ths, onPush);
        CountNone(s.ths, onExec);
    }
  }

  /** The runner of a queue never follows a pointer to a deleted node, and deletes each node once. */
  lemma RunnerNeverFaults(queues: nat, threads: nat, moves: seq<Move>, t: Tid)
    requires t < |Exec(Init(queues, threads), moves).ths|
    ensures var e := Exec(Init(queues, threads), moves).ths[t].exec; !(e.Drain? && e.pc.PopFault?)
  {
    var g := Reached(queues, threads, moves);
    var s := Exec(Init(queues, threads), moves);
    assert ThreadInv(s.m, g, t, s.ths[t]);
  }

  /** No two threads are ever inside Execute of one queue: whatever pops or runs its jobs does
      so alone, which is what the single-consumer list needs. */
  lemma OneRunner(queues: nat, threads: nat, moves: seq<Move>, t: Tid, u: Tid, q: Qid)
    requires var s := Exec(Init(queues, threads), moves);
             t < |s.ths| && u < |s.ths| && ExecHolds(s.ths[t].exec, q) && ExecHolds(s.ths[u].exec, q)
    ensures t == u
  {
    var g := Reached(queues, threads, moves);
    var s := Exec(Init(queues, threads), moves);
    assert ThreadInv(s.m, g, t, s.ths[t]) && ThreadInv(s.m, g, u, s.ths[u]);
  }

  /** The jobs linked to queue q during a run, in the order of the CASes that linked them. */
  function LinkLog(s: State, moves: seq<Move>, q: Qid): seq<Job>
    decreases |moves|
  {
    if moves == [] then []
    else
      var t := moves[0].t;
      if t < |s.ths| then
        NowLinked(s, t, q) + LinkLog(Step(s, t, moves[0].c), moves[1..], q)
      else LinkLog(s, moves[1..], q)
  }

  predicate LinksNow(s: State, t: Tid, q: Qid)
    requires t < |s.ths|
  {
    var p := s.ths[t].push;
    p.Linking? && p.call.q == q && q < |s.m.slots| && Links(s.m.slots[q].jobs, p.pc)
  }

  function NowLinked(s: State, t: Tid, q: Qid): seq<Job>
    requires t < |s.ths|
  {
    if LinksNow(s, t, q) then [s.ths[t].push.call.job] else []
  }

  lemma StepLog(s: State, g: seq<Ghost>, t: Tid, c: Choice, q: Qid)
    requires t < |s.ths| && q < |g| == |s.m.slots| && ThreadInv(s.m, g, t, s.ths[t])
    requires forall q :: q in s.m.global ==> q < |g|
    ensures Track(s, g, t, c)[q].trail.linked
            == g[q].trail.linked + NowLinked(s, t, q)
  {
    var p := s.ths[t].push;
    if p.Linking? && p.call.q == q {
      assert Track(s, g, t, c)[q].trail == LinkTrack(s.m.slots[q].jobs, g[q].trail, p.node, p.call.job, p.pc);
    } else {
      assert Track(s, g, t, c)[q].trail.linked == g[q].trail.linked;
    }
  }

  lemma StepLogInv(s: State, g: seq<Ghost>, t: Tid, c: Choice, q: Qid)
    requires t < |s.ths| && q < |g| && Inv(s, g)
    ensures Inv(Step(s, t, c), Track(s, g, t, c)) && |Track(s, g, t, c)| == |g|
    ensures Track(s, g, t, c)[q].trail.linked
            == g[q].trail.linked + NowLinked(s, t, q)
  {
    StepInv(s, g, t, c);
    StepLog(s, g, t, c, q);
  }

  lemma LogCons(s: State, moves: seq<Move>, q: Qid, linked: seq<Job>)
    requires moves != [] && moves[0].t < |s.ths|
    ensures Exec(s, moves) == Exec(Step(s, moves[0].t, moves[0].c), moves[1..])
    ensures linked + LinkLog(s, moves, q)
            == linked + NowLinked(s, moves[0].t, q) + LinkLog(Step(s, moves[0].t, moves[0].c), moves[1..], q)
  {
  }

  lemma {:induction false} RunLog(s: State, g: seq<Ghost>, moves: seq<Move>, q: Qid) returns (g': seq<Ghost>)
    requires q < |g| && Inv(s, g)
    ensures Inv(Exec(s, moves), g') && |g'| == |g|
    ensures g'[q].trail.linked == g[q].trail.linked + LinkLog(s, moves, q)
    decreases |moves|
  {
    if moves == [] {
      return g;
    }
    var Move(t, c) := moves[0];
    if t < |s.ths| {
      StepLogInv(s, g, t, c, q);
      LogCons(s, moves, q, g[q].trail.linked);
      g' := RunLog(Step(s, t, c), Track(s, g, t, c), moves[1..], q);
    } else {
      g' := RunLog(s, g, moves[1..], q);
    }
  }

  ghost predicate IsRunner(ths: seq<Thread>, q: Qid, e: ExecPC) {
    if exists t :: 0 <= t < |ths| && ExecHolds(ths[t].exec, q) then
      exists t :: 0 <= t < |ths| && ExecHolds(ths[t].exec, q) && e == ths[t].exec
    else e == NoExec
  }

  ghost predicate Accounted(s: State, q: Qid, log: seq<Job>, run: ExecPC, js: seq<Job>)
    requires q < |s.m.slots|
  {
    var slot := s.m.slots[q];
    && IsRunner(s.ths, q, run) && Behind(slot.jobs.nodes, slot.jobs.head, js)
    && slot.executed + Unrun(run) + js == log
    && slot.jobCount == |js| + Unsubtracted(run) + AnnouncedCount(s.ths, q)
  }

  lemma AccountedNow(s: State, g: seq<Ghost>, q: Qid)
    requires q < |g| && Inv(s, g)
    ensures Accounted(s, q, g[q].trail.linked, Runner(s.ths, g[q].token), Contents(g[q].trail))
  {
    var slot := s.m.slots[q];
    assert SlotInv(s.m, s.ths, g[q], q);
    var trail := g[q].trail;
    BehindAt(slot.jobs, trail, trail.popped);
    RunnerIs(s, g, q);
    assert trail.linked[..trail.popped] + Contents(trail) == trail.linked;
  }

  /** Exactly-once FIFO and conservation, in every reachable state and across hand-offs: the jobs run
      so far, then the runner's unrun batch, then what the list still holds, are the jobs in link
      order; and _jobCount is what is still in the list, plus what the runner has popped and not
      subtracted, plus what has been announced and not linked. */
  lemma FifoAndConservation(queues: nat, threads: nat, moves: seq<Move>, q: Qid)
    requires q < queues
    ensures var s := Exec(Init(queues, threads), moves);
            q < |s.m.slots| && exists run, js :: Accounted(s, q, LinkLog(Init(queues, threads), moves, q), run, js)
  {
    var g := ReachedLog(queues, threads, moves, q);
    var s := Exec(Init(queues, threads), moves);
    AccountedNow(s, g, q);
    assert Accounted(s, q, LinkLog(Init(queues, threads), moves, q), Runner(s.ths, g[q].token), Contents(g[q].trail));
  }

  lemma ReachedLog(queues: nat, threads: nat, moves: seq<Move>, q: Qid) returns (g: seq<Ghost>)
    requires q < queues
    ensures Inv(Exec(Init(queues, threads), moves), g) && |g| == queues
    ensures g[q].trail.linked == LinkLog(Init(queues, threads), moves, q)
  {
    InitHolds(queues, threads);
    g := RunLog(Init(queues, threads), InitGhost(queues), moves, q);
  }

  lemma RunnerIs(s: State, g: seq<Ghost>, q: Qid)
    requires q < |g| && Inv(s, g)
    ensures IsRunner(s.ths, q, Runner(s.ths, g[q].token))
  {
    assert SlotInv(s.m, s.ths, g[q], q);
    forall t: nat | t < |s.ths| && ExecHolds(s.ths[t].exec, q)
      ensures g[q].token == OfExec(t)
    {
      assert ThreadInv(s.m, g, t, s.ths[t]);
    }
  }

  /** When every thread is idle and the global queue is empty, every job pushed to q has run, exactly
      once, in link order, and nothing else has. */
  lemma AllRun(queues: nat, threads: nat, moves: seq<Move>, q: Qid)
    requires q < queues
    requires var s := Exec(Init(queues, threads), moves);
             s.m.global == [] && forall t :: 0 <= t < |s.ths| ==> s.ths[t].exec.NoExec? && s.ths[t].push.NoPush?
    ensures var s := Exec(Init(queues, threads), moves);
            && q < |s.m.slots| && s.m.slots[q].jobCount == 0
            && s.m.slots[q].executed == LinkLog(Init(queues, threads), moves, q)
            && forall k: nat :: multiset(s.m.slots[q].executed)[k] == if k < s.m.slots[q].pushes then 1 else 0
  {
    var gs := ReachedLog(queues, threads, moves, q);
    var s := Exec(Init(queues, threads), moves);
    var g := gs[q];
    assert SlotInv(s.m, s.ths, g, q);
    CountNone(s.ths, (th: Thread) => Announces(th.push, q));
    assert g.token == Nobody;
    assert g.trail.linked[..g.trail.popped] == g.trail.linked;
    forall k: nat
      ensures multiset(g.trail.linked)[k] == if k < s.m.slots[q].pushes then 1 else 0
    {
      assert k in g.trail.linked || multiset(g.trail.linked)[k] == 0;
    }
  }

  /** Pop takes the oldest job, and finds the list empty only when it is. */
  lemma PopTakesOldest(queues: nat, threads: nat, moves: seq<Move>, t: Tid)
    requires var s := Exec(Init(queues, threads), moves); t < |s.ths| && s.ths[t].exec.Drain?
    ensures var s := Exec(Init(queues, threads), moves);
            var e := s.ths[t].exec;
            e.q < |s.m.slots| &&
            var jobs := s.m.slots[e.q].jobs;
            && (e.pc.LoadHeadNext? ==> e.pc.oldHead == jobs.head)
            && (e.pc.StoreHead? ==>
                  exists js :: Behind(jobs.nodes, jobs.head, [e.pc.job] + js) && Behind(jobs.nodes, e.pc.next, js))
  {
    var g := Reached(queues, threads, moves);
    var s := Exec(Init(queues, threads), moves);
    assert ThreadInv(s.m, g, t, s.ths[t]);
    var e := s.ths[t].exec;
    var jobs := s.m.slots[e.q].jobs;
    var trail := g[e.q].trail;
    assert SlotInv(s.m, s.ths, g[e.q], e.q);
    if e.pc.StoreHead? {
      BehindAt(jobs, trail, trail.popped);
      BehindAt(jobs, trail, trail.popped + 1);
      var js := trail.linked[trail.popped + 1..];
      assert trail.linked[trail.popped..] == [e.pc.job] + js;
      assert Behind(jobs.nodes, jobs.head, [e.pc.job] + js) && Behind(jobs.nodes, e.pc.next, js);
    }
  }
}
