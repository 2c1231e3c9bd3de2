/** ServerCore/MSPCLockFreeQueue.h: the linked list behind a JobQueue, one atomic access a step.
    Any number of producers link nodes, one consumer takes them off and deletes the node it leaves, whose
    address may be allocated again. A pointer is the number of the allocation it came from, so that a pointer
    to a deleted node is known as one; comparing pointers compares addresses. A job is named by a number. */
module MpscQueue {
  type Ptr = nat  // 0 is nullptr
  type Addr = nat
  type Job = nat

  datatype Node = Node(job: Job, next: Ptr)

  /** addrs: the address each allocation got; nodes: the allocations that have not been deleted. */
  datatype Queue = Queue(addrs: seq<Addr>, nodes: map<Ptr, Node>, head: Ptr, tail: Ptr)

  /** The constructor: _head and _tail are the dummy node. */
  function Fresh(): Queue {
    Queue([0, 1], map[1 := Node(0, 0)], 1, 1)
  }

  /** The allocator hands out any address that no live node has. */
  predicate CanAlloc(q: Queue, addr: Addr) {
    addr != 0 && forall p :: p in q.nodes ==> Address(q, p) != addr
  }

  function Address(q: Queue, p: Ptr): Addr {
    if p < |q.addrs| then q.addrs[p] else 0
  }

  /** The new node is |q.addrs|. */
  function Alloc(q: Queue, addr: Addr, job: Job): Queue {
    q.(addrs := q.addrs + [addr], nodes := q.nodes[|q.addrs| := Node(job, 0)])
  }

  /** What a comparison of two pointers sees. */
  predicate Same(q: Queue, p: Ptr, r: Ptr) {
    Address(q, p) == Address(q, r)
  }

  /** Push(Node*), from the first load of _tail to the last CAS. */
  datatype LinkPC =
    | LoadTail
    | LoadNext(oldTail: Ptr)
    | LinkCas(oldTail: Ptr)
    | HelpCas(oldTail: Ptr, next: Ptr)
    | SwingTail(oldTail: Ptr)
    | LinkDone
    | LinkFault  // followed a pointer to a deleted node, and went no further

  function LinkAct(q: Queue, node: Ptr, pc: LinkPC): (Queue, LinkPC) {
    match pc
    case LoadTail => (q, LoadNext(q.tail))
    case LoadNext(oldTail) =>
      if oldTail !in q.nodes then (q, LinkFault)
      else if q.nodes[oldTail].next == 0 then (q, LinkCas(oldTail))
      else (q, HelpCas(oldTail, q.nodes[oldTail].next))
    case LinkCas(oldTail) =>
      if oldTail !in q.nodes then (q, LinkFault)
      else if q.nodes[oldTail].next == 0 then
        (q.(nodes := q.nodes[oldTail := Node(q.nodes[oldTail].job, node)]), SwingTail(oldTail))
      else (q, LoadTail)
    case HelpCas(oldTail, next) => (if Same(q, q.tail, oldTail) then q.(tail := next) else q, LoadTail)
    case SwingTail(oldTail) => (if Same(q, q.tail, oldTail) then q.(tail := node) else q, LinkDone)
    case LinkDone => (q, LinkDone)
    case LinkFault => (q, LinkFault)
  }

  /** Pop(), from the load of _head to the delete of the old head. */
  datatype PopPC =
    | LoadHead
    | LoadHeadNext(oldHead: Ptr)
    | ReadData(oldHead: Ptr, next: Ptr)
    | StoreHead(oldHead: Ptr, next: Ptr, job: Job)
    | Free(oldHead: Ptr, job: Job)
    | GotNone
    | GotJob(job: Job)
    | PopFault

  function PopAct(q: Queue, pc: PopPC): (Queue, PopPC) {
    match pc
    case LoadHead => (q, LoadHeadNext(q.head))
    case LoadHeadNext(oldHead) =>
      if oldHead !in q.nodes then (q, PopFault)
      else (q, if q.nodes[oldHead].next == 0 then GotNone else ReadData(oldHead, q.nodes[oldHead].next))
    case ReadData(oldHead, next) =>
      if next !in q.nodes then (q, PopFault) else (q, StoreHead(oldHead, next, q.nodes[next].job))
    case StoreHead(oldHead, next, job) => (q.(head := next), Free(oldHead, job))
    case Free(oldHead, job) =>
      if oldHead !in q.nodes then (q, PopFault) else (q.(nodes := q.nodes - {oldHead}), GotJob(job))
    case GotNone => (q, GotNone)
    case GotJob(job) => (q, GotJob(job))
    case PopFault => (q, PopFault)
  }

  predicate HasTail(pc: LinkPC) {
    pc.LoadNext? || pc.LinkCas? || pc.HelpCas? || pc.SwingTail?
  }

  /** What a producer still has in hand: its oldTail, to follow it or to compare _tail with it. */
  predicate Holds(pc: LinkPC, p: Ptr) {
    HasTail(pc) && pc.oldTail == p
  }

  // ---------------------------------------------------------------------------------------------
  // The list in link order, with the dummy in front, and how far the consumer has come.

  /** order: every node ever linked, the first dummy included; pos: where each of them is; linked: their jobs,
      in link order; popped: how many of them the consumer has taken; freed: how many are deleted. */
  datatype Trail = Trail(order: seq<Ptr>, pos: map<Ptr, nat>, linked: seq<Job>, popped: nat, freed: nat)

  function FreshTrail(): Trail {
    Trail([1], map[1 := 0], [], 0, 0)
  }

  /** The abstract FIFO: what has been linked and not yet taken. */
  function Contents(g: Trail): seq<Job>
    requires g.popped <= |g.linked|
  {
    g.linked[g.popped..]
  }

  ghost predicate NodeOk(q: Queue, g: Trail, i: nat)
    requires i < |g.order| == |g.linked| + 1
  {
    var p := g.order[i];
    && 0 < p < |q.addrs| && p in g.pos && g.pos[p] == i
    && (i >= g.freed ==>
          && p in q.nodes && q.nodes[p].next == (if i + 1 < |g.order| then g.order[i + 1] else 0)
          && (i > 0 ==> q.nodes[p].job == g.linked[i - 1]))
    && (i < g.freed ==> p !in q.nodes)
  }

  ghost predicate InList(g: Trail, p: Ptr) {
    p in g.pos && g.pos[p] < |g.order| && g.order[g.pos[p]] == p
  }

  /** What holds in every run: the nodes that are not deleted are chained in link order, and _tail is some
      node that was linked, deleted or not. */
  ghost predicate ListInv(q: Queue, g: Trail) {
    && |g.order| == |g.linked| + 1
    && g.freed <= g.popped <= g.freed + 1
    && (forall i: nat :: i < |g.order| ==> NodeOk(q, g, i))
    && (forall p :: p in g.pos ==> InList(g, p))
    && (forall p :: p in q.nodes ==> 0 < p < |q.addrs|)
    && g.popped < |g.order| && q.head == g.order[g.popped]
    && InList(g, q.tail)
  }

  ghost predicate Unlinked(q: Queue, g: Trail, node: Ptr, job: Job) {
    node != 0 && node in q.nodes && q.nodes[node] == Node(job, 0) && node !in g.pos
  }

  ghost predicate Producer(q: Queue, g: Trail, node: Ptr, job: Job, pc: LinkPC) {
    match pc
    case LoadTail => Unlinked(q, g, node, job)
    case LoadNext(p) => Unlinked(q, g, node, job) && InList(g, p)
    case LinkCas(p) => Unlinked(q, g, node, job) && InList(g, p)
    case HelpCas(p, n) =>
      && Unlinked(q, g, node, job) && InList(g, p)
      && g.pos[p] + 1 < |g.order| && g.order[g.pos[p] + 1] == n
    case SwingTail(p) =>
      InList(g, p) && InList(g, node) && g.pos[p] + 1 < |g.order| && g.order[g.pos[p] + 1] == node
    case LinkDone => true
    case LinkFault => Unlinked(q, g, node, job)
  }

  /** Between two calls of Pop no popped node is left. */
  ghost predicate Consumer(q: Queue, g: Trail, pc: PopPC) {
    match pc
    case LoadHead => g.freed == g.popped
    case LoadHeadNext(p) => g.freed == g.popped && p == q.head
    case ReadData(p, n) =>
      g.freed == g.popped && p == q.head && g.popped + 1 < |g.order| && n == g.order[g.popped + 1]
    case StoreHead(p, n, job) =>
      && g.freed == g.popped && p == q.head
      && g.popped + 1 < |g.order| == |g.linked| + 1 && n == g.order[g.popped + 1] && job == g.linked[g.popped]
    case Free(p, job) =>
      g.popped == g.freed + 1 && g.popped < |g.order| == |g.linked| + 1
      && p == g.order[g.freed] && job == g.linked[g.freed]
    case GotNone => g.freed == g.popped
    case GotJob(_) => g.freed == g.popped
    case PopFault => false
  }

  /** The step at which a producer's node becomes part of the queue. */
  predicate Links(q: Queue, pc: LinkPC) {
    pc.LinkCas? && pc.oldTail in q.nodes && q.nodes[pc.oldTail].next == 0
  }

  /** Before that step, or stopped there. */
  predicate Pending(pc: LinkPC) {
    pc.LoadTail? || pc.LoadNext? || pc.LinkCas? || pc.HelpCas? || pc.LinkFault?
  }

  function LinkTrack(q: Queue, g: Trail, node: Ptr, job: Job, pc: LinkPC): Trail {
    if Links(q, pc) then
      Trail(g.order + [node], g.pos[node := |g.order|], g.linked + [job], g.popped, g.freed)
    else g
  }

  function PopTrack(g: Trail, pc: PopPC): Trail {
    if pc.StoreHead? then g.(popped := g.popped + 1)
    else if pc.Free? then g.(freed := g.freed + 1)
    else g
  }

  /** What everybody else may rely on across one step: the list only grows at its end, and nodes not yet
      linked (other than `own`) are left alone. */
  ghost predicate Grows(q: Queue, g: Trail, q': Queue, g': Trail, own: Ptr) {
    && |g.order| <= |g'.order| && |g.linked| <= |g'.linked|
    && g'.order[..|g.order|] == g.order && g'.linked[..|g.linked|] == g.linked
    && (forall p :: p in g.pos ==> p in g'.pos && g'.pos[p] == g.pos[p])
    && (forall p :: p in q.nodes && p !in g.pos && p != own ==>
          p in q'.nodes && q'.nodes[p] == q.nodes[p] && p !in g'.pos)
    && g.popped <= g'.popped
  }

  lemma FreshInv()
    ensures ListInv(Fresh(), FreshTrail())
  {
    assert NodeOk(Fresh(), FreshTrail(), 0);
  }

  lemma ListNode(q: Queue, g: Trail, p: Ptr)
    requires ListInv(q, g) && InList(g, p)
    ensures 0 < p < |q.addrs| && (p in q.nodes <==> g.pos[p] >= g.freed)
    ensures p in q.nodes ==> (q.nodes[p].next == 0 <==> g.pos[p] == |g.order| - 1)
    ensures g.pos[p] + 1 < |g.order| ==>
              var n := g.order[g.pos[p] + 1];
              InList(g, n) && g.pos[n] == g.pos[p] + 1 && (p in q.nodes ==> q.nodes[p].next == n)
  {
    assert NodeOk(q, g, g.pos[p]);
    if g.pos[p] + 1 < |g.order| {
      assert NodeOk(q, g, g.pos[p] + 1);
    }
  }

  lemma AllocStep(q: Queue, g: Trail, addr: Addr, job: Job)
    requires ListInv(q, g)
    ensures ListInv(Alloc(q, addr, job), g)
    ensures Producer(Alloc(q, addr, job), g, |q.addrs|, job, LoadTail)
    ensures Grows(q, g, Alloc(q, addr, job), g, |q.addrs|)
  {
    var q' := Alloc(q, addr, job);
    assert NodeOk(q, g, 0);
    forall i: nat | i < |g.order|
      ensures NodeOk(q', g, i)
    {
      assert NodeOk(q, g, i);
    }
    if |q.addrs| in g.pos {
      ListNode(q, g, |q.addrs|);
    }
  }

  lemma LinkStep(q: Queue, g: Trail, node: Ptr, job: Job, pc: LinkPC)
    requires ListInv(q, g) && Producer(q, g, node, job, pc)
    ensures var (q', pc') := LinkAct(q, node, pc);
            var g' := LinkTrack(q, g, node, job, pc);
            && ListInv(q', g') && Producer(q', g', node, job, pc') && Grows(q, g, q', g', node)
            && q'.head == q.head && g'.popped == g.popped && g'.freed == g.freed
            && (Pending(pc') <==> Pending(pc) && !Links(q, pc))
  {
    LinkList(q, g, node, job, pc);
    ListNode(q, g, q.tail);
    if HasTail(pc) {
      ListNode(q, g, pc.oldTail);
    }
  }

  lemma LinkList(q: Queue, g: Trail, node: Ptr, job: Job, pc: LinkPC)
    requires ListInv(q, g) && Producer(q, g, node, job, pc)
    ensures ListInv(LinkAct(q, node, pc).0, LinkTrack(q, g, node, job, pc))
  {
    var (q', pc') := LinkAct(q, node, pc);
    var g' := LinkTrack(q, g, node, job, pc);
    ListNode(q, g, q.tail);
    if HasTail(pc) {
      ListNode(q, g, pc.oldTail);
    }
    forall i: nat | i < |g'.order|
      ensures NodeOk(q', g', i)
    {
      if i < |g.order| {
        assert NodeOk(q, g, i);
      }
    }
  }

  lemma PopStep(q: Queue, g: Trail, pc: PopPC)
    requires ListInv(q, g) && Consumer(q, g, pc)
    ensures var (q', pc') := PopAct(q, pc);
            var g' := PopTrack(g, pc);
            && ListInv(q', g') && Consumer(q', g', pc') && Grows(q, g, q', g', 0)
            && (pc'.GotNone? && !pc.GotNone? ==> Contents(g) == [])
            && (if pc.StoreHead? then Contents(g) == [pc.job] + Contents(g') else Contents(g') == Contents(g))
  {
    var (q', pc') := PopAct(q, pc);
    var g' := PopTrack(g, pc);
    assert NodeOk(q, g, g.popped) && NodeOk(q, g, g.freed);
    if g.popped + 1 < |g.order| {
      assert NodeOk(q, g, g.popped + 1);
    }
    forall i: nat | i < |g'.order|
      ensures NodeOk(q', g', i)
    {
      assert NodeOk(q, g, i);
    }
  }

  lemma OwnNode(q: Queue, g: Trail, node: Ptr, job: Job, pc: LinkPC)
    requires Producer(q, g, node, job, pc) && !pc.LinkDone? && node !in g.pos
    ensures Unlinked(q, g, node, job) && Pending(pc)
  {
  }

  lemma ProducerStable(q: Queue, g: Trail, q': Queue, g': Trail, own: Ptr, node: Ptr, job: Job, pc: LinkPC)
    requires ListInv(q, g) && ListInv(q', g') && Grows(q, g, q', g', own)
    requires Producer(q, g, node, job, pc)
    requires Unlinked(q, g, node, job) ==> node != own
    ensures Producer(q', g', node, job, pc)
  {
    if HasTail(pc) {
      var i := g.pos[pc.oldTail];
      assert NodeOk(q, g, i);
      assert g'.order[i] == g'.order[..|g.order|][i];
      if i + 1 < |g.order| {
        assert NodeOk(q, g, i + 1);
        assert g'.order[i + 1] == g'.order[..|g.order|][i + 1];
      }
    }
  }

  lemma ConsumerStable(q: Queue, g: Trail, q': Queue, g': Trail, own: Ptr, pc: PopPC)
    requires ListInv(q, g) && ListInv(q', g') && Grows(q, g, q', g', own)
    requires Consumer(q, g, pc) && q'.head == q.head && g'.popped == g.popped && g'.freed == g.freed
    ensures Consumer(q', g', pc)
  {
    if g.popped + 1 < |g.order| {
      assert g'.order[g.popped + 1] == g'.order[..|g.order|][g.popped + 1];
      assert g'.linked[g.popped] == g'.linked[..|g.linked|][g.popped];
    }
    if pc.Free? {
      assert g'.order[g.freed] == g'.order[..|g.order|][g.freed];
      assert g'.linked[g.freed] == g'.linked[..|g.linked|][g.freed];
    }
  }

  // ---------------------------------------------------------------------------------------------
  // _tail, as long as no CAS takes another node at the same address for the one it expects.

  /** The CAS on _tail succeeds although _tail is not the node that was loaded: the address was given out again. */
  predicate Slips(q: Queue, pc: LinkPC) {
    (pc.HelpCas? || pc.SwingTail?) && Same(q, q.tail, pc.oldTail) && q.tail != pc.oldTail
  }

  ghost predicate NearEnd(q: Queue, g: Trail) {
    InList(g, q.tail) && g.pos[q.tail] + 2 >= |g.order|
  }

  /** _tail has not gone back since this producer loaded it. */
  ghost predicate Seen(q: Queue, g: Trail, pc: LinkPC) {
    HasTail(pc) ==> InList(g, pc.oldTail) && InList(g, q.tail) && g.pos[pc.oldTail] <= g.pos[q.tail]
  }

  ghost predicate TailForward(q: Queue, g: Trail, q': Queue, g': Trail) {
    InList(g, q.tail) && InList(g', q'.tail) && g.pos[q.tail] <= g'.pos[q'.tail] <= g.pos[q.tail] + 1
  }

  lemma LinkTail(q: Queue, g: Trail, node: Ptr, job: Job, pc: LinkPC)
    requires ListInv(q, g) && Producer(q, g, node, job, pc) && NearEnd(q, g) && Seen(q, g, pc) && !Slips(q, pc)
    ensures var (q', pc') := LinkAct(q, node, pc);
            var g' := LinkTrack(q, g, node, job, pc);
            NearEnd(q', g') && Seen(q', g', pc') && TailForward(q, g, q', g')
  {
    ListNode(q, g, q.tail);
    if HasTail(pc) {
      ListNode(q, g, pc.oldTail);
    }
  }

  lemma SeenStable(q: Queue, g: Trail, q': Queue, g': Trail, own: Ptr, pc: LinkPC)
    requires Grows(q, g, q', g', own) && TailForward(q, g, q', g') && Seen(q, g, pc)
    ensures Seen(q', g', pc)
  {
    if HasTail(pc) {
      var i := g.pos[pc.oldTail];
      assert g'.order[i] == g'.order[..|g.order|][i];
    }
  }

  /** As long as every node that matters is there: _tail and the nodes that producers have as their oldTail. */
  predicate Alive(q: Queue, pc: LinkPC) {
    q.tail in q.nodes && (HasTail(pc) ==> pc.oldTail in q.nodes)
  }

  /** Live nodes have addresses, and different ones. */
  ghost predicate Distinct(q: Queue) {
    && (forall p :: p in q.nodes ==> Address(q, p) != 0)
    && (forall p, r :: p in q.nodes && r in q.nodes && p != r ==> !Same(q, p, r))
  }

  lemma LinkAlive(q: Queue, g: Trail, node: Ptr, job: Job, pc: LinkPC)
    requires ListInv(q, g) && Producer(q, g, node, job, pc) && Alive(q, pc) && Distinct(q)
    ensures !Slips(q, pc) && (LinkAct(q, node, pc).1.LinkFault? ==> pc.LinkFault?)
    ensures var (q', pc') := LinkAct(q, node, pc);
            Alive(q', pc') && Distinct(q') && q'.nodes.Keys == q.nodes.Keys
  {
    ListNode(q, g, q.tail);
    if HasTail(pc) {
      ListNode(q, g, pc.oldTail);
      if g.pos[pc.oldTail] + 1 < |g.order| {
        ListNode(q, g, g.order[g.pos[pc.oldTail] + 1]);
      }
    }
  }

  lemma AllocDistinct(q: Queue, g: Trail, addr: Addr, job: Job)
    requires ListInv(q, g) && Distinct(q) && CanAlloc(q, addr)
    ensures Distinct(Alloc(q, addr, job))
  {
    var q' := Alloc(q, addr, job);
    assert forall p :: p in q.nodes ==> Address(q', p) == Address(q, p);
  }

  // ---------------------------------------------------------------------------------------------
  // Reading the invariant off the concrete list.

  /** The nodes behind p carry exactly the jobs js. */
  ghost predicate Behind(nodes: map<Ptr, Node>, p: Ptr, js: seq<Job>)
    decreases |js|
  {
    p in nodes &&
    if js == [] then nodes[p].next == 0
    else nodes[p].next in nodes && nodes[nodes[p].next].job == js[0] && Behind(nodes, nodes[p].next, js[1..])
  }

  lemma {:induction false} BehindAt(q: Queue, g: Trail, i: nat)
    requires ListInv(q, g) && g.freed <= i < |g.order|
    ensures Behind(q.nodes, g.order[i], g.linked[i..])
    decreases |g.order| - i
  {
    assert NodeOk(q, g, i);
    if i + 1 < |g.order| {
      assert NodeOk(q, g, i + 1);
      BehindAt(q, g, i + 1);
      assert g.linked[i..][1..] == g.linked[i + 1..];
    }
  }

  /** _tail is the last node or the one before it; if it has been deleted the list is empty. */
  lemma TailNearEnd(q: Queue, g: Trail)
    requires ListInv(q, g) && NearEnd(q, g)
    ensures q.tail in q.nodes ==> var n := q.nodes[q.tail].next; n == 0 || (n in q.nodes && q.nodes[n].next == 0)
    ensures q.tail !in q.nodes ==> q.head in q.nodes && q.nodes[q.head].next == 0
  {
    ListNode(q, g, q.tail);
    if g.pos[q.tail] + 1 < |g.order| {
      ListNode(q, g, g.order[g.pos[q.tail] + 1]);
    }
    assert NodeOk(q, g, g.popped);
  }

  // ---------------------------------------------------------------------------------------------
  // A producer that runs alone finishes.

  function SoloRun(q: Queue, node: Ptr, pc: LinkPC, n: nat): (Queue, LinkPC)
    decreases n
  {
    if n == 0 then (q, pc) else var (q', pc') := LinkAct(q, node, pc); SoloRun(q', node, pc', n - 1)
  }

  /** How many loop iterations those n steps begin. */
  function Iterations(q: Queue, node: Ptr, pc: LinkPC, n: nat): nat
    decreases n
  {
    if n == 0 then 0
    else
      var (q', pc') := LinkAct(q, node, pc);
      (if pc.LoadTail? then 1 else 0) + Iterations(q', node, pc', n - 1)
  }

  predicate Finishes(q: Queue, node: Ptr, pc: LinkPC, n: nat, iterations: nat) {
    SoloRun(q, node, pc, n).1.LinkDone? && Iterations(q, node, pc, n) <= iterations
  }

  lemma SoloStep(q: Queue, node: Ptr, pc: LinkPC, n: nat, k: nat)
    requires var (q', pc') := LinkAct(q, node, pc); Finishes(q', node, pc', n, k)
    ensures Finishes(q, node, pc, n + 1, if pc.LoadTail? then k + 1 else k)
  {
  }

  /** From the last link on, one CAS remains. */
  lemma SoloSwing(q: Queue, node: Ptr, oldTail: Ptr)
    ensures Finishes(q, node, SwingTail(oldTail), 1, 0)
  {
    var (q', pc') := LinkAct(q, node, SwingTail(oldTail));
    assert Finishes(q', node, pc', 0, 0);
  }

  /** With _tail at the end of the list one iteration is enough. */
  lemma SoloAtEnd(q: Queue, node: Ptr)
    requires q.tail in q.nodes && q.nodes[q.tail].next == 0
    ensures Finishes(q, node, LoadTail, 4, 1)
  {
    var (q1, pc1) := LinkAct(q, node, LinkCas(q.tail));
    SoloSwing(q1, node, q.tail);
    SoloStep(q, node, LinkCas(q.tail), 1, 0);
    SoloStep(q, node, LoadNext(q.tail), 2, 0);
    SoloStep(q, node, LoadTail, 3, 0);
  }

  /** In any case two are: the first moves _tail to the end. */
  lemma SoloFromStart(q: Queue, g: Trail, node: Ptr)
    requires ListInv(q, g) && NearEnd(q, g) && q.tail in q.nodes
    ensures exists n: nat :: n <= 7 && Finishes(q, node, LoadTail, n, 2)
  {
    TailNearEnd(q, g);
    var next := q.nodes[q.tail].next;
    if next == 0 {
      SoloAtEnd(q, node);
      assert Finishes(q, node, LoadTail, 4, 2);
    } else {
      SoloAtEnd(LinkAct(q, node, HelpCas(q.tail, next)).0, node);
      SoloStep(q, node, HelpCas(q.tail, next), 4, 1);
      SoloStep(q, node, LoadNext(q.tail), 5, 1);
      SoloStep(q, node, LoadTail, 6, 1);
      assert Finishes(q, node, LoadTail, 7, 2);
    }
  }

  /** The first node the producer is going to follow has been deleted. */
  predicate Stuck(q: Queue, pc: LinkPC) {
    match pc
    case LoadTail => q.tail !in q.nodes
    case LoadNext(p) => p !in q.nodes
    case LinkCas(p) => p !in q.nodes
    case HelpCas(_, _) => LinkAct(q, 0, pc).0.tail !in q.nodes
    case SwingTail(_) => false
    case LinkDone => false
    case LinkFault => true
  }

  /** Wherever a producer is, alone it finishes after at most two more loop iterations, unless the first node it
      follows has been deleted. */
  lemma SoloFinishes(q: Queue, g: Trail, node: Ptr, job: Job, pc: LinkPC)
    requires ListInv(q, g) && Producer(q, g, node, job, pc)
    requires NearEnd(q, g) && Distinct(q) && Seen(q, g, pc) && !Slips(q, pc)
    ensures (exists n: nat :: n <= 10 && Finishes(q, node, pc, n, 2)) <==> !Stuck(q, pc)
  {
    if Stuck(q, pc) {
      forall n: nat | n <= 10 ensures !Finishes(q, node, pc, n, 2) {
        SoloStuck(q, node, pc, n);
      }
    } else {
      SoloEnds(q, g, node, job, pc);
    }
  }

  lemma {:induction false} SoloStuck(q: Queue, node: Ptr, pc: LinkPC, n: nat)
    requires Stuck(q, pc)
    ensures !SoloRun(q, node, pc, n).1.LinkDone?
    decreases n
  {
    if n > 0 {
      var (q', pc') := LinkAct(q, node, pc);
      SoloStuck(q', node, pc', n - 1);
    }
  }

  lemma SoloEnds(q: Queue, g: Trail, node: Ptr, job: Job, pc: LinkPC)
    requires ListInv(q, g) && Producer(q, g, node, job, pc)
    requires NearEnd(q, g) && Distinct(q) && Seen(q, g, pc) && !Slips(q, pc) && !Stuck(q, pc)
    ensures exists n: nat :: n <= 10 && Finishes(q, node, pc, n, 2)
  {
    var (q', pc') := LinkAct(q, node, pc);
    match pc {
      case LoadTail => SoloFromStart(q, g, node);
      case SwingTail(p) =>
        SoloSwing(q, node, p);
        assert Finishes(q, node, pc, 1, 2);
      case LinkDone => assert Finishes(q, node, pc, 0, 2);
      case LinkCas(p) =>
        if pc'.LoadTail? {
          ListNode(q, g, p);
          ListNode(q, g, q.tail);
          SoloFromStart(q, g, node);
          var n: nat :| n <= 7 && Finishes(q, node, LoadTail, n, 2);
          SoloStep(q, node, pc, n, 2);
        } else {
          SoloSwing(q', node, p);
          SoloStep(q, node, pc, 1, 0);
          assert Finishes(q, node, pc, 2, 2);
        }
      case HelpCas(_, _) => SoloHelp(q, g, node, job, pc);
      case LoadNext(p) =>
        if pc'.LinkCas? {
          var (q2, pc2) := LinkAct(q, node, pc');
          SoloSwing(q2, node, p);
          SoloStep(q, node, pc', 1, 0);
          SoloStep(q, node, pc, 2, 0);
          assert Finishes(q, node, pc, 3, 2);
        } else {
          SoloFollows(q, g, node, job, p);
        }
      case LinkFault =>
    }
  }

  lemma SoloHelp(q: Queue, g: Trail, node: Ptr, job: Job, pc: LinkPC)
    requires ListInv(q, g) && Producer(q, g, node, job, pc) && pc.HelpCas?
    requires NearEnd(q, g) && Seen(q, g, pc) && !Slips(q, pc) && !Stuck(q, pc)
    ensures exists n: nat :: n <= 8 && Finishes(q, node, pc, n, 2)
  {
    var (q', pc') := LinkAct(q, node, pc);
    LinkStep(q, g, node, job, pc);
    LinkTail(q, g, node, job, pc);
    SoloFromStart(q', g, node);
    var n: nat :| n <= 7 && Finishes(q', node, LoadTail, n, 2);
    SoloStep(q, node, pc, n, 2);
  }

  lemma SoloFollows(q: Queue, g: Trail, node: Ptr, job: Job, p: Ptr)
    requires ListInv(q, g) && Producer(q, g, node, job, LoadNext(p)) && p in q.nodes && q.nodes[p].next != 0
    requires NearEnd(q, g) && Distinct(q) && Seen(q, g, LoadNext(p))
    ensures exists n: nat :: n <= 9 && Finishes(q, node, LoadNext(p), n, 2)
  {
    var pc1 := HelpCas(p, q.nodes[p].next);
    LinkStep(q, g, node, job, LoadNext(p));
    LinkTail(q, g, node, job, LoadNext(p));
    ListNode(q, g, p);
    ListNode(q, g, q.tail);
    ListNode(q, g, q.nodes[p].next);
    SoloHelp(q, g, node, job, pc1);
    var n: nat :| n <= 8 && Finishes(q, node, pc1, n, 2);
    SoloStep(q, node, LoadNext(p), n, 2);
  }
}
