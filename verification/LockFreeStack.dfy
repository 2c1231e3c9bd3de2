/** ServerCore/LockFreeStack.h as a state machine: any number of threads run Push and TryPop, and one
    step is one atomic access to shared memory. The allocator may hand out any free address again. */
module LockFreeStack {
  import opened Wrappers
  import opened Counting

  type Ptr = nat  // 0 is nullptr
  type Value = nat  // the C* payload
  type Tid = nat

  datatype Node = Node(data: Value, next: Ptr)

  /** Where a thread is. `prev` is TryPop's prevHead, `back` the node that the caller of
      ChainPendingNodeList deletes afterwards (0 when it is chaining its own prevHead). */
  datatype PC =
    | Idle
    | PushCas(node: Ptr)
    | PushStore(node: Ptr, seen: Ptr)
    | PopLoad
    | PopNext(prev: Ptr)
    | PopCas(prev: Ptr, next: Ptr)
    | PopEmpty
    | PopRead(prev: Ptr)
    | TestCount(prev: Ptr)
    | Exchange(prev: Ptr)
    | Release(prev: Ptr, list: Ptr)
    | FreeList(prev: Ptr, node: Ptr)
    | FreeNode(prev: Ptr, node: Ptr, next: Ptr)
    | FindLast(prev: Ptr, first: Ptr, last: Ptr)
    | ChainLoad(first: Ptr, last: Ptr, back: Ptr)
    | ChainStore(first: Ptr, last: Ptr, back: Ptr, seen: Ptr)
    | ChainCas(first: Ptr, last: Ptr, back: Ptr)
    | FreePrev(prev: Ptr)
    | Leave
    | Faulted  // touched or deleted a node that is not allocated

  datatype Thread = Thread(pc: PC, out: Value)

  datatype Mem = Mem(heap: map<Ptr, Node>, head: Ptr, popCount: int, pendingList: Ptr)

  datatype State = State(m: Mem, threads: seq<Thread>)

  /** What the environment decides: the call an idle thread makes, and whether a weak CAS fails
      for no reason. */
  datatype Choice = CallPush(addr: Ptr, value: Value) | CallPop | Go | Spurious

  function Init(n: nat): State {
    State(Mem(map[], 0, 0, 0), seq(n, _ => Thread(Idle, 0)))
  }

  /** The loop condition `prevHead && ...` after prevHead was loaded or refreshed. */
  function AfterHead(p: Ptr): PC {
    if p == 0 then PopEmpty else PopNext(p)
  }

  function SetNext(h: map<Ptr, Node>, p: Ptr, next: Ptr): map<Ptr, Node>
    requires p in h
  {
    h[p := Node(h[p].data, next)]
  }

  /** One step of a thread at pc: the new memory and where the thread goes. */
  function Act(m: Mem, pc: PC, c: Choice): (Mem, PC) {
    match pc
    case Idle =>
      (match c
       case CallPush(addr, value) =>
         if addr == 0 || addr in m.heap then (m, Idle)  // not an address the allocator can return
         else (m.(heap := m.heap[addr := Node(value, 0)]), PushCas(addr))
       case CallPop => (m.(popCount := m.popCount + 1), PopLoad)
       case Go => (m, Idle)
       case Spurious => (m, Idle))
    case PushCas(node) =>
      if node !in m.heap then (m, Faulted)
      else if m.head == m.heap[node].next && c != Spurious then (m.(head := node), Idle)
      else (m, PushStore(node, m.head))
    case PushStore(node, seen) =>
      if node !in m.heap then (m, Faulted)
      else (m.(heap := SetNext(m.heap, node, seen)), PushCas(node))
    case PopLoad => (m, AfterHead(m.head))
    case PopNext(prev) =>
      if prev !in m.heap then (m, Faulted) else (m, PopCas(prev, m.heap[prev].next))
    case PopCas(prev, next) =>
      if m.head == prev && c != Spurious then (m.(head := next), PopRead(prev))
      else (m, AfterHead(m.head))
    case PopEmpty => (m.(popCount := m.popCount - 1), Idle)
    case PopRead(prev) =>
      if prev !in m.heap then (m, Faulted) else (m, TestCount(prev))
    case TestCount(prev) => (m, if m.popCount == 1 then Exchange(prev) else ChainLoad(prev, prev, 0))
    case Exchange(prev) => (m.(pendingList := 0), Release(prev, m.pendingList))
    case Release(prev, list) =>
      (m.(popCount := m.popCount - 1),
       if m.popCount - 1 == 0 then FreeList(prev, list)
       else if list != 0 then FindLast(prev, list, list)
       else FreePrev(prev))
    case FreeList(prev, node) =>
      if node == 0 then (m, FreePrev(prev))
      else if node !in m.heap then (m, Faulted)
      else (m, FreeNode(prev, node, m.heap[node].next))
    case FreeNode(prev, node, next) =>
      if node !in m.heap then (m, Faulted) else (m.(heap := m.heap - {node}), FreeList(prev, next))
    case FindLast(prev, first, last) =>
      if last !in m.heap then (m, Faulted)
      else if m.heap[last].next != 0 then (m, FindLast(prev, first, m.heap[last].next))
      else (m, ChainLoad(first, last, prev))
    case ChainLoad(first, last, back) => (m, ChainStore(first, last, back, m.pendingList))
    case ChainStore(first, last, back, seen) =>
      if last !in m.heap then (m, Faulted)
      else (m.(heap := SetNext(m.heap, last, seen)), ChainCas(first, last, back))
    case ChainCas(first, last, back) =>
      if last !in m.heap then (m, Faulted)
      else if m.pendingList == m.heap[last].next && c != Spurious then
        (m.(pendingList := first), if back == 0 then Leave else FreePrev(back))
      else (m, ChainStore(first, last, back, m.pendingList))
    case FreePrev(prev) =>
      if prev !in m.heap then (m, Faulted) else (m.(heap := m.heap - {prev}), Idle)
    case Leave => (m.(popCount := m.popCount - 1), Idle)
    case Faulted => (m, Faulted)
  }

  /** TryPop's out-parameter is assigned by `value = prevHead->data`. */
  function OutAfter(m: Mem, th: Thread): Value {
    if th.pc.PopRead? && th.pc.prev in m.heap then m.heap[th.pc.prev].data else th.out
  }

  function Step(s: State, t: Tid, c: Choice): State
    requires t < |s.threads|
  {
    var th := s.threads[t];
    var (m, pc) := Act(s.m, th.pc, c);
    State(m, s.threads[t := Thread(pc, OutAfter(s.m, th))])
  }

  datatype Move = Move(t: Tid, c: Choice)

  /** A run: each move lets one thread take one step; moves of threads that do not exist do nothing. */
  function Exec(s: State, moves: seq<Move>): State
    decreases |moves|
  {
    if moves == [] then s
    else Exec(if moves[0].t < |s.threads| then Step(s, moves[0].t, moves[0].c) else s, moves[1..])
  }

  // ---------------------------------------------------------------------------------------------
  // Bookkeeping for the proof: the order of the nodes in each list, and who owns each node.

  /** Loose: unlinked by that thread, other threads may still hold a pointer to it.
      Sole: nobody but that thread holds a pointer to it. */
  datatype Owner = InStack | Pending | Loose(t: Tid) | Sole(t: Tid)

  datatype Ghost = Ghost(stack: seq<Ptr>, pending: seq<Ptr>, lists: seq<seq<Ptr>>, owner: map<Ptr, Owner>)

  ghost function InitGhost(n: nat): Ghost {
    Ghost([], [], seq(n, _ => []), map[])
  }

  /** Following `next` from p passes exactly the nodes q, all different, and arrives at `end`. */
  ghost predicate Segment(h: map<Ptr, Node>, p: Ptr, q: seq<Ptr>, end: Ptr)
    decreases |q|
  {
    if q == [] then p == end
    else p != 0 && p == q[0] && p in h && p !in q[1..] && Segment(h, h[p].next, q[1..], end)
  }

  ghost predicate Linked(h: map<Ptr, Node>, p: Ptr, q: seq<Ptr>) {
    Segment(h, p, q, 0)
  }

  predicate InRegion(pc: PC) {
    pc.PopLoad? || pc.PopNext? || pc.PopCas? || pc.PopEmpty? || pc.PopRead? || pc.TestCount? || pc.Exchange?
    || pc.Release? || pc.Leave? || (pc.ChainLoad? && pc.back == 0) || (pc.ChainStore? && pc.back == 0)
    || (pc.ChainCas? && pc.back == 0)
  }

  function RegionCount(ts: seq<Thread>): nat {
    Count(ts, (th: Thread) => InRegion(th.pc))
  }

  /** The head a popper has read and does not own. */
  predicate Refers(pc: PC, p: Ptr) {
    (pc.PopNext? || pc.PopCas?) && pc.prev == p
  }

  ghost predicate AllOwned(g: Ghost, q: seq<Ptr>, o: Owner) {
    forall p :: p in q ==> Has(g, p, o)
  }

  ghost predicate Has(g: Ghost, p: Ptr, o: Owner) {
    p in g.owner && g.owner[p] == o
  }

  /** The nodes a thread owns besides those of its list. */
  predicate Keeps(pc: PC, p: Ptr) {
    match pc
    case PushCas(n) => p == n
    case PushStore(n, _) => p == n
    case PopRead(n) => p == n
    case TestCount(n) => p == n
    case Exchange(n) => p == n
    case Release(n, _) => p == n
    case FreeList(n, _) => p == n
    case FreeNode(n, _, _) => p == n
    case FindLast(n, _, _) => p == n
    case ChainLoad(_, _, n) => n != 0 && p == n
    case ChainStore(_, _, n, _) => n != 0 && p == n
    case ChainCas(_, _, n) => n != 0 && p == n
    case FreePrev(n) => p == n
    case Idle => false
    case PopLoad => false
    case PopNext(_) => false
    case PopCas(_, _) => false
    case PopEmpty => false
    case Leave => false
    case Faulted => false
  }

  ghost predicate ChainInv(s: State, g: Ghost, t: Tid, q: seq<Ptr>, first: Ptr, last: Ptr, back: Ptr) {
    && q != [] && last == q[|q| - 1] && last in s.m.heap && Segment(s.m.heap, first, q, s.m.heap[last].next)
    && AllOwned(g, q, Loose(t))
    && (back != 0 ==> Has(g, back, Sole(t)))
  }

  ghost predicate ThreadInv(s: State, g: Ghost, t: Tid)
    requires t < |s.threads| && |g.lists| == |s.threads|
  {
    var q := g.lists[t];
    match s.threads[t].pc
    case Idle => q == []
    case PushCas(n) => q == [] && Has(g, n, Sole(t))
    case PushStore(n, _) => q == [] && Has(g, n, Sole(t))
    case PopLoad => q == []
    case PopNext(p) => q == [] && p in g.owner && !g.owner[p].Sole?
    case PopCas(p, n) =>
      && q == [] && p in g.owner && !g.owner[p].Sole?
      && (g.owner[p] == InStack ==> p in s.m.heap && s.m.heap[p].next == n)
    case PopEmpty => q == []
    case PopRead(p) => q == [] && Has(g, p, Loose(t))
    case TestCount(p) => q == [] && Has(g, p, Loose(t))
    case Exchange(p) => q == [] && Has(g, p, Sole(t))
    case Release(p, l) => Has(g, p, Sole(t)) && Linked(s.m.heap, l, q) && AllOwned(g, q, Loose(t))
    case FreeList(p, n) => Has(g, p, Sole(t)) && Linked(s.m.heap, n, q) && AllOwned(g, q, Sole(t)) && p !in q
    case FreeNode(p, n, m) =>
      && Has(g, p, Sole(t)) && n != 0 && Linked(s.m.heap, n, q) && AllOwned(g, q, Sole(t)) && p !in q
      && n in s.m.heap && s.m.heap[n].next == m
    case FindLast(p, f, l) =>
      Has(g, p, Sole(t)) && f != 0 && Linked(s.m.heap, f, q) && AllOwned(g, q, Loose(t)) && l in q
    case ChainLoad(f, l, b) => ChainInv(s, g, t, q, f, l, b)
    case ChainStore(f, l, b, _) => ChainInv(s, g, t, q, f, l, b)
    case ChainCas(f, l, b) => ChainInv(s, g, t, q, f, l, b)
    case FreePrev(p) => q == [] && Has(g, p, Sole(t))
    case Leave => q == []
    case Faulted => false
  }

  /** Every allocated node has exactly one owner, and the owner really has it. */
  ghost predicate OwnerInv(s: State, g: Ghost)
    requires |g.lists| == |s.threads|
  {
    forall p :: p in g.owner ==> OwnedWell(s, g, p)
  }

  ghost predicate OwnedWell(s: State, g: Ghost, p: Ptr)
    requires |g.lists| == |s.threads| && p in g.owner
  {
    match g.owner[p]
    case InStack => p in g.stack
    case Pending => p in g.pending
    case Loose(t) => t < |s.threads| && Holds(s, g, t, p)
    case Sole(t) => t < |s.threads| && Holds(s, g, t, p)
  }

  /** The part of the invariant that is not about one thread. */
  ghost predicate Core(s: State, g: Ghost) {
    && |g.lists| == |s.threads|
    && 0 !in s.m.heap && (forall p :: p in s.m.heap <==> p in g.owner)
    && Linked(s.m.heap, s.m.head, g.stack) && AllOwned(g, g.stack, InStack)
    && Linked(s.m.heap, s.m.pendingList, g.pending) && AllOwned(g, g.pending, Pending)
  }

  ghost predicate Inv(s: State, g: Ghost) {
    && Core(s, g)
    && s.m.popCount == RegionCount(s.threads)
    && forall t :: 0 <= t < |s.threads| ==> ThreadInv(s, g, t)
  }

  ghost function Claim(owner: map<Ptr, Owner>, q: seq<Ptr>, o: Owner): map<Ptr, Owner> {
    map p | p in owner :: if p in q then o else owner[p]
  }

  /** How the bookkeeping follows a step. */
  ghost function Track(s: State, g: Ghost, t: Tid, c: Choice): Ghost
    requires t < |s.threads| && |g.lists| == |s.threads|
  {
    match s.threads[t].pc
    case Idle =>
      if c.CallPush? && c.addr != 0 && c.addr !in s.m.heap then g.(owner := g.owner[c.addr := Sole(t)]) else g
    case PushCas(n) =>
      if n in s.m.heap && s.m.head == s.m.heap[n].next && c != Spurious
      then g.(stack := [n] + g.stack, owner := g.owner[n := InStack]) else g
    case PopCas(p, _) =>
      if s.m.head == p && c != Spurious && g.stack != []
      then g.(stack := g.stack[1..], owner := g.owner[p := Loose(t)]) else g
    case TestCount(p) =>
      if s.m.popCount == 1 then g.(owner := g.owner[p := Sole(t)]) else g.(lists := g.lists[t := [p]])
    case Exchange(p) =>
      Ghost(g.stack, [], g.lists[t := g.pending], Claim(g.owner, g.pending, Loose(t)))
    case Release(p, _) =>
      if s.m.popCount - 1 == 0 then g.(owner := Claim(g.owner, g.lists[t], Sole(t))) else g
    case FreeNode(_, n, _) =>
      if g.lists[t] == [] then g else g.(lists := g.lists[t := g.lists[t][1..]], owner := g.owner - {n})
    case ChainCas(_, last, _) =>
      if last in s.m.heap && s.m.pendingList == s.m.heap[last].next && c != Spurious
      then Ghost(g.stack, g.lists[t] + g.pending, g.lists[t := []], Claim(g.owner, g.lists[t], Pending)) else g
    case FreePrev(p) => g.(owner := g.owner - {p})
    case _ => g
  }

  lemma InitHolds(n: nat)
    ensures Inv(Init(n), InitGhost(n))
  {
    CountNone(Init(n).threads, (th: Thread) => InRegion(th.pc));
  }

  /** What a step of thread t must leave alone for thread u's part of the invariant. */
  ghost predicate Untouched(s: State, g: Ghost, s': State, g': Ghost, t: Tid, u: Tid)
    requires t < |s.threads| && u < |s.threads| && |g.lists| == |s.threads|
  {
    && |s'.threads| == |s.threads| && |g'.lists| == |g.lists|
    && s'.threads[u] == s.threads[u] && g'.lists[u] == g.lists[u]
    && (forall p :: p in g.owner && (g.owner[p] == Loose(u) || g.owner[p] == Sole(u)) ==>
          Has(g', p, g.owner[p]) && (p in s.m.heap ==> p in s'.m.heap && s'.m.heap[p] == s.m.heap[p]))
    && (forall p :: p in g.owner && !g.owner[p].Sole? && Refers(s.threads[u].pc, p) ==>
          && p in g'.owner && !g'.owner[p].Sole?
          && (g'.owner[p] == InStack ==>
                g.owner[p] == InStack && (p in s.m.heap ==> p in s'.m.heap && s'.m.heap[p].next == s.m.heap[p].next)))
  }

  lemma OtherThread(s: State, g: Ghost, s': State, g': Ghost, t: Tid, u: Tid)
    requires t < |s.threads| && u < |s.threads| && t != u && |g.lists| == |s.threads|
    requires forall p :: p in s.m.heap <==> p in g.owner
    requires ThreadInv(s, g, u)
    requires Untouched(s, g, s', g', t, u)
    ensures ThreadInv(s', g', u)
  {
    var pc := s.threads[u].pc;
    var q := g.lists[u];
    if pc.Release? {
      SegmentFrame(s.m.heap, s'.m.heap, pc.list, q, 0);
    } else if pc.FreeList? || pc.FreeNode? {
      SegmentFrame(s.m.heap, s'.m.heap, pc.node, q, 0);
    } else if pc.FindLast? {
      SegmentFrame(s.m.heap, s'.m.heap, pc.first, q, 0);
    } else if pc.ChainLoad? || pc.ChainStore? || pc.ChainCas? {
      SegmentFrame(s.m.heap, s'.m.heap, pc.first, q, s.m.heap[pc.last].next);
    }
  }

  lemma RegionStep(ts: seq<Thread>, t: Tid, th: Thread)
    requires t < |ts|
    ensures RegionCount(ts[t := th]) + (if InRegion(ts[t].pc) then 1 else 0)
            == RegionCount(ts) + (if InRegion(th.pc) then 1 else 0)
  {
    CountUpdate(ts, t, th, (th: Thread) => InRegion(th.pc));
  }

  lemma RegionAlone(ts: seq<Thread>, t: Tid)
    requires t < |ts| && InRegion(ts[t].pc) && RegionCount(ts) == 1
    ensures forall u, p :: 0 <= u < |ts| && u != t ==> !Refers(ts[u].pc, p)
  {
    var p := (th: Thread) => InRegion(th.pc);
    CountOnly(ts, t, p);
    assert forall u :: 0 <= u < |ts| && u != t ==> !p(ts[u]);
  }

  lemma {:induction false} SegmentFrame(h: map<Ptr, Node>, h': map<Ptr, Node>, p: Ptr, q: seq<Ptr>, end: Ptr)
    requires Segment(h, p, q, end)
    requires forall x :: x in q ==> x in h && x in h' && h'[x].next == h[x].next
    ensures Segment(h', p, q, end)
    decreases |q|
  {
    if q != [] {
      SegmentFrame(h, h', h[p].next, q[1..], end);
    }
  }

  lemma {:induction false} SegmentNext(h: map<Ptr, Node>, p: Ptr, q: seq<Ptr>, l: Ptr)
    requires Segment(h, p, q, 0) && l in q
    ensures l in h
    ensures if h[l].next != 0 then h[l].next in q else l == q[|q| - 1]
    decreases |q|
  {
    if l != p {
      SegmentNext(h, h[p].next, q[1..], l);
    } else if h[p].next != 0 {
      assert q[1..] != [] && q[1] == h[p].next;
    }
  }

  /** Redirecting the last node redirects the segment. */
  lemma {:induction false} SegmentSetLast(h: map<Ptr, Node>, p: Ptr, q: seq<Ptr>, end: Ptr, n: Node)
    requires q != [] && Segment(h, p, q, end)
    ensures Segment(h[q[|q| - 1] := n], p, q, n.next)
    decreases |q|
  {
    if |q| > 1 {
      assert q[1..][|q[1..]| - 1] == q[|q| - 1];
      SegmentSetLast(h, h[p].next, q[1..], end, n);
    }
  }

  lemma {:induction false} SegmentAppend(h: map<Ptr, Node>, p: Ptr, q: seq<Ptr>, r: Ptr, w: seq<Ptr>)
    requires Segment(h, p, q, r) && Segment(h, r, w, 0)
    requires forall x :: x in q ==> x !in w
    ensures Segment(h, p, q + w, 0)
    decreases |q|
  {
    if q == [] {
      assert q + w == w;
    } else {
      assert (q + w)[1..] == q[1..] + w;
      SegmentAppend(h, h[p].next, q[1..], r, w);
    }
  }

  lemma Assemble(s: State, g: Ghost, t: Tid, s': State, g': Ghost)
    requires t < |s.threads| && Inv(s, g)
    requires Core(s', g') && s'.m.popCount == RegionCount(s'.threads) && |s'.threads| == |s.threads|
    requires ThreadInv(s', g', t)
    requires forall u :: 0 <= u < |s.threads| && u != t ==> Untouched(s, g, s', g', t, u)
    ensures Inv(s', g')
  {
    forall u | 0 <= u < |s.threads|
      ensures ThreadInv(s', g', u)
    {
      if u != t {
        OtherThread(s, g, s', g', t, u);
      }
    }
  }

  /** What the lemma about each kind of step shows. */
  ghost predicate StepKeeps(s: State, g: Ghost, t: Tid, s': State, g': Ghost)
    requires t < |s.threads| && |g.lists| == |s.threads|
  {
    && Core(s', g') && |s'.threads| == |s.threads| && ThreadInv(s', g', t)
    && forall u :: 0 <= u < |s.threads| && u != t ==> Untouched(s, g, s', g', t, u)
  }

  lemma StepRead(s: State, g: Ghost, t: Tid, c: Choice)
    requires t < |s.threads| && Core(s, g) && ThreadInv(s, g, t)
    requires var pc := s.threads[t].pc; pc.PopLoad? || pc.PopNext? || pc.PopEmpty? || pc.PopRead? || pc.Leave?
    ensures StepKeeps(s, g, t, Step(s, t, c), Track(s, g, t, c))
  {
    assert s.m.head != 0 ==> s.m.head in g.stack;
  }

  lemma StepFreeList(s: State, g: Ghost, t: Tid, c: Choice)
    requires t < |s.threads| && Core(s, g) && ThreadInv(s, g, t)
    requires s.threads[t].pc.FreeList?
    ensures StepKeeps(s, g, t, Step(s, t, c), Track(s, g, t, c))
  {
  }

  lemma StepFindLast(s: State, g: Ghost, t: Tid, c: Choice)
    requires t < |s.threads| && Core(s, g) && ThreadInv(s, g, t)
    requires s.threads[t].pc.FindLast?
    ensures StepKeeps(s, g, t, Step(s, t, c), Track(s, g, t, c))
  {
    SegmentNext(s.m.heap, s.threads[t].pc.first, g.lists[t], s.threads[t].pc.last);
  }

  lemma StepChainLoad(s: State, g: Ghost, t: Tid, c: Choice)
    requires t < |s.threads| && Core(s, g) && ThreadInv(s, g, t)
    requires s.threads[t].pc.ChainLoad?
    ensures StepKeeps(s, g, t, Step(s, t, c), Track(s, g, t, c))
  {
  }

  lemma StepIdle(s: State, g: Ghost, t: Tid, c: Choice)
    requires t < |s.threads| && Core(s, g) && ThreadInv(s, g, t)
    requires s.threads[t].pc.Idle?
    ensures StepKeeps(s, g, t, Step(s, t, c), Track(s, g, t, c))
  {
    var s' := Step(s, t, c);
    SegmentFrame(s.m.heap, s'.m.heap, s.m.head, g.stack, 0);
    SegmentFrame(s.m.heap, s'.m.heap, s.m.pendingList, g.pending, 0);
    var g' := Track(s, g, t, c);
    assert Core(s', g');
    assert ThreadInv(s', g', t);
    forall u | 0 <= u < |s.threads| && u != t
      ensures Untouched(s, g, s', g', t, u)
    {
    }
  }

  lemma StepPushCas(s: State, g: Ghost, t: Tid, c: Choice)
    requires t < |s.threads| && Core(s, g) && ThreadInv(s, g, t)
    requires s.threads[t].pc.PushCas?
    ensures StepKeeps(s, g, t, Step(s, t, c), Track(s, g, t, c))
  {
  }

  lemma StepPushStore(s: State, g: Ghost, t: Tid, c: Choice)
    requires t < |s.threads| && Core(s, g) && ThreadInv(s, g, t)
    requires s.threads[t].pc.PushStore?
    ensures StepKeeps(s, g, t, Step(s, t, c), Track(s, g, t, c))
  {
    var s' := Step(s, t, c);
    SegmentFrame(s.m.heap, s'.m.heap, s.m.head, g.stack, 0);
    SegmentFrame(s.m.heap, s'.m.heap, s.m.pendingList, g.pending, 0);
  }

  lemma StepPopCas(s: State, g: Ghost, t: Tid, c: Choice)
    requires t < |s.threads| && Core(s, g) && ThreadInv(s, g, t)
    requires s.threads[t].pc.PopCas?
    ensures StepKeeps(s, g, t, Step(s, t, c), Track(s, g, t, c))
  {
    assert s.m.head != 0 ==> s.m.head in g.stack;
    assert g.stack != [] ==> forall x :: x in g.stack[1..] ==> x in g.stack;
  }

  lemma StepTestCount(s: State, g: Ghost, t: Tid, c: Choice)
    requires t < |s.threads| && Core(s, g) && ThreadInv(s, g, t)
    requires s.threads[t].pc.TestCount?
    requires s.m.popCount == 1 ==> forall u, p :: 0 <= u < |s.threads| && u != t ==> !Refers(s.threads[u].pc, p)
    ensures StepKeeps(s, g, t, Step(s, t, c), Track(s, g, t, c))
  {
  }

  lemma StepExchange(s: State, g: Ghost, t: Tid, c: Choice)
    requires t < |s.threads| && Core(s, g) && ThreadInv(s, g, t)
    requires s.threads[t].pc.Exchange?
    ensures StepKeeps(s, g, t, Step(s, t, c), Track(s, g, t, c))
  {
  }

  lemma StepRelease(s: State, g: Ghost, t: Tid, c: Choice)
    requires t < |s.threads| && Core(s, g) && ThreadInv(s, g, t)
    requires s.threads[t].pc.Release?
    requires s.m.popCount == 1 ==> forall u, p :: 0 <= u < |s.threads| && u != t ==> !Refers(s.threads[u].pc, p)
    ensures StepKeeps(s, g, t, Step(s, t, c), Track(s, g, t, c))
  {
  }

  lemma StepFreeNode(s: State, g: Ghost, t: Tid, c: Choice)
    requires t < |s.threads| && Core(s, g) && ThreadInv(s, g, t)
    requires s.threads[t].pc.FreeNode?
    ensures StepKeeps(s, g, t, Step(s, t, c), Track(s, g, t, c))
  {
    FreeNodeCore(s, g, t, c);
    var s' := Step(s, t, c);
    var g' := Track(s, g, t, c);
    var q := g.lists[t];
    assert s.threads[t].pc.node in q && forall x :: x in q[1..] ==> x in q;
    assert ThreadInv(s', g', t);
    forall u | 0 <= u < |s.threads| && u != t
      ensures Untouched(s, g, s', g', t, u)
    {
    }
  }

  lemma FreeNodeCore(s: State, g: Ghost, t: Tid, c: Choice)
    requires t < |s.threads| && Core(s, g) && ThreadInv(s, g, t)
    requires s.threads[t].pc.FreeNode?
    ensures Core(Step(s, t, c), Track(s, g, t, c))
    ensures Segment(Step(s, t, c).m.heap, s.m.heap[s.threads[t].pc.node].next, g.lists[t][1..], 0)
  {
    var s' := Step(s, t, c);
    var n := s.threads[t].pc.node;
    var q := g.lists[t];
    assert n in q && forall x :: x in q[1..] ==> x in q;
    SegmentFrame(s.m.heap, s'.m.heap, s.m.head, g.stack, 0);
    SegmentFrame(s.m.heap, s'.m.heap, s.m.pendingList, g.pending, 0);
    SegmentFrame(s.m.heap, s'.m.heap, s.m.heap[n].next, q[1..], 0);
  }

  lemma StepChainStore(s: State, g: Ghost, t: Tid, c: Choice)
    requires t < |s.threads| && Core(s, g) && ThreadInv(s, g, t)
    requires s.threads[t].pc.ChainStore?
    ensures StepKeeps(s, g, t, Step(s, t, c), Track(s, g, t, c))
  {
    var s' := Step(s, t, c);
    var pc := s.threads[t].pc;
    assert pc.last in g.lists[t];
    SegmentFrame(s.m.heap, s'.m.heap, s.m.head, g.stack, 0);
    SegmentFrame(s.m.heap, s'.m.heap, s.m.pendingList, g.pending, 0);
    SegmentSetLast(s.m.heap, pc.first, g.lists[t], s.m.heap[pc.last].next, s'.m.heap[pc.last]);
    var g' := Track(s, g, t, c);
    assert Core(s', g');
    assert ThreadInv(s', g', t);
    forall u | 0 <= u < |s.threads| && u != t
      ensures Untouched(s, g, s', g', t, u)
    {
    }
  }

  lemma StepChainCas(s: State, g: Ghost, t: Tid, c: Choice)
    requires t < |s.threads| && Core(s, g) && ThreadInv(s, g, t)
    requires s.threads[t].pc.ChainCas?
    ensures StepKeeps(s, g, t, Step(s, t, c), Track(s, g, t, c))
  {
    ChainCasCore(s, g, t, c);
    var s' := Step(s, t, c);
    var g' := Track(s, g, t, c);
    assert ThreadInv(s', g', t);
    forall u | 0 <= u < |s.threads| && u != t
      ensures Untouched(s, g, s', g', t, u)
    {
    }
  }

  lemma ChainCasCore(s: State, g: Ghost, t: Tid, c: Choice)
    requires t < |s.threads| && Core(s, g) && ThreadInv(s, g, t)
    requires s.threads[t].pc.ChainCas?
    ensures Core(Step(s, t, c), Track(s, g, t, c))
  {
    var pc := s.threads[t].pc;
    if s.m.pendingList == s.m.heap[pc.last].next {
      SegmentAppend(s.m.heap, pc.first, g.lists[t], s.m.pendingList, g.pending);
    }
  }

  lemma StepFreePrev(s: State, g: Ghost, t: Tid, c: Choice)
    requires t < |s.threads| && Core(s, g) && ThreadInv(s, g, t)
    requires s.threads[t].pc.FreePrev?
    ensures StepKeeps(s, g, t, Step(s, t, c), Track(s, g, t, c))
  {
    FreePrevCore(s, g, t, c);
    var s' := Step(s, t, c);
    var g' := Track(s, g, t, c);
    assert ThreadInv(s', g', t);
    forall u | 0 <= u < |s.threads| && u != t
      ensures Untouched(s, g, s', g', t, u)
    {
    }
  }

  lemma FreePrevCore(s: State, g: Ghost, t: Tid, c: Choice)
    requires t < |s.threads| && Core(s, g) && ThreadInv(s, g, t)
    requires s.threads[t].pc.FreePrev?
    ensures Core(Step(s, t, c), Track(s, g, t, c))
  {
    var s' := Step(s, t, c);
    SegmentFrame(s.m.heap, s'.m.heap, s.m.head, g.stack, 0);
    SegmentFrame(s.m.heap, s'.m.heap, s.m.pendingList, g.pending, 0);
  }

  /** popCount changes exactly when the stepping thread enters or leaves the pop region. */
  lemma ActPopCount(m: Mem, pc: PC, c: Choice)
    requires !Act(m, pc, c).1.Faulted? && (pc.FindLast? ==> pc.prev != 0)
    ensures Act(m, pc, c).0.popCount + (if InRegion(pc) then 1 else 0)
            == m.popCount + (if InRegion(Act(m, pc, c).1) then 1 else 0)
  {
  }

  lemma StepCase(s: State, g: Ghost, t: Tid, c: Choice)
    requires t < |s.threads| && Core(s, g) && ThreadInv(s, g, t)
    requires s.m.popCount == 1 && (s.threads[t].pc.TestCount? || s.threads[t].pc.Release?) ==>
               forall u, p :: 0 <= u < |s.threads| && u != t ==> !Refers(s.threads[u].pc, p)
    ensures StepKeeps(s, g, t, Step(s, t, c), Track(s, g, t, c))
  {
    match s.threads[t].pc {
      case Idle => StepIdle(s, g, t, c);
      case PushCas(_) => StepPushCas(s, g, t, c);
      case PushStore(_, _) => StepPushStore(s, g, t, c);
      case PopCas(_, _) => StepPopCas(s, g, t, c);
      case TestCount(_) => StepTestCount(s, g, t, c);
      case Exchange(_) => StepExchange(s, g, t, c);
      case Release(_, _) => StepRelease(s, g, t, c);
      case FreeNode(_, _, _) => StepFreeNode(s, g, t, c);
      case ChainStore(_, _, _, _) => StepChainStore(s, g, t, c);
      case ChainCas(_, _, _) => StepChainCas(s, g, t, c);
      case FreePrev(_) => StepFreePrev(s, g, t, c);
      case FreeList(_, _) => StepFreeList(s, g, t, c);
      case FindLast(_, _, _) => StepFindLast(s, g, t, c);
      case ChainLoad(_, _, _) => StepChainLoad(s, g, t, c);
      case _ => StepRead(s, g, t, c);
    }
  }

  lemma StepInv(s: State, g: Ghost, t: Tid, c: Choice)
    requires t < |s.threads| && Inv(s, g)
    ensures StepKeeps(s, g, t, Step(s, t, c), Track(s, g, t, c))
    ensures Inv(Step(s, t, c), Track(s, g, t, c))
  {
    var s' := Step(s, t, c);
    var g' := Track(s, g, t, c);
    assert ThreadInv(s, g, t);
    if s.m.popCount == 1 && (s.threads[t].pc.TestCount? || s.threads[t].pc.Release?) {
      RegionAlone(s.threads, t);
    }
    StepCase(s, g, t, c);
    ActPopCount(s.m, s.threads[t].pc, c);
    RegionStep(s.threads, t, s'.threads[t]);
    Assemble(s, g, t, s', g');
  }

  // ---------------------------------------------------------------------------------------------
  // Theorems over every run.

  ghost function TrackRun(s: State, g: Ghost, moves: seq<Move>): Ghost
    decreases |moves|
  {
    if moves == [] || !Inv(s, g) then g
    else
      var Move(t, c) := moves[0];
      if t < |s.threads| then TrackRun(Step(s, t, c), Track(s, g, t, c), moves[1..]) else TrackRun(s, g, moves[1..])
  }

  lemma {:induction false} RunInv(s: State, g: Ghost, moves: seq<Move>)
    requires Inv(s, g)
    ensures Inv(Exec(s, moves), TrackRun(s, g, moves))
    decreases |moves|
  {
    if moves != [] {
      var t := moves[0].t;
      if t < |s.threads| {
        StepInv(s, g, t, moves[0].c);
        RunInv(Step(s, t, moves[0].c), Track(s, g, t, moves[0].c), moves[1..]);
      } else {
        RunInv(s, g, moves[1..]);
      }
    }
  }

  /** Whatever n threads do, in whatever interleaving and with whatever reuse of addresses, no thread
      ever touches a node that is not allocated and no node is deleted twice. */
  lemma ReclamationSafety(n: nat, moves: seq<Move>)
    ensures forall t :: 0 <= t < |Exec(Init(n), moves).threads| ==> !Exec(Init(n), moves).threads[t].pc.Faulted?
  {
    InitHolds(n);
    RunInv(Init(n), InitGhost(n), moves);
    var s := Exec(Init(n), moves);
    var g := TrackRun(Init(n), InitGhost(n), moves);
    forall t | 0 <= t < |s.threads|
      ensures !s.threads[t].pc.Faulted?
    {
      assert ThreadInv(s, g, t);
    }
  }

  /** No ABA: when a popper's CAS is about to succeed, the next pointer it read earlier is still the
      head node's next pointer. */
  lemma NoAba(n: nat, moves: seq<Move>, t: Tid)
    requires var s := Exec(Init(n), moves);
             t < |s.threads| && s.threads[t].pc.PopCas? && s.m.head == s.threads[t].pc.prev
    ensures var s := Exec(Init(n), moves);
            s.m.head in s.m.heap && s.m.heap[s.m.head].next == s.threads[t].pc.next
  {
    InitHolds(n);
    RunInv(Init(n), InitGhost(n), moves);
    var s := Exec(Init(n), moves);
    var g := TrackRun(Init(n), InitGhost(n), moves);
    assert ThreadInv(s, g, t);
    assert s.m.head != 0;
    assert s.m.head in g.stack;
  }

  // ---------------------------------------------------------------------------------------------
  // Nothing leaks: every allocated node is in the stack, pending, or in some thread's hands.

  ghost predicate Holds(s: State, g: Ghost, t: Tid, p: Ptr)
    requires t < |s.threads| && |g.lists| == |s.threads|
  {
    Keeps(s.threads[t].pc, p) || p in g.lists[t]
  }

  /** Nodes in the stepping thread's hands: those it keeps, takes, or has had all along. */
  lemma OwnerMine(s: State, g: Ghost, t: Tid, c: Choice, p: Ptr)
    requires t < |s.threads| && Core(s, g) && ThreadInv(s, g, t)
    requires p in g.owner && (g.owner[p] == Loose(t) || g.owner[p] == Sole(t)) ==> Holds(s, g, t, p)
    requires Has(Track(s, g, t, c), p, Loose(t)) || Has(Track(s, g, t, c), p, Sole(t))
    requires |Track(s, g, t, c).lists| == |s.threads|
    ensures Holds(Step(s, t, c), Track(s, g, t, c), t, p)
  {
  }

  lemma OwnerElse(s: State, g: Ghost, t: Tid, c: Choice, p: Ptr)
    requires t < |s.threads| && Core(s, g) && ThreadInv(s, g, t)
    requires p in g.owner ==> OwnedWell(s, g, p)
    requires p in Track(s, g, t, c).owner && |Track(s, g, t, c).lists| == |s.threads|
    requires !Has(Track(s, g, t, c), p, Loose(t)) && !Has(Track(s, g, t, c), p, Sole(t))
    ensures OwnedWell(Step(s, t, c), Track(s, g, t, c), p)
  {
  }

  lemma OwnerStep(s: State, g: Ghost, t: Tid, c: Choice)
    requires t < |s.threads| && Inv(s, g) && OwnerInv(s, g)
    requires StepKeeps(s, g, t, Step(s, t, c), Track(s, g, t, c))
    ensures OwnerInv(Step(s, t, c), Track(s, g, t, c))
  {
    var s' := Step(s, t, c);
    var g' := Track(s, g, t, c);
    assert ThreadInv(s, g, t);
    forall p | p in g'.owner
      ensures OwnedWell(s', g', p)
    {
      if p in g.owner {
        assert OwnedWell(s, g, p);
      }
      if Has(g', p, Loose(t)) || Has(g', p, Sole(t)) {
        OwnerMine(s, g, t, c, p);
      } else {
        OwnerElse(s, g, t, c, p);
      }
    }
  }

  lemma {:induction false} RunOwner(s: State, g: Ghost, moves: seq<Move>)
    requires Inv(s, g) && OwnerInv(s, g)
    ensures Inv(Exec(s, moves), TrackRun(s, g, moves))
    ensures OwnerInv(Exec(s, moves), TrackRun(s, g, moves))
    decreases |moves|
  {
    if moves != [] {
      var t := moves[0].t;
      if t < |s.threads| {
        StepInv(s, g, t, moves[0].c);
        OwnerStep(s, g, t, moves[0].c);
        RunOwner(Step(s, t, moves[0].c), Track(s, g, t, moves[0].c), moves[1..]);
      } else {
        RunOwner(s, g, moves[1..]);
      }
    }
  }

  /** p can be reached from `from` through next pointers. */
  ghost predicate Reaches(h: map<Ptr, Node>, from: Ptr, p: Ptr) {
    exists q :: Linked(h, from, q) && p in q
  }

  /** When all threads are idle, every node still allocated hangs off _head or off _pendingList. */
  lemma NoLeak(n: nat, moves: seq<Move>, p: Ptr)
    requires var s := Exec(Init(n), moves);
             p in s.m.heap && forall t :: 0 <= t < |s.threads| ==> s.threads[t].pc.Idle?
    ensures var m := Exec(Init(n), moves).m;
            Reaches(m.heap, m.head, p) || Reaches(m.heap, m.pendingList, p)
  {
    InitHolds(n);
    RunOwner(Init(n), InitGhost(n), moves);
    var s := Exec(Init(n), moves);
    var g := TrackRun(Init(n), InitGhost(n), moves);
    assert OwnedWell(s, g, p);
    forall t | 0 <= t < |s.threads| ensures !Holds(s, g, t, p) {
      assert ThreadInv(s, g, t);
    }
    assert !g.owner[p].Loose? && !g.owner[p].Sole?;
    assert Linked(s.m.heap, s.m.head, g.stack) && Linked(s.m.heap, s.m.pendingList, g.pending);
    assert p in g.stack || p in g.pending;
  }

  // ---------------------------------------------------------------------------------------------
  // Linearizability: every run is a history of a sequential stack.

  datatype Event =
    | Internal
    | CalledPush(v: Value)
    | Pushed
    | CalledPop
    | Popped
    | FoundEmpty
    | ReturnedTrue(v: Value)
    | ReturnedFalse

  /** What a thread may do next at the sequential stack. */
  datatype Due = Free | Arg(v: Value) | Seeking | Nothing | Got(v: Value)

  datatype Lifo = Lifo(stack: seq<Value>, due: seq<Due>)

  /** The sequential stack: between its call and its return each operation takes effect once, and
      TryPop returns false only if the stack was empty at that moment. */
  function LifoNext(a: Lifo, t: Tid, e: Event): Option<Lifo>
    requires t < |a.due|
  {
    match (e, a.due[t])
    case (Internal, _) => Some(a)
    case (CalledPush(v), Free) => Some(a.(due := a.due[t := Arg(v)]))
    case (Pushed, Arg(v)) => Some(Lifo([v] + a.stack, a.due[t := Free]))
    case (CalledPop, Free) => Some(a.(due := a.due[t := Seeking]))
    case (Popped, Seeking) => if a.stack == [] then None else Some(Lifo(a.stack[1..], a.due[t := Got(a.stack[0])]))
    case (FoundEmpty, Seeking) => if a.stack != [] then None else Some(a.(due := a.due[t := Nothing]))
    case (ReturnedTrue(v), Got(w)) => if v != w then None else Some(a.(due := a.due[t := Free]))
    case (ReturnedFalse, Nothing) => Some(a.(due := a.due[t := Free]))
    case (_, _) => None
  }

  /** The event of one step, read off the code: the successful CAS on _head, the load of a null head,
      the calls and the returns. */
  function EventOf(s: State, t: Tid, c: Choice): Event
    requires t < |s.threads|
  {
    var th := s.threads[t];
    match th.pc
    case Idle =>
      if c.CallPush? && c.addr != 0 && c.addr !in s.m.heap then CalledPush(c.value)
      else if c.CallPop? then CalledPop else Internal
    case PushCas(node) =>
      if node in s.m.heap && s.m.head == s.m.heap[node].next && c != Spurious then Pushed else Internal
    case PopLoad => if s.m.head == 0 then FoundEmpty else Internal
    case PopCas(prev, _) =>
      if s.m.head == prev && c != Spurious then Popped else if s.m.head == 0 then FoundEmpty else Internal
    case PopEmpty => ReturnedFalse
    case FreePrev(_) => ReturnedTrue(th.out)
    case Leave => ReturnedTrue(th.out)
    case _ => Internal
  }

  function DataAt(h: map<Ptr, Node>, p: Ptr): Value {
    if p in h then h[p].data else 0
  }

  function Values(h: map<Ptr, Node>, q: seq<Ptr>): seq<Value> {
    if q == [] then [] else [DataAt(h, q[0])] + Values(h, q[1..])
  }

  function DueOf(h: map<Ptr, Node>, th: Thread): Due {
    match th.pc
    case Idle => Free
    case PushCas(node) => Arg(DataAt(h, node))
    case PushStore(node, _) => Arg(DataAt(h, node))
    case PopLoad => Seeking
    case PopNext(_) => Seeking
    case PopCas(_, _) => Seeking
    case PopEmpty => Nothing
    case PopRead(prev) => Got(DataAt(h, prev))
    case Faulted => Free
    case _ => Got(th.out)
  }

  ghost function AbsOf(s: State, g: Ghost): Lifo {
    Lifo(Values(s.m.heap, g.stack), seq(|s.threads|, t requires 0 <= t < |s.threads| => DueOf(s.m.heap, s.threads[t])))
  }

  lemma {:induction false} ValuesFrame(h: map<Ptr, Node>, h': map<Ptr, Node>, q: seq<Ptr>)
    requires forall x :: x in q ==> DataAt(h', x) == DataAt(h, x)
    ensures Values(h', q) == Values(h, q)
  {
    if q != [] {
      ValuesFrame(h, h', q[1..]);
    }
  }

  /** No step changes the payload of a node that stays in the stack or in another thread's hands. */
  lemma StepData(s: State, g: Ghost, t: Tid, c: Choice, p: Ptr)
    requires t < |s.threads| && Core(s, g) && ThreadInv(s, g, t)
    requires p in g.owner && (g.owner[p] == InStack || ((g.owner[p].Loose? || g.owner[p].Sole?) && g.owner[p].t != t))
    ensures DataAt(Step(s, t, c).m.heap, p) == DataAt(s.m.heap, p)
  {
    var pc := s.threads[t].pc;
    assert pc.FreeNode? ==> pc.node in g.lists[t];
  }

  lemma DueOther(s: State, g: Ghost, t: Tid, c: Choice, u: Tid)
    requires t < |s.threads| && u < |s.threads| && u != t && Inv(s, g)
    ensures DueOf(Step(s, t, c).m.heap, s.threads[u]) == DueOf(s.m.heap, s.threads[u])
  {
    assert ThreadInv(s, g, t) && ThreadInv(s, g, u);
    var pc := s.threads[u].pc;
    if pc.PushCas? || pc.PushStore? {
      StepData(s, g, t, c, pc.node);
    } else if pc.PopRead? {
      StepData(s, g, t, c, pc.prev);
    }
  }

  lemma StackValues(s: State, g: Ghost, t: Tid, c: Choice)
    requires t < |s.threads| && Inv(s, g)
    ensures var v' := Values(Step(s, t, c).m.heap, Track(s, g, t, c).stack);
            var v := Values(s.m.heap, g.stack);
            match EventOf(s, t, c)
            case Pushed => v' == [DataAt(s.m.heap, s.threads[t].pc.node)] + v
            case Popped => v != [] && v[0] == DataAt(s.m.heap, s.threads[t].pc.prev) && v' == v[1..]
            case _ => v' == v
  {
    assert ThreadInv(s, g, t);
    forall x | x in g.stack
      ensures DataAt(Step(s, t, c).m.heap, x) == DataAt(s.m.heap, x)
    {
      StepData(s, g, t, c, x);
    }
    ValuesFrame(s.m.heap, Step(s, t, c).m.heap, g.stack);
  }

  lemma DueMine(s: State, g: Ghost, t: Tid, c: Choice)
    requires t < |s.threads| && Inv(s, g)
    ensures var d := DueOf(s.m.heap, s.threads[t]);
            var d' := DueOf(Step(s, t, c).m.heap, Step(s, t, c).threads[t]);
            match EventOf(s, t, c)
            case Internal => d' == d
            case CalledPush(v) => d == Free && d' == Arg(v)
            case Pushed => d == Arg(DataAt(s.m.heap, s.threads[t].pc.node)) && d' == Free
            case CalledPop => d == Free && d' == Seeking
            case Popped => d == Seeking && d' == Got(DataAt(s.m.heap, s.threads[t].pc.prev))
            case FoundEmpty => d == Seeking && d' == Nothing && g.stack == []
            case ReturnedTrue(v) => d == Got(v) && d' == Free
            case ReturnedFalse => d == Nothing && d' == Free
  {
    assert ThreadInv(s, g, t);
  }

  lemma StepRefines(s: State, g: Ghost, t: Tid, c: Choice)
    requires t < |s.threads| && Inv(s, g)
    ensures LifoNext(AbsOf(s, g), t, EventOf(s, t, c)) == Some(AbsOf(Step(s, t, c), Track(s, g, t, c)))
  {
    var s' := Step(s, t, c);
    var g' := Track(s, g, t, c);
    var a := AbsOf(s, g);
    var a' := AbsOf(s', g');
    forall u | 0 <= u < |s.threads| && u != t
      ensures a'.due[u] == a.due[u]
    {
      DueOther(s, g, t, c, u);
    }
    StackValues(s, g, t, c);
    DueMine(s, g, t, c);
    assert a'.due == a.due[t := a'.due[t]];
    assert a.due == a.due[t := a.due[t]];
  }

  /** The events of a run, in order, with the thread that caused each. */
  function History(s: State, moves: seq<Move>): seq<(Tid, Event)>
    decreases |moves|
  {
    if moves == [] then []
    else
      var Move(t, c) := moves[0];
      if t < |s.threads| then [(t, EventOf(s, t, c))] + History(Step(s, t, c), moves[1..])
      else History(s, moves[1..])
  }

  function LifoRun(a: Lifo, h: seq<(Tid, Event)>): Option<Lifo>
    decreases |h|
  {
    if h == [] then Some(a)
    else if h[0].0 >= |a.due| then None
    else
      match LifoNext(a, h[0].0, h[0].1)
      case None => None
      case Some(b) => LifoRun(b, h[1..])
  }

  lemma {:induction false} RunRefines(s: State, g: Ghost, moves: seq<Move>)
    requires Inv(s, g)
    ensures LifoRun(AbsOf(s, g), History(s, moves)) == Some(AbsOf(Exec(s, moves), TrackRun(s, g, moves)))
    decreases |moves|
  {
    if moves != [] {
      var t := moves[0].t;
      var c := moves[0].c;
      if t < |s.threads| {
        StepInv(s, g, t, c);
        StepRefines(s, g, t, c);
        RunRefines(Step(s, t, c), Track(s, g, t, c), moves[1..]);
        assert History(s, moves)[1..] == History(Step(s, t, c), moves[1..]);
      } else {
        RunRefines(s, g, moves[1..]);
      }
    }
  }

  /** Every interleaving of any number of pushers and poppers is a legal history of a sequential
      LIFO stack, each operation taking effect at one atomic step between its call and return. */
  lemma Linearizable(n: nat, moves: seq<Move>)
    ensures LifoRun(Lifo([], seq(n, _ => Free)), History(Init(n), moves)).Some?
  {
    InitHolds(n);
    RunRefines(Init(n), InitGhost(n), moves);
    assert AbsOf(Init(n), InitGhost(n)) == Lifo([], seq(n, _ => Free));
  }
}
