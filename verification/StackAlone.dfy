/** What one call on the stack does when its thread runs alone, from any state that any run leads to, and which
    nodes it deletes. */
module StackAlone {
  import opened Counting
  import opened LockFreeStack

  /** Thread t takes k steps. */
  function Alone(s: State, t: Tid, k: nat): (e: State)
    requires t < |s.threads|
    ensures |e.threads| == |s.threads|
    decreases k
  {
    if k == 0 then s else Alone(Step(s, t, Go), t, k - 1)
  }

  /** The same, as far as memory and the thread itself go. */
  function Solo(m: Mem, th: Thread, k: nat): (Mem, Thread)
    decreases k
  {
    if k == 0 then (m, th)
    else
      var (m', pc) := Act(m, th.pc, Go);
      Solo(m', Thread(pc, OutAfter(m, th)), k - 1)
  }

  lemma {:induction false} AloneIs(s: State, t: Tid, k: nat)
    requires t < |s.threads|
    ensures var (m, th) := Solo(s.m, s.threads[t], k); Alone(s, t, k) == State(m, s.threads[t := th])
    decreases k
  {
    if k > 0 {
      AloneIs(Step(s, t, Go), t, k - 1);
    } else {
      assert s.threads[t := s.threads[t]] == s.threads;
    }
  }

  lemma {:induction false} SoloMore(m: Mem, th: Thread, i: nat, j: nat)
    ensures var (m1, th1) := Solo(m, th, i); Solo(m, th, i + j) == Solo(m1, th1, j)
    decreases i
  {
    if i > 0 {
      var (m', pc) := Act(m, th.pc, Go);
      SoloMore(m', Thread(pc, OutAfter(m, th)), i - 1, j);
    }
  }

  function Set(q: seq<Ptr>): set<Ptr> {
    set p | p in q
  }

  ghost function Reach(n: nat, moves: seq<Move>): (g: Ghost)
    ensures Inv(Exec(Init(n), moves), g) && OwnerInv(Exec(Init(n), moves), g)
  {
    InitHolds(n);
    RunOwner(Init(n), InitGhost(n), moves);
    TrackRun(Init(n), InitGhost(n), moves)
  }

  // ----- TryPop -----

  /** The list that DeleteNodes is given goes, node by node. */
  lemma {:induction false} FreesList(m: Mem, prev: Ptr, node: Ptr, q: seq<Ptr>, out: Value)
    requires Linked(m.heap, node, q)
    ensures Solo(m, Thread(FreeList(prev, node), out), 2 * |q| + 1)
            == (m.(heap := m.heap - Set(q)), Thread(FreePrev(prev), out))
    decreases |q|
  {
    if q == [] {
      assert m.heap - Set(q) == m.heap;
      assert Solo(m, Thread(FreePrev(prev), out), 0) == (m, Thread(FreePrev(prev), out));
    } else {
      var next := m.heap[node].next;
      var m' := m.(heap := m.heap - {node});
      forall x | x in q[1..] ensures x in m'.heap { SegmentNext(m.heap, next, q[1..], x); }
      SegmentFrame(m.heap, m'.heap, next, q[1..], 0);
      FreesList(m', prev, next, q[1..], out);
      assert Set(q) == {node} + Set(q[1..]);
      assert m'.heap - Set(q[1..]) == m.heap - Set(q);
      assert Solo(m, Thread(FreeNode(prev, node, next), out), 2 * |q|)
             == Solo(m', Thread(FreeList(prev, next), out), 2 * |q| - 1);
    }
  }

  /** Up to the test of _popCount: the head is unlinked and its value read. */
  lemma Unlinks(m: Mem, out: Value)
    requires m.head != 0 && m.head in m.heap
    ensures Solo(m, Thread(PopLoad, out), 4)
            == (m.(head := m.heap[m.head].next), Thread(TestCount(m.head), m.heap[m.head].data))
  {
    var p := m.head;
    var m1 := m.(head := m.heap[p].next);
    assert Solo(m1, Thread(PopRead(p), out), 1) == (m1, Thread(TestCount(p), m.heap[p].data));
    assert Solo(m, Thread(PopCas(p, m.heap[p].next), out), 2) == Solo(m1, Thread(PopRead(p), out), 1);
    assert Solo(m, Thread(PopNext(p), out), 3) == Solo(m, Thread(PopCas(p, m.heap[p].next), out), 2);
  }

  lemma SoloStep(m: Mem, th: Thread, m': Mem, th': Thread, k: nat)
    requires Act(m, th.pc, Go) == (m', th'.pc) && OutAfter(m, th) == th'.out
    ensures Solo(m, th, k + 1) == Solo(m', th', k)
  {
  }

  /** The only thread in there deletes what is pending and its own node. */
  lemma Reclaims(m: Mem, p: Ptr, q: seq<Ptr>, out: Value)
    requires m.popCount == 1 && p in m.heap && Linked(m.heap, m.pendingList, q) && p !in q
    ensures Solo(m, Thread(TestCount(p), out), 2 * |q| + 5)
            == (Mem(m.heap - ({p} + Set(q)), m.head, 0, 0), Thread(Idle, out))
  {
    var list := m.pendingList;
    var m1 := m.(pendingList := 0);
    var m2 := m1.(popCount := 0);
    var m3 := m2.(heap := m.heap - Set(q));
    var m4 := m3.(heap := m3.heap - {p});
    SoloStep(m, Thread(TestCount(p), out), m, Thread(Exchange(p), out), 2 * |q| + 4);
    SoloStep(m, Thread(Exchange(p), out), m1, Thread(Release(p, list), out), 2 * |q| + 3);
    SoloStep(m1, Thread(Release(p, list), out), m2, Thread(FreeList(p, list), out), 2 * |q| + 2);
    FreesList(m2, p, list, q, out);
    SoloMore(m2, Thread(FreeList(p, list), out), 2 * |q| + 1, 1);
    SoloStep(m3, Thread(FreePrev(p), out), m4, Thread(Idle, out), 0);
    assert m4.heap == m.heap - ({p} + Set(q));
  }

  /** A thread that is not the only one puts its node in front of what is pending. */
  lemma Defers(m: Mem, p: Ptr, out: Value, k: nat)
    requires m.popCount != 1 && p in m.heap && k == 0
    ensures Solo(m, Thread(TestCount(p), out), k + 5)
            == (Mem(SetNext(m.heap, p, m.pendingList), m.head, m.popCount - 1, p), Thread(Idle, out))
  {
    var list := m.pendingList;
    var m1 := m.(heap := SetNext(m.heap, p, list));
    var m2 := m1.(pendingList := p);
    var m3 := m2.(popCount := m.popCount - 1);
    SoloStep(m, Thread(TestCount(p), out), m, Thread(ChainLoad(p, p, 0), out), k + 4);
    SoloStep(m, Thread(ChainLoad(p, p, 0), out), m, Thread(ChainStore(p, p, 0, list), out), k + 3);
    SoloStep(m, Thread(ChainStore(p, p, 0, list), out), m1, Thread(ChainCas(p, p, 0), out), k + 2);
    SoloStep(m1, Thread(ChainCas(p, p, 0), out), m2, Thread(Leave, out), k + 1);
    SoloStep(m2, Thread(Leave, out), m3, Thread(Idle, out), k);
  }

  /** A TryPop that runs alone from any reachable state, the other threads standing wherever they stand: it takes
      the head and its value. If nobody else is in TryPop it deletes that node and everything pending, and
      otherwise it deletes nothing and leaves the node in front of the pending ones. */
  lemma PopAlone(n: nat, moves: seq<Move>, t: Tid) returns (k: nat, pending: seq<Ptr>)
    requires var s := Exec(Init(n), moves); t < |s.threads| && s.threads[t].pc.Idle? && s.m.head != 0
    ensures var m := Exec(Init(n), moves).m; m.head in m.heap && Linked(m.heap, m.pendingList, pending)
    ensures var s := Exec(Init(n), moves);
            var h, p := s.m.heap, s.m.head;
            Alone(Step(s, t, CallPop), t, k)
            == State(if s.m.popCount == 0 then Mem(h - ({p} + Set(pending)), h[p].next, 0, 0)
                     else Mem(SetNext(h, p, s.m.pendingList), h[p].next, s.m.popCount, p),
                     s.threads[t := Thread(Idle, h[p].data)])
  {
    var s := Exec(Init(n), moves);
    var g := Reach(n, moves);
    var p := s.m.head;
    assert p in g.stack;
    pending := g.pending;
    assert p !in pending;
    var th := s.threads[t];
    var s1 := Step(s, t, CallPop);
    assert s1 == State(s.m.(popCount := s.m.popCount + 1), s.threads[t := Thread(PopLoad, th.out)]);
    k := Pops(s.m, pending, th.out);
    AloneIs(s1, t, k);
  }

  lemma Pops(m: Mem, pending: seq<Ptr>, out: Value) returns (k: nat)
    requires m.head != 0 && m.head in m.heap && Linked(m.heap, m.pendingList, pending) && m.head !in pending
    requires m.popCount >= 0
    ensures var h, p := m.heap, m.head;
            Solo(m.(popCount := m.popCount + 1), Thread(PopLoad, out), k)
            == (if m.popCount == 0 then Mem(h - ({p} + Set(pending)), h[p].next, 0, 0)
                else Mem(SetNext(h, p, m.pendingList), h[p].next, m.popCount, p),
                Thread(Idle, h[p].data))
  {
    var m1 := m.(popCount := m.popCount + 1);
    var m2 := m1.(head := m.heap[m.head].next);
    Unlinks(m1, out);
    var left: nat;
    if m.popCount == 0 {
      left := 2 * |pending| + 5;
      Reclaims(m2, m.head, pending, m.heap[m.head].data);
    } else {
      left := 5;
      Defers(m2, m.head, m.heap[m.head].data, 0);
    }
    k := 4 + left;
    SoloMore(m1, Thread(PopLoad, out), 4, left);
  }

  /** On an empty stack it changes nothing, whatever is pending. */
  lemma PopEmptyAlone(n: nat, moves: seq<Move>, t: Tid)
    requires var s := Exec(Init(n), moves); t < |s.threads| && s.threads[t].pc.Idle? && s.m.head == 0
    ensures var s := Exec(Init(n), moves); Alone(Step(s, t, CallPop), t, 2) == s
  {
    var s := Exec(Init(n), moves);
    var th := s.threads[t];
    var m1 := s.m.(popCount := s.m.popCount + 1);
    assert Step(s, t, CallPop) == State(m1, s.threads[t := Thread(PopLoad, th.out)]);
    assert Solo(m1, Thread(PopEmpty, th.out), 1) == (s.m, th) by { assert Solo(s.m, th, 0) == (s.m, th); }
    assert Solo(m1, Thread(PopLoad, th.out), 2) == (s.m, th);
    AloneIs(Step(s, t, CallPop), t, 2);
    assert s.threads[t := th] == s.threads;
  }

  ghost predicate AllIdle(s: State) {
    forall t :: 0 <= t < |s.threads| ==> s.threads[t].pc.Idle?
  }

  /** When all threads are idle, a TryPop that one of them runs alone leaves nothing pending, exactly if the stack
      was not empty or nothing was pending; and then, on a stack that was not empty, the nodes still allocated are
      exactly those that hang off _head. */
  lemma ReclaimsAll(n: nat, moves: seq<Move>, t: Tid) returns (k: nat)
    requires var s := Exec(Init(n), moves); t < |s.threads| && AllIdle(s)
    ensures var s := Exec(Init(n), moves);
            var e := Alone(Step(s, t, CallPop), t, k);
            && AllIdle(e)
            && (e.m.pendingList == 0 <==> s.m.head != 0 || s.m.pendingList == 0)
            && (s.m.head != 0 ==> forall p :: p in e.m.heap <==> Reaches(e.m.heap, e.m.head, p))
  {
    var s := Exec(Init(n), moves);
    if s.m.head == 0 {
      k := 2;
      PopEmptyAlone(n, moves, t);
    } else {
      var g := Reach(n, moves);
      var pending;
      k, pending := PopAlone(n, moves, t);
      CountNone(s.threads, (th: Thread) => InRegion(th.pc));
      var e := Alone(Step(s, t, CallPop), t, k);
      forall p ensures p in e.m.heap <==> Reaches(e.m.heap, e.m.head, p) {
        OnlyStack(s, g, pending, e.m.heap, p);
      }
    }
  }

  /** With every thread idle, what is left without the head and the pending nodes is the rest of the stack. */
  lemma OnlyStack(s: State, g: Ghost, pending: seq<Ptr>, h: map<Ptr, Node>, p: Ptr)
    requires Inv(s, g) && OwnerInv(s, g) && AllIdle(s) && s.m.head != 0 && s.m.head in s.m.heap
    requires Linked(s.m.heap, s.m.pendingList, pending) && h == s.m.heap - ({s.m.head} + Set(pending))
    ensures p in h <==> Reaches(h, s.m.heap[s.m.head].next, p)
  {
    var rest := g.stack[1..];
    SameSegment(s.m.heap, s.m.pendingList, pending, g.pending);
    assert s.m.head == g.stack[0];
    forall x | x in rest ensures x in h {
      assert x in g.stack && x != s.m.head;
      assert Has(g, x, InStack);
    }
    SegmentFrame(s.m.heap, h, s.m.heap[s.m.head].next, rest, 0);
    if p in h {
      assert OwnedWell(s, g, p);
      forall u | 0 <= u < |s.threads| ensures !Holds(s, g, u, p) {
        assert ThreadInv(s, g, u);
      }
      assert p in rest;
    }
    if Reaches(h, s.m.heap[s.m.head].next, p) {
      var q :| Linked(h, s.m.heap[s.m.head].next, q) && p in q;
      SameSegment(h, s.m.heap[s.m.head].next, q, rest);
    }
  }

  /** There is only one way along the next pointers. */
  lemma {:induction false} SameSegment(h: map<Ptr, Node>, p: Ptr, q: seq<Ptr>, r: seq<Ptr>)
    requires Linked(h, p, q) && Linked(h, p, r)
    ensures q == r
    decreases |q|
  {
    if q != [] && r != [] {
      SameSegment(h, h[p].next, q[1..], r[1..]);
      assert q == [q[0]] + q[1..] && r == [r[0]] + r[1..];
    }
  }

  // ----- Push -----

  /** A Push that runs alone from any reachable state puts its node on top. */
  lemma PushAlone(n: nat, moves: seq<Move>, t: Tid, addr: Ptr, value: Value)
    requires var s := Exec(Init(n), moves); t < |s.threads| && s.threads[t].pc.Idle? && addr != 0 && addr !in s.m.heap
    ensures var s := Exec(Init(n), moves);
            Alone(Step(s, t, CallPush(addr, value)), t, if s.m.head == 0 then 1 else 3)
            == s.(m := s.m.(heap := s.m.heap[addr := Node(value, s.m.head)], head := addr))
  {
    var s := Exec(Init(n), moves);
    var th := s.threads[t];
    var m1 := s.m.(heap := s.m.heap[addr := Node(value, 0)]);
    var m2 := s.m.(heap := s.m.heap[addr := Node(value, s.m.head)]);
    var m3 := m2.(head := addr);
    assert Step(s, t, CallPush(addr, value)) == State(m1, s.threads[t := Thread(PushCas(addr), th.out)]);
    assert Solo(m2, Thread(PushCas(addr), th.out), 1) == (m3, th) by { assert Solo(m3, th, 0) == (m3, th); }
    if s.m.head == 0 {
      assert m1 == m2;
      AloneIs(Step(s, t, CallPush(addr, value)), t, 1);
    } else {
      assert SetNext(m1.heap, addr, s.m.head) == m2.heap;
      assert Solo(m1, Thread(PushStore(addr, s.m.head), th.out), 2) == Solo(m2, Thread(PushCas(addr), th.out), 1);
      assert Solo(m1, Thread(PushCas(addr), th.out), 3) == Solo(m1, Thread(PushStore(addr, s.m.head), th.out), 2);
      AloneIs(Step(s, t, CallPush(addr, value)), t, 3);
    }
    assert s.threads[t := Thread(PushCas(addr), th.out)][t := th] == s.threads;
  }

  // ----- whose call deletes a popped node -----

  /** On the way to `delete prevHead` with prevHead == p. */
  predicate Deleting(pc: PC, p: Ptr) {
    match pc
    case Exchange(n) => n == p
    case Release(n, _) => n == p
    case FreeList(n, _) => n == p
    case FreeNode(n, _, _) => n == p
    case FindLast(n, _, _) => n == p
    case ChainLoad(_, _, n) => n == p
    case ChainStore(_, _, n, _) => n == p
    case ChainCas(_, _, n) => n == p
    case FreePrev(n) => n == p
    case _ => false
  }

  /** Putting p in front of the pending nodes, or done with that. */
  predicate Deferring(pc: PC, p: Ptr) {
    match pc
    case ChainLoad(f, l, b) => f == l == p && b == 0
    case ChainStore(f, l, b, _) => f == l == p && b == 0
    case ChainCas(f, l, b) => f == l == p && b == 0
    case Leave => true
    case _ => false
  }

  /** Thread t does not return in this run. */
  ghost predicate Inside(s: State, t: Tid, moves: seq<Move>)
    requires t < |s.threads|
    decreases |moves|
  {
    !s.threads[t].pc.Idle? &&
    (moves != [] ==>
       Inside(if moves[0].t < |s.threads| then Step(s, moves[0].t, moves[0].c) else s, t, moves[1..]))
  }

  lemma {:induction false} Stays(s: State, g: Ghost, t: Tid, p: Ptr, deletes: bool, moves: seq<Move>)
    requires Inv(s, g) && t < |s.threads| && p != 0 && Inside(s, t, moves)
    requires if deletes then Deleting(s.threads[t].pc, p) else Deferring(s.threads[t].pc, p)
    ensures var e := Exec(s, moves);
            |e.threads| == |s.threads| && !e.threads[t].pc.Idle? && !e.threads[t].pc.Faulted?
            && if deletes then Deleting(e.threads[t].pc, p) else Deferring(e.threads[t].pc, p)
    decreases |moves|
  {
    assert ThreadInv(s, g, t);
    if moves != [] {
      var u := moves[0].t;
      if u < |s.threads| {
        StepInv(s, g, u, moves[0].c);
        var s' := Step(s, u, moves[0].c);
        assert ThreadInv(s', Track(s, g, u, moves[0].c), t);
        Stays(s', Track(s, g, u, moves[0].c), t, p, deletes, moves[1..]);
      } else {
        Stays(s, g, t, p, deletes, moves[1..]);
      }
    }
  }

  /** Whatever the others do: a TryPop that sees _popCount == 1 at its test deletes the node it popped, with the
      step by which it returns; one that sees more never deletes it, and has put it among the pending ones when it
      returns. */
  lemma OwnCallDeletes(n: nat, before: seq<Move>, t: Tid, p: Ptr, more: seq<Move>)
    requires var s := Exec(Init(n), before);
             t < |s.threads| && s.threads[t].pc == TestCount(p) && Inside(Step(s, t, Go), t, more)
    ensures var s := Exec(Init(n), before);
            var e := Exec(Step(s, t, Go), more);
            && |e.threads| == |s.threads|
            && (if s.m.popCount == 1 then Deleting(e.threads[t].pc, p) else Deferring(e.threads[t].pc, p))
            && forall c :: Step(e, t, c).threads[t].pc.Idle? ==>
                 if s.m.popCount == 1 then p in e.m.heap && Step(e, t, c).m.heap == e.m.heap - {p}
                 else e.threads[t].pc.Leave? && Step(e, t, c).m.heap == e.m.heap
  {
    var s := Exec(Init(n), before);
    var g := Reach(n, before);
    assert ThreadInv(s, g, t);
    StepInv(s, g, t, Go);
    Stays(Step(s, t, Go), Track(s, g, t, Go), t, p, s.m.popCount == 1, more);
  }

  // ----- every call finishes alone -----

  function IndexOf(q: seq<Ptr>, p: Ptr): (i: nat)
    ensures i <= |q| && (p in q ==> i < |q| && q[i] == p)
  {
    if q == [] || q[0] == p then 0 else 1 + IndexOf(q[1..], p)
  }

  /** How many steps the thread has left at most. */
  ghost function Left(s: State, g: Ghost, t: Tid): nat
    requires t < |s.threads| && |g.lists| == |s.threads|
  {
    var m, q := s.m, |g.lists[t]|;
    var all := 2 * |g.pending|;
    match s.threads[t].pc
    case Idle => 0
    case PushCas(n) => if n in m.heap && m.head == m.heap[n].next then 1 else 3
    case PushStore(_, seen) => if seen == m.head then 2 else 4
    case PopLoad => all + 12
    case PopNext(p) => if p == m.head then all + 11 else all + 13
    case PopCas(p, _) => if p == m.head then all + 10 else all + 12
    case PopEmpty => 1
    case PopRead(_) => all + 9
    case TestCount(_) => all + 8
    case Exchange(_) => all + 7
    case Release(_, _) => 2 * q + 6
    case FreeList(_, _) => 2 * q + 2
    case FreeNode(_, _, _) => 2 * q + 1
    case FindLast(_, _, l) => q - IndexOf(g.lists[t], l) + 5
    case ChainLoad(_, _, _) => 5
    case ChainStore(_, _, _, seen) => if seen == m.pendingList then 3 else 5
    case ChainCas(_, l, _) => if l in m.heap && m.pendingList == m.heap[l].next then 2 else 4
    case FreePrev(_) => 1
    case Leave => 1
    case Faulted => 0
  }

  /** The node behind the i-th of a list is the next one. */
  lemma {:induction false} NextIndex(h: map<Ptr, Node>, p: Ptr, q: seq<Ptr>, l: Ptr)
    requires Linked(h, p, q) && l in q
    ensures l in h && (h[l].next != 0 ==> h[l].next in q && IndexOf(q, h[l].next) == IndexOf(q, l) + 1)
    decreases |q|
  {
    if l != p {
      NextIndex(h, h[p].next, q[1..], l);
      if h[l].next != 0 { assert h[l].next in q[1..] && h[l].next != q[0]; }
    } else if h[p].next != 0 {
      assert Segment(h, h[p].next, q[1..], 0);
      assert q[1..] != [] && q[1..][0] == h[p].next && h[p].next in q[1..] && h[p].next != q[0];
    }
  }

  lemma LeftFalls(s: State, g: Ghost, t: Tid)
    requires Inv(s, g) && t < |s.threads| && !s.threads[t].pc.Idle?
    ensures |Track(s, g, t, Go).lists| == |s.threads|
    ensures Left(Step(s, t, Go), Track(s, g, t, Go), t) < Left(s, g, t)
  {
    assert ThreadInv(s, g, t);
    StepInv(s, g, t, Go);
    var pc := s.threads[t].pc;
    if pc.FindLast? {
      NextIndex(s.m.heap, pc.first, g.lists[t], pc.last);
    } else if pc.Release? || pc.FreeList? || pc.FreeNode? || pc.Exchange? {
      ListFalls(s, g, t);
    }
  }

  lemma ListFalls(s: State, g: Ghost, t: Tid)
    requires Inv(s, g) && t < |s.threads| && |Track(s, g, t, Go).lists| == |s.threads|
    requires var pc := s.threads[t].pc; pc.Release? || pc.FreeList? || pc.FreeNode? || pc.Exchange?
    ensures Left(Step(s, t, Go), Track(s, g, t, Go), t) < Left(s, g, t)
  {
    assert ThreadInv(s, g, t);
  }

  lemma {:induction false} Ends(s: State, g: Ghost, t: Tid) returns (k: nat)
    requires Inv(s, g) && t < |s.threads|
    ensures k <= Left(s, g, t) && Alone(s, t, k).threads[t].pc.Idle?
    decreases Left(s, g, t)
  {
    if s.threads[t].pc.Idle? {
      return 0;
    }
    LeftFalls(s, g, t);
    StepInv(s, g, t, Go);
    k := Ends(Step(s, t, Go), Track(s, g, t, Go), t);
    k := k + 1;
  }

  /** Wherever a thread stands in Push or TryPop in any reachable state: running alone it returns. */
  lemma FinishesAlone(n: nat, moves: seq<Move>, t: Tid) returns (k: nat)
    requires t < |Exec(Init(n), moves).threads|
    ensures Alone(Exec(Init(n), moves), t, k).threads[t].pc.Idle?
  {
    k := Ends(Exec(Init(n), moves), Reach(n, moves), t);
  }

  // ----- what may stay pending -----

  predicate Quiet(s: State, node: Ptr) {
    |s.threads| >= 2 && (forall t :: 0 <= t < |s.threads| ==> s.threads[t].pc.Idle?)
    && s.m.head == 0 && s.m.popCount == 0 && s.m.pendingList == node
  }

  function Steps(t: Tid, k: nat): seq<Move> {
    if k == 0 then [] else [Move(t, Go)] + Steps(t, k - 1)
  }

  lemma {:induction false} StepsAre(s: State, t: Tid, k: nat)
    requires t < |s.threads|
    ensures Exec(s, Steps(t, k)) == Alone(s, t, k)
    decreases k
  {
    if k > 0 {
      assert Steps(t, k)[1..] == Steps(t, k - 1);
      StepsAre(Step(s, t, Go), t, k - 1);
    }
  }

  lemma {:induction false} Append(s: State, before: seq<Move>, after: seq<Move>)
    ensures Exec(s, before + after) == Exec(Exec(s, before), after)
    decreases |before|
  {
    if before == [] {
      assert before + after == after;
    } else {
      assert (before + after)[1..] == before[1..] + after;
      Append(if before[0].t < |s.threads| then Step(s, before[0].t, before[0].c) else s, before[1..], after);
    }
  }

  /** One call and k steps of thread t, added to a run. */
  lemma Calls(n: nat, moves: seq<Move>, t: Tid, c: Choice, k: nat) returns (all: seq<Move>)
    requires t < |Exec(Init(n), moves).threads|
    ensures Exec(Init(n), all) == Alone(Step(Exec(Init(n), moves), t, c), t, k)
  {
    var s := Exec(Init(n), moves);
    all := moves + ([Move(t, c)] + Steps(t, k));
    Append(Init(n), moves, [Move(t, c)] + Steps(t, k));
    assert ([Move(t, c)] + Steps(t, k))[1..] == Steps(t, k);
    StepsAre(Step(s, t, c), t, k);
  }

  /** With two threads a run ends with all threads idle, the stack empty and a node that was popped still
      allocated: it was popped while another thread was about to find the stack empty. */
  lemma PendingStays(n: nat, addr: Ptr, value: Value) returns (moves: seq<Move>)
    requires n >= 2 && addr != 0
    ensures Quiet(Exec(Init(n), moves), addr) && addr in Exec(Init(n), moves).m.heap
  {
    assert Exec(Init(n), []) == Init(n);
    PushAlone(n, [], 0, addr, value);
    var m1 := Calls(n, [], 0, CallPush(addr, value), 1);
    var s1 := Exec(Init(n), m1);
    var m2 := Calls(n, m1, 1, CallPop, 0);
    var s2 := Exec(Init(n), m2);
    var k, pending := PopAlone(n, m2, 0);
    var m3 := Calls(n, m2, 0, CallPop, k);
    var s3 := Exec(Init(n), m3);
    assert s3.m.head == 0 && s3.m.popCount == 1 && s3.m.pendingList == addr && s3.threads[1].pc == PopLoad;
    moves := Calls(n, m3, 1, Go, 1);
    assert Alone(Step(s3, 1, Go), 1, 1) == Step(Step(s3, 1, Go), 1, Go);
  }
}
