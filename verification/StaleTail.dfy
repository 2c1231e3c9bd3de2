/** Why the condition for the delete in Pop is what it is: from every other state, producers and further safe
    deletes lead to a step that follows a freed node. */
module StaleTail {
  import opened MpscQueue
  import opened MpscReclamation

  // ----- everybody else runs on -----

  /** e is s without the pushers that still have the freed node gone as their oldTail. */
  predicate Without(s: State, e: State, gone: Ptr) {
    && s.q == e.q && s.pc == e.pc && |s.pushers| == |e.pushers|
    && forall j :: 0 <= j < |s.pushers| ==>
         s.pushers[j] == e.pushers[j] || (Holds(s.pushers[j].pc, gone) && e.pushers[j].pc.LinkDone?)
  }

  /** No move of a pusher that e leaves out. */
  predicate Others(s: State, e: State, moves: seq<Move>)
    requires |s.pushers| == |e.pushers|
  {
    forall m :: m in moves && m.Link? && m.i < |s.pushers| ==> s.pushers[m.i] == e.pushers[m.i]
  }

  lemma {:induction false} WithoutRun(s: State, e: State, gone: Ptr, moves: seq<Move>)
    requires Without(s, e, gone) && Others(s, e, moves)
    ensures Without(Exec(s, moves), Exec(e, moves), gone)
    ensures forall j :: 0 <= j < |s.pushers| && s.pushers[j] != e.pushers[j] ==>
              j < |Exec(s, moves).pushers| && Exec(s, moves).pushers[j] == s.pushers[j]
    ensures NoConsume(moves) ==> Careful(s, moves)
    decreases |moves|
  {
    if NoConsume(moves) { ProducersCareful(s, moves); }
    if moves != [] {
      assert moves[0] in moves;
      var s1, e1 := Step(s, moves[0]), Step(e, moves[0]);
      assert Without(s1, e1, gone);
      assert Others(s1, e1, moves[1..]);
      forall j | 0 <= j < |s.pushers| && s.pushers[j] != e.pushers[j]
        ensures j < |s1.pushers| && s1.pushers[j] == s.pushers[j] && s1.pushers[j] != e1.pushers[j]
      {
      }
      WithoutRun(s1, e1, gone, moves[1..]);
    }
  }

  /** s without its stale pushers. */
  function Erase(s: State, gone: Ptr): State {
    s.(pushers := seq(|s.pushers|, j requires 0 <= j < |s.pushers| =>
                        if Holds(s.pushers[j].pc, gone) then s.pushers[j].(pc := LinkDone) else s.pushers[j]))
  }

  lemma EraseInv(s: State, g: Trail)
    requires Inv(s, g) && s.pc.Free? && s.q.tail != s.pc.oldHead
    ensures Inv(Step(Erase(s, s.pc.oldHead), Consume), Track(s, g, Consume))
    ensures Without(Step(s, Consume), Step(Erase(s, s.pc.oldHead), Consume), s.pc.oldHead)
  {
    var e := Erase(s, s.pc.oldHead);
    assert Inv(e, g) && Safe(e);
    ConsumeInv(e, g);
  }

  // ----- all remaining producers finish -----

  predicate AllDone(s: State) {
    forall j :: 0 <= j < |s.pushers| ==> s.pushers[j].pc.LinkDone?
  }

  predicate LinksOnly(e: State, moves: seq<Move>) {
    forall m :: m in moves ==> m.Link? && m.i < |e.pushers| && !e.pushers[m.i].pc.LinkDone?
  }

  lemma FinishOne(e: State, g: Trail, k: nat) returns (moves: seq<Move>, e': State, g': Trail)
    requires Inv(e, g) && k < |e.pushers|
    ensures e' == Exec(e, moves) && Inv(e', g') && LinksOnly(e, moves) && NoConsume(moves)
    ensures |e'.pushers| == |e.pushers| && e'.pushers[k].pc.LinkDone?
    ensures forall j :: 0 <= j < |e.pushers| && j != k ==> e'.pushers[j] == e.pushers[j]
    ensures e'.pc == e.pc && e'.q.head == e.q.head && SameNodes(e.q, e'.q)
  {
    var p := e.pushers[k];
    if p.pc.LinkDone? {
      return [], e, g;
    }
    LinkAlive(e.q, g, p.node, p.job, p.pc);
    SoloFinishes(e.q, g, p.node, p.job, p.pc);
    NotStuck(e.q, g, p);
    var n: nat :| n <= 10 && Finishes(e.q, p.node, p.pc, n, 2);
    moves := Again(k, n);
    AgainIs(e, k, n);
    SoloKeeps(e.q, p.node, p.pc, n);
    e' := Exec(e, moves);
    ProducersCareful(e, moves);
    g' := CarefulRun(e, g, moves);
  }

  lemma NotStuck(q: Queue, g: Trail, p: Pusher)
    requires ListInv(q, g) && PusherOk(q, g, p) && q.tail in q.nodes && Distinct(q)
    ensures !Stuck(q, p.pc)
  {
    LinkAlive(q, g, p.node, p.job, p.pc);
  }

  /** The same allocations. */
  predicate SameNodes(q: Queue, q': Queue) {
    q'.nodes.Keys == q.nodes.Keys && q'.addrs == q.addrs
  }

  lemma {:induction false} SoloKeeps(q: Queue, node: Ptr, pc: LinkPC, n: nat)
    ensures SoloRun(q, node, pc, n).0.head == q.head && SameNodes(q, SoloRun(q, node, pc, n).0)
    decreases n
  {
    if n > 0 {
      var (q', pc') := LinkAct(q, node, pc);
      SoloKeeps(q', node, pc', n - 1);
    }
  }

  lemma {:induction false} FinishAll(e: State, g: Trail, k: nat) returns (moves: seq<Move>, e': State, g': Trail)
    requires Inv(e, g) && k <= |e.pushers| && forall j :: 0 <= j < k ==> e.pushers[j].pc.LinkDone?
    ensures e' == Exec(e, moves) && Inv(e', g') && LinksOnly(e, moves) && NoConsume(moves)
    ensures |e'.pushers| == |e.pushers| && AllDone(e')
    ensures e'.pc == e.pc && e'.q.head == e.q.head && SameNodes(e.q, e'.q)
    decreases |e.pushers| - k
  {
    if k == |e.pushers| {
      return [], e, g;
    }
    var first, e1, g1 := FinishOne(e, g, k);
    var rest;
    rest, e', g' := FinishAll(e1, g1, k + 1);
    moves := first + rest;
    Append(e, first, rest);
    forall m | m in rest ensures m.Link? && m.i < |e.pushers| && !e.pushers[m.i].pc.LinkDone? {
      assert !e1.pushers[m.i].pc.LinkDone?;
    }
  }

  // ----- one more producer links a node and is done: _tail is its node -----

  lemma SoloTail(q: Queue, g: Trail, node: Ptr) returns (n: nat)
    requires ListInv(q, g) && NearEnd(q, g) && q.tail in q.nodes
    ensures SoloRun(q, node, LoadTail, n).1.LinkDone? && SoloRun(q, node, LoadTail, n).0.tail == node
  {
    TailNearEnd(q, g);
    var next := q.nodes[q.tail].next;
    if next == 0 {
      n := 4;
      SoloFour(q, node);
    } else {
      n := 7;
      SoloFour(q.(tail := next), node);
      assert SoloRun(q, node, HelpCas(q.tail, next), 5) == SoloRun(q.(tail := next), node, LoadTail, 4);
      assert SoloRun(q, node, LoadNext(q.tail), 6) == SoloRun(q, node, HelpCas(q.tail, next), 5);
    }
  }

  lemma SoloFour(q: Queue, node: Ptr)
    requires q.tail in q.nodes && q.nodes[q.tail].next == 0
    ensures var (q', pc') := SoloRun(q, node, LoadTail, 4); pc'.LinkDone? && q'.tail == node
  {
    var q1 := q.(nodes := q.nodes[q.tail := Node(q.nodes[q.tail].job, node)]);
    assert SoloRun(q1, node, SwingTail(q.tail), 1) == (q1.(tail := node), LinkDone);
    assert SoloRun(q, node, LinkCas(q.tail), 2) == (q1.(tail := node), LinkDone);
    assert SoloRun(q, node, LoadNext(q.tail), 3) == (q1.(tail := node), LinkDone);
  }

  /** A producer whose node gets the address addr. */
  lemma LinkAt(e: State, g: Trail, addr: Addr) returns (moves: seq<Move>, e': State, g': Trail)
    requires Inv(e, g) && AllDone(e) && CanAlloc(e.q, addr)
    ensures e' == Exec(e, moves) && Inv(e', g') && NoConsume(moves) && AllDone(e')
    ensures forall m :: m in moves && m.Link? ==> m.i == |e.pushers|
    ensures e'.q.tail == |e.q.addrs| && e'.q.addrs == e.q.addrs + [addr] && e'.pc == e.pc && e'.q.head == e.q.head
    ensures |e'.pushers| == |e.pushers| + 1
  {
    var n, node := |e.pushers|, |e.q.addrs|;
    var e1 := Step(e, Start(addr, 0));
    StartInv(e, g, addr, 0);
    var k := SoloTail(e1.q, g, node);
    AgainIs(e1, n, k);
    SoloKeeps(e1.q, node, LoadTail, k);
    moves := [Start(addr, 0)] + Again(n, k);
    assert moves[1..] == Again(n, k);
    e' := Exec(e, moves);
    ProducersCareful(e, moves);
    g' := CarefulRun(e, g, moves);
  }

  // ----- the consumer takes the next node -----

  /** Four steps of Pop. */
  lemma Pops(e: State, g: Trail) returns (e': State, g': Trail)
    requires Inv(e, g) && e.pc.LoadHead? && e.q.tail != e.q.head
    ensures e' == Exec(e, Takes()) && Inv(e', g') && e'.pushers == e.pushers && e'.q.tail == e.q.tail
    ensures e'.pc.Free? && e'.pc.oldHead == e.q.head && SameNodes(e.q, e'.q)
  {
    assert NodeOk(e.q, g, g.popped);
    TailBehindHead(e.q, g);
    assert NodeOk(e.q, g, g.popped + 1);
    e' := TakesRun(e);
    TakesCareful(e);
    g' := CarefulRun(e, g, Takes());
  }

  lemma TakesRun(e: State) returns (e': State)
    requires e.pc.LoadHead? && e.q.head in e.q.nodes
    requires var next := e.q.nodes[e.q.head].next; next != 0 && next in e.q.nodes
    ensures e' == Exec(e, Takes())
    ensures var next := e.q.nodes[e.q.head].next;
            e' == e.(q := e.q.(head := next), pc := PopPC.Free(e.q.head, e.q.nodes[next].job))
  {
    var e1 := Step(e, Consume);
    var e2 := Step(e1, Consume);
    var e3 := Step(e2, Consume);
    e' := Step(e3, Consume);
    assert Takes()[1..] == [Consume, Consume, Consume] && Takes()[1..][1..] == [Consume, Consume];
    assert [Consume, Consume][1..] == [Consume] && [Consume][1..] == [];
    assert Exec(e3, [Consume]) == e' && Exec(e2, [Consume, Consume]) == e';
    assert Exec(e1, [Consume, Consume, Consume]) == e';
  }

  function Takes(): seq<Move> {
    [Consume, Consume, Consume, Consume]
  }

  lemma TailBehindHead(q: Queue, g: Trail)
    requires ListInv(q, g) && q.tail in q.nodes && q.tail != q.head && g.freed == g.popped
    ensures g.popped + 1 < |g.order|
  {
    ListNode(q, g, q.tail);
    assert NodeOk(q, g, g.popped);
  }

  // ----- the stale compare-and-swap -----

  /** A pusher that still has the freed node as its oldTail, to compare _tail with it, would put its successor
      there: the node that is the head now. */
  lemma StaleSuccessor(s: State, g: Trail, i: nat)
    requires Inv(s, g) && s.pc.Free? && i < |s.pushers| && Holds(s.pushers[i].pc, s.pc.oldHead)
    ensures s.q.head != s.pc.oldHead && s.pc.oldHead != 0
    ensures s.pushers[i].pc.HelpCas? ==> s.pushers[i].pc.next == s.q.head
    ensures s.pushers[i].pc.SwingTail? ==> s.pushers[i].node == s.q.head
  {
    assert NodeOk(s.q, g, g.freed) && NodeOk(s.q, g, g.popped);
  }

  /** All producers finish, one more gets the address addr and makes its node the tail, and the consumer goes to
      the delete of the head. */
  lemma ReuseAlone(e: State, g: Trail, gone: Ptr, addr: Addr) returns (moves: seq<Move>, e': State)
    requires Inv(e, g) && e.pc.LoadHead? && CanAlloc(e.q, addr) && gone < |e.q.addrs|
    ensures e' == Exec(e, moves + Takes()) && NoConsume(moves)
    ensures forall m :: m in moves + Takes() && m.Link? && m.i < |e.pushers| ==> !e.pushers[m.i].pc.LinkDone?
    ensures e'.pc.Free? && e'.pc.oldHead == e.q.head && e.q.head in e'.q.nodes && e.q.head < |e'.q.addrs|
    ensures Address(e'.q, e'.q.tail) == addr && Address(e'.q, gone) == Address(e.q, gone) && e'.q.tail != e.q.head
    ensures AllDone(e') && Exec(e, moves).pc.LoadHead?
  {
    assert NodeOk(e.q, g, g.popped);
    var m1, e2, g2 := FinishAll(e, g, 0);
    assert forall p :: Address(e2.q, p) == Address(e.q, p);
    assert CanAlloc(e2.q, addr) by { assert forall p :: p in e2.q.nodes ==> p in e.q.nodes.Keys; }
    var m2, e3, g3 := LinkAt(e2, g2, addr);
    var e4, g4 := Pops(e3, g3);
    Append(e, m1, m2);
    Append(e, m1 + m2, Takes());
    moves := m1 + m2;
    e' := e4;
    assert NodeOk(e4.q, g4, g4.freed);
    forall m | m in moves + Takes() && m.Link? && m.i < |e.pushers| ensures !e.pushers[m.i].pc.LinkDone? {
      assert m in m1 || m in m2;
    }
  }

  /** After an unsafe delete that leaves pusher i with a stale oldTail: everybody else finishes, a new node gets
      the address of the deleted one and becomes the tail, and the consumer stands before the delete of the
      head. */
  lemma Reuse(s: State, g: Trail, i: nat) returns (moves: seq<Move>, s': State)
    requires Inv(s, g) && s.pc.Free? && s.q.tail != s.pc.oldHead
    requires i < |s.pushers| && Holds(s.pushers[i].pc, s.pc.oldHead)
    ensures s' == Exec(Step(s, Consume), moves) && Careful(Step(s, Consume), moves)
    ensures s'.pc.Free? && s'.pc.oldHead == s.q.head && Same(s'.q, s'.q.tail, s.pc.oldHead) && s.q.head in s'.q.nodes
    ensures s.q.head < |s'.q.addrs| && Safe(s') && i < |s'.pushers| && s'.pushers[i] == s.pushers[i]
  {
    var gone := s.pc.oldHead;
    StaleSuccessor(s, g, i);
    EraseInv(s, g);
    var s1, e1 := Step(s, Consume), Step(Erase(s, gone), Consume);
    AddressFree(s.q, g, gone, e1.q);
    var first, e' := ReuseAlone(e1, Track(s, g, Consume), gone, Address(s.q, gone));
    moves := first + Takes();
    assert Others(s1, e1, moves);
    WithoutRun(s1, e1, gone, moves);
    s' := Exec(s1, moves);
    WithoutRun(s1, e1, gone, first);
    TakesCareful(Exec(s1, first));
    Append(s1, first, Takes());
  }

  /** Once gone is deleted its address can be given out again. */
  lemma AddressFree(q: Queue, g: Trail, gone: Ptr, q': Queue)
    requires ListInv(q, g) && Distinct(q) && gone in q.nodes
    requires q'.nodes.Keys == q.nodes.Keys - {gone} && q'.addrs == q.addrs
    ensures CanAlloc(q', Address(q, gone)) && gone < |q.addrs| && Address(q', gone) == Address(q, gone)
  {
    assert forall p :: Address(q', p) == Address(q, p);
    assert forall p :: p in q'.nodes.Keys ==> p in q.nodes && p != gone;
  }

  lemma TakesCareful(s: State)
    requires s.pc.LoadHead?
    ensures Careful(s, Takes())
  {
    var s1 := Step(s, Consume);
    var s2 := Step(s1, Consume);
    var s3 := Step(s2, Consume);
    assert !s1.pc.Free? && !s2.pc.Free? && !s3.pc.Free?;
    assert Takes()[1..] == [Consume, Consume, Consume] && Takes()[1..][1..] == [Consume, Consume];
    assert [Consume, Consume][1..] == [Consume] && [Consume][1..] == [];
    assert Careful(s3, [Consume]) && Careful(s2, [Consume, Consume]) && Careful(s1, [Consume, Consume, Consume]);
  }

  /** Then the head is deleted, the stale compare-and-swap puts _tail on it, and a new producer follows. */
  lemma StaleFaults(s: State, g: Trail, i: nat) returns (more: seq<Move>)
    requires Inv(s, g) && s.pc.Free? && s.q.tail != s.pc.oldHead
    requires i < |s.pushers| && Holds(s.pushers[i].pc, s.pc.oldHead)
    requires s.pushers[i].pc.HelpCas? || s.pushers[i].pc.SwingTail?
    ensures Careful(Step(s, Consume), more) && FaultsIn(Step(s, Consume), more)
  {
    StaleSuccessor(s, g, i);
    var moves, s1 := Reuse(s, g, i);
    var s2 := Step(s1, Consume);
    var s3 := Step(s2, Link(i));
    assert s3.q.tail == s.q.head && s3.q.tail !in s3.q.nodes && s3.q.tail < |s3.q.addrs|;
    var last := Follows(s3);
    var end := [Consume, Link(i)] + last;
    assert end[1..] == [Link(i)] + last && end[1..][1..] == last;
    assert Careful(s2, [Link(i)] + last) && FaultsIn(s2, [Link(i)] + last);
    assert Careful(s1, end) && FaultsIn(s1, end);
    Append(Step(s, Consume), moves, end);
    more := moves + end;
  }

  /** With _tail on a deleted node, a producer that starts now faults. */
  lemma Follows(s: State) returns (moves: seq<Move>)
    requires s.q.tail !in s.q.nodes && s.q.tail < |s.q.addrs|
    ensures Careful(s, moves) && FaultsIn(s, moves) && NoConsume(moves)
  {
    var addr := FreshAddress(s.q, s.q.nodes.Keys);
    assert CanAlloc(s.q, addr) by { assert forall p :: p in s.q.nodes ==> p in s.q.nodes.Keys; }
    var n := |s.pushers|;
    moves := [Start(addr, 0), Link(n), Link(n)];
    ProducersCareful(s, moves);
    var s1 := Step(s, moves[0]);
    var s2 := Step(s1, moves[1]);
    assert s2.pushers[n].pc == LoadNext(s.q.tail);
    assert moves[1..] == [Link(n), Link(n)] && moves[1..][1..] == [Link(n)];
    assert FaultsIn(s2, [Link(n)]) && FaultsIn(s1, moves[1..]);
  }

  // ----- exactly when -----

  /** No continuation whose deletes are safe follows a pointer to a freed node. */
  ghost predicate NeverFaults(s: State) {
    forall more :: Careful(s, more) ==> !FaultsIn(s, more)
  }

  lemma UnsafeFaults(s: State, g: Trail) returns (more: seq<Move>)
    requires Inv(s, g) && s.pc.Free? && !Safe(s)
    ensures Careful(Step(s, Consume), more) && FaultsIn(Step(s, Consume), more)
  {
    var s1 := Step(s, Consume);
    if s.q.tail == s.pc.oldHead {
      more := Follows(s1);
    } else {
      var i :| 0 <= i < |s.pushers| && Holds(s.pushers[i].pc, s.pc.oldHead);
      if s.pushers[i].pc.LoadNext? || s.pushers[i].pc.LinkCas? {
        more := [Link(i)];
        assert Careful(Step(s1, Link(i)), []);
      } else {
        more := StaleFaults(s, g, i);
      }
    }
  }

  /** When the consumer is about to delete a node, after a run whose deletes were safe: no continuation whose
      further deletes are safe follows a pointer to a freed node, if and only if this delete is safe too. */
  lemma DeleteSafeIff(moves: seq<Move>)
    requires Careful(Init(), moves) && Exec(Init(), moves).pc.Free?
    ensures NeverFaults(Step(Exec(Init(), moves), Consume)) <==> Safe(Exec(Init(), moves))
  {
    InitHolds();
    var g := CarefulRun(Init(), FreshTrail(), moves);
    var s := Exec(Init(), moves);
    if Safe(s) {
      StepInv(s, g, Consume);
      forall more | Careful(Step(s, Consume), more) ensures !FaultsIn(Step(s, Consume), more) {
        var g' := CarefulRun(Step(s, Consume), Track(s, g, Consume), more);
      }
    } else {
      var more := UnsafeFaults(s, g);
      assert !NeverFaults(Step(s, Consume));
    }
  }

  // ----- it is not enough that nobody is about to follow the node -----

  predicate Unfollowed(s: State) {
    s.pc.Free? ==>
      && s.q.tail != s.pc.oldHead
      && forall i :: 0 <= i < |s.pushers| ==>
           !(Holds(s.pushers[i].pc, s.pc.oldHead) && (s.pushers[i].pc.LoadNext? || s.pushers[i].pc.LinkCas?))
  }

  predicate UnfollowedRun(s: State, moves: seq<Move>)
    decreases |moves|
  {
    moves == [] || ((moves[0].Consume? ==> Unfollowed(s)) && UnfollowedRun(Step(s, moves[0]), moves[1..]))
  }

  lemma {:induction false} UnfollowedAppend(s: State, before: seq<Move>, after: seq<Move>)
    requires UnfollowedRun(s, before) && UnfollowedRun(Exec(s, before), after)
    ensures UnfollowedRun(s, before + after) && Exec(s, before + after) == Exec(Exec(s, before), after)
    ensures FaultsIn(Exec(s, before), after) ==> FaultsIn(s, before + after)
    decreases |before|
  {
    if before == [] {
      assert before + after == after;
    } else {
      assert (before + after)[1..] == before[1..] + after;
      UnfollowedAppend(Step(s, before[0]), before[1..], after);
    }
  }

  /** One move of such a run. */
  lemma One(s: State, moves: seq<Move>, k: nat) returns (s': State)
    requires k < |moves| && (moves[k].Consume? ==> Unfollowed(s))
    ensures s' == Step(s, moves[k]) && Exec(s, moves[k..]) == Exec(s', moves[k + 1..])
    ensures UnfollowedRun(s', moves[k + 1..]) ==> UnfollowedRun(s, moves[k..])
    ensures Faults(s, moves[k]) || FaultsIn(s', moves[k + 1..]) ==> FaultsIn(s, moves[k..])
  {
    s' := Step(s, moves[k]);
    assert moves[k..][1..] == moves[k + 1..];
  }

  /** Producer 0 links node 2 behind 1 and stops before its last step; producer 1 links 3. */
  function TwoLink(): seq<Move> {
    [Start(2, 0), Link(0), Link(0), Link(0)]
    + [Start(3, 0), Link(1), Link(1), Link(1), Link(1), Link(1), Link(1), Link(1)]
  }

  function TakeAndDelete(): seq<Move> {
    [Consume, Consume, Consume, Consume, Consume]
  }

  /** Producer 2 gets address 1 again, for node 4, and links it behind 3. */
  function LinkReused(): seq<Move> {
    [Start(1, 0), Link(2), Link(2), Link(2), Link(2)]
  }

  /** Producer 0 takes its last step, and producer 3 comes. */
  function LastStep(): seq<Move> {
    [Link(0), Start(4, 0), Link(3), Link(3)]
  }

  /** In this run _tail has left each node that is deleted and nobody is about to follow it; all the same
      producer 3 follows node 2 after its delete. */
  lemma UnfollowedNotEnough() returns (moves: seq<Move>)
    ensures moves == TwoLink() + TakeAndDelete() + LinkReused() + TakeAndDelete() + LastStep()
    ensures UnfollowedRun(Init(), moves) && FaultsIn(Init(), moves)
  {
    var s2 := FirstHalf();
    SecondHalf(s2);
    var half := TwoLink() + TakeAndDelete();
    UnfollowedAppend(Init(), half, LinkReused() + TakeAndDelete() + LastStep());
    moves := half + (LinkReused() + TakeAndDelete() + LastStep());
    assert moves == TwoLink() + TakeAndDelete() + LinkReused() + TakeAndDelete() + LastStep();
  }

  lemma FirstHalf() returns (s: State)
    ensures s == Exec(Init(), TwoLink() + TakeAndDelete()) && UnfollowedRun(Init(), TwoLink() + TakeAndDelete())
    ensures s.q.nodes == map[1 := Node(0, 2), 2 := Node(0, 3), 3 := Node(0, 0)] - {1}
    ensures s.q.head == 2 && s.q.tail == 3 && s.q.addrs == [0, 1, 2, 3] && s.pc == LoadHead
    ensures s.pushers == [Pusher(2, 0, SwingTail(1)), Pusher(3, 0, LinkDone)]
  {
    var s1 := AfterTwo();
    s := Deletes1(s1, 2, 3, 0);
    UnfollowedAppend(Init(), TwoLink(), TakeAndDelete());
  }

  lemma SecondHalf(s: State)
    requires s.q.nodes == map[1 := Node(0, 2), 2 := Node(0, 3), 3 := Node(0, 0)] - {1}
    requires s.q.head == 2 && s.q.tail == 3 && s.q.addrs == [0, 1, 2, 3] && s.pc == LoadHead
    requires s.pushers == [Pusher(2, 0, SwingTail(1)), Pusher(3, 0, LinkDone)]
    ensures UnfollowedRun(s, LinkReused() + TakeAndDelete() + LastStep())
    ensures FaultsIn(s, LinkReused() + TakeAndDelete() + LastStep())
  {
    var s3 := AfterReuse(s);
    var s4 := Deletes1(s3, 3, 4, 0);
    Ends(s4);
    UnfollowedAppend(s, LinkReused(), TakeAndDelete());
    UnfollowedAppend(s, LinkReused() + TakeAndDelete(), LastStep());
  }

  lemma AfterTwo() returns (s: State)
    ensures s == Exec(Init(), TwoLink()) && UnfollowedRun(Init(), TwoLink())
    ensures s.q == Queue([0, 1, 2, 3], map[1 := Node(0, 2), 2 := Node(0, 3), 3 := Node(0, 0)], 1, 3)
    ensures s.pushers == [Pusher(2, 0, SwingTail(1)), Pusher(3, 0, LinkDone)] && s.pc == LoadHead
  {
    var m1, helps := [Start(2, 0), Link(0), Link(0), Link(0)], [Start(3, 0), Link(1), Link(1), Link(1)];
    var links := [Link(1), Link(1), Link(1), Link(1)];
    var s1 := LinksFirst();
    var s2 := HelpsFirst(s1);
    s := LinkFour(s2, 1, links);
    UnfollowedAppend(s1, helps, links);
    UnfollowedAppend(Init(), m1, helps + links);
    assert m1 + (helps + links) == TwoLink();
  }

  lemma LinksFirst() returns (s: State)
    ensures var m := [Start(2, 0), Link(0), Link(0), Link(0)]; s == Exec(Init(), m) && UnfollowedRun(Init(), m)
    ensures s.q == Queue([0, 1, 2], map[1 := Node(0, 2), 2 := Node(0, 0)], 1, 1) && s.pc == LoadHead
    ensures s.pushers == [Pusher(2, 0, SwingTail(1))]
  {
    var m := [Start(2, 0), Link(0), Link(0), Link(0)];
    var s1 := One(Init(), m, 0);
    var s2 := One(s1, m, 1);
    var s3 := One(s2, m, 2);
    s := One(s3, m, 3);
    assert m[0..] == m && m[4..] == [];
  }

  /** Producer 1 comes and moves _tail on to node 2. */
  lemma HelpsFirst(s0: State) returns (s: State)
    requires s0.q == Queue([0, 1, 2], map[1 := Node(0, 2), 2 := Node(0, 0)], 1, 1) && s0.pc == LoadHead
    requires s0.pushers == [Pusher(2, 0, SwingTail(1))]
    ensures var m := [Start(3, 0), Link(1), Link(1), Link(1)]; s == Exec(s0, m) && UnfollowedRun(s0, m)
    ensures s.q == Queue([0, 1, 2, 3], map[1 := Node(0, 2), 2 := Node(0, 0), 3 := Node(0, 0)], 1, 2)
    ensures s.pushers == [Pusher(2, 0, SwingTail(1)), Pusher(3, 0, LoadTail)] && s.pc == LoadHead
  {
    var m := [Start(3, 0), Link(1), Link(1), Link(1)];
    var s1 := One(s0, m, 0);
    assert s1.pushers == [Pusher(2, 0, SwingTail(1)), Pusher(3, 0, LoadTail)];
    var s2 := One(s1, m, 1);
    var s3 := One(s2, m, 2);
    s := One(s3, m, 3);
    assert m[0..] == m && m[4..] == [];
  }

  /** A producer that finds _tail on the last node links its node there and moves _tail. */
  lemma LinkFour(s0: State, i: nat, m: seq<Move>) returns (s: State)
    requires i < |s0.pushers| && s0.pushers[i].pc == LoadTail && m == [Link(i), Link(i), Link(i), Link(i)]
    requires s0.q.tail in s0.q.nodes && s0.q.nodes[s0.q.tail].next == 0
    ensures s == Exec(s0, m) && UnfollowedRun(s0, m)
    ensures var node, tail := s0.pushers[i].node, s0.q.tail;
            s == s0.(q := s0.q.(nodes := s0.q.nodes[tail := Node(s0.q.nodes[tail].job, node)], tail := node),
                     pushers := s0.pushers[i := s0.pushers[i].(pc := LinkDone)])
  {
    var s1 := One(s0, m, 0);
    var s2 := One(s1, m, 1);
    var s3 := One(s2, m, 2);
    s := One(s3, m, 3);
    assert m[0..] == m && m[4..] == [];
  }

  /** The consumer takes the node behind the head and deletes the head. */
  lemma Deletes1(s: State, next: Ptr, after: Ptr, job: Job) returns (e: State)
    requires s.pc == LoadHead && s.q.head in s.q.nodes && next in s.q.nodes && next != 0
    requires s.q.nodes[s.q.head].next == next && s.q.nodes[next] == Node(job, after)
    requires s.q.tail != s.q.head
    requires forall i :: 0 <= i < |s.pushers| ==> s.pushers[i].pc.SwingTail? || s.pushers[i].pc.LinkDone?
    ensures e == Exec(s, TakeAndDelete()) && UnfollowedRun(s, TakeAndDelete())
    ensures e == State(s.q.(head := next, nodes := s.q.nodes - {s.q.head}), s.pushers, LoadHead)
  {
    var m := TakeAndDelete();
    var s1 := One(s, m, 0);
    var s2 := One(s1, m, 1);
    var s3 := One(s2, m, 2);
    var s4 := One(s3, m, 3);
    e := One(s4, m, 4);
    assert m[0..] == m && m[5..] == [];
  }

  lemma AfterReuse(s0: State) returns (s: State)
    requires s0.q.nodes == map[1 := Node(0, 2), 2 := Node(0, 3), 3 := Node(0, 0)] - {1}
    requires s0.q.head == 2 && s0.q.tail == 3 && s0.q.addrs == [0, 1, 2, 3] && s0.pc == LoadHead
    requires s0.pushers == [Pusher(2, 0, SwingTail(1)), Pusher(3, 0, LinkDone)]
    ensures s == Exec(s0, LinkReused()) && UnfollowedRun(s0, LinkReused())
    ensures s.q == Queue([0, 1, 2, 3, 1], map[2 := Node(0, 3), 3 := Node(0, 4), 4 := Node(0, 0)], 2, 4)
    ensures s.pushers == [Pusher(2, 0, SwingTail(1)), Pusher(3, 0, LinkDone), Pusher(4, 0, LinkDone)]
    ensures s.pc == LoadHead
  {
    assert s0.q.nodes == map[2 := Node(0, 3), 3 := Node(0, 0)];
    var m := [Link(2), Link(2), Link(2), Link(2)];
    var s1 := One(s0, [Start(1, 0)], 0);
    assert [Start(1, 0)][0..] == [Start(1, 0)] && [Start(1, 0)][1..] == [];
    s := LinkFour(s1, 2, m);
    UnfollowedAppend(s0, [Start(1, 0)], m);
    assert [Start(1, 0)] + m == LinkReused();
  }

  /** The stale CAS alone takes _tail back to a deleted node while the list is not empty. */
  lemma TailFallsBack() returns (moves: seq<Move>)
    ensures moves == TwoLink() + TakeAndDelete() + LinkReused() + TakeAndDelete() + [Link(0)]
    ensures UnfollowedRun(Init(), moves)
    ensures var q := Exec(Init(), moves).q; q.tail !in q.nodes && q.head in q.nodes && q.nodes[q.head].next != 0
  {
    var s2 := FirstHalf();
    var s3 := AfterReuse(s2);
    var s4 := Deletes1(s3, 3, 4, 0);
    var half := TwoLink() + TakeAndDelete();
    UnfollowedAppend(s2, LinkReused(), TakeAndDelete());
    UnfollowedAppend(Init(), half, LinkReused() + TakeAndDelete());
    var before := half + (LinkReused() + TakeAndDelete());
    var s5 := One(s4, [Link(0)], 0);
    assert [Link(0)][0..] == [Link(0)] && [Link(0)][1..] == [];
    UnfollowedAppend(Init(), before, [Link(0)]);
    moves := before + [Link(0)];
    assert moves == TwoLink() + TakeAndDelete() + LinkReused() + TakeAndDelete() + [Link(0)];
  }

  lemma Ends(s: State)
    requires s.q.addrs == [0, 1, 2, 3, 1] && s.q.tail == 4 && s.q.nodes.Keys == {3, 4} && |s.pushers| == 3
    requires s.pushers[0] == Pusher(2, 0, SwingTail(1))
    ensures UnfollowedRun(s, LastStep()) && FaultsIn(s, LastStep())
  {
    var m := LastStep();
    var s1 := One(s, m, 0);
    var s2 := One(s1, m, 1);
    var s3 := One(s2, m, 2);
    assert s3.pushers[3].pc == LoadNext(2);
    var s4 := One(s3, m, 3);
    assert m[0..] == m && m[4..] == [];
  }
}
