/** When the delete at ServerCore/MSPCLockFreeQueue.h:46 does no harm. Pop frees the old head without asking
    who still has it, and the next allocation may hand the same address out again. */
module MpscReclamation {
  import opened MpscQueue

  datatype Pusher = Pusher(node: Ptr, job: Job, pc: LinkPC)

  /** pc: where the consumer is in Pop, which it calls again and again. */
  datatype State = State(q: Queue, pushers: seq<Pusher>, pc: PopPC)

  function Init(): State {
    State(Fresh(), [], LoadHead)
  }

  /** Start: one more thread calls Push, and its node is allocated at addr, which may be the address of a node
      that was deleted. Link: one step of a Push. Consume: one step of the consumer. */
  datatype Move = Start(addr: Addr, job: Job) | Link(i: nat) | Consume

  function Step(s: State, m: Move): State {
    match m
    case Start(addr, job) =>
      if CanAlloc(s.q, addr) then
        s.(q := Alloc(s.q, addr, job), pushers := s.pushers + [Pusher(|s.q.addrs|, job, LoadTail)])
      else s
    case Link(i) =>
      if i >= |s.pushers| then s
      else
        var (q, pc) := LinkAct(s.q, s.pushers[i].node, s.pushers[i].pc);
        s.(q := q, pushers := s.pushers[i := s.pushers[i].(pc := pc)])
    case Consume =>
      var (q, pc) := PopAct(s.q, s.pc);
      s.(q := q, pc := if pc.GotNone? || pc.GotJob? then LoadHead else pc)
  }

  /** The step follows a pointer to a deleted node, whether or not its address was given out again, or deletes a
      node twice. */
  predicate Faults(s: State, m: Move) {
    match m
    case Start(_, _) => false
    case Link(i) => i < |s.pushers| && LinkAct(s.q, s.pushers[i].node, s.pushers[i].pc).1.LinkFault?
    case Consume => PopAct(s.q, s.pc).1.PopFault?
  }

  predicate FaultsIn(s: State, moves: seq<Move>)
    decreases |moves|
  {
    moves != [] && (Faults(s, moves[0]) || FaultsIn(Step(s, moves[0]), moves[1..]))
  }

  function Exec(s: State, moves: seq<Move>): State
    decreases |moves|
  {
    if moves == [] then s else Exec(Step(s, moves[0]), moves[1..])
  }

  /** _tail has left the node about to be freed, and no producer has it as its oldTail: not to follow it, and
      not to compare _tail with it. */
  ghost predicate Safe(s: State) {
    s.pc.Free? ==>
      s.q.tail != s.pc.oldHead && forall i :: 0 <= i < |s.pushers| ==> !Holds(s.pushers[i].pc, s.pc.oldHead)
  }

  /** Every delete of the run happens in a safe state. */
  ghost predicate Careful(s: State, moves: seq<Move>)
    decreases |moves|
  {
    moves == [] || ((moves[0].Consume? ==> Safe(s)) && Careful(Step(s, moves[0]), moves[1..]))
  }

  // ----- what a careful run keeps -----

  ghost predicate PushersOk(q: Queue, g: Trail, pushers: seq<Pusher>) {
    && (forall i :: 0 <= i < |pushers| ==> PusherOk(q, g, pushers[i]))
    && (forall i, j :: 0 <= i < j < |pushers| && Pending(pushers[i].pc) && Pending(pushers[j].pc) ==>
          pushers[i].node != pushers[j].node)
  }

  ghost predicate Inv(s: State, g: Trail) {
    && ListInv(s.q, g) && PushersOk(s.q, g, s.pushers) && NearEnd(s.q, g) && Distinct(s.q)
    && s.q.tail in s.q.nodes
    && Consumer(s.q, g, s.pc) && !s.pc.GotNone? && !s.pc.GotJob?
  }

  ghost predicate PusherOk(q: Queue, g: Trail, p: Pusher) {
    && Producer(q, g, p.node, p.job, p.pc) && Seen(q, g, p.pc)
    && (HasTail(p.pc) ==> p.pc.oldTail in q.nodes) && !p.pc.LinkFault?
  }

  lemma InitHolds()
    ensures Inv(Init(), FreshTrail())
  {
    FreshInv();
  }

  ghost function Track(s: State, g: Trail, m: Move): Trail {
    match m
    case Start(_, _) => g
    case Link(i) =>
      if i < |s.pushers| then LinkTrack(s.q, g, s.pushers[i].node, s.pushers[i].job, s.pushers[i].pc) else g
    case Consume => PopTrack(g, s.pc)
  }

  lemma StartInv(s: State, g: Trail, addr: Addr, job: Job)
    requires Inv(s, g)
    ensures Inv(Step(s, Start(addr, job)), g)
  {
    if CanAlloc(s.q, addr) {
      AllocStep(s.q, g, addr, job);
      AllocDistinct(s.q, g, addr, job);
      var q', node := Alloc(s.q, addr, job), |s.q.addrs|;
      forall i | 0 <= i < |s.pushers|
        ensures PusherOk(q', g, s.pushers[i]) && (Pending(s.pushers[i].pc) ==> s.pushers[i].node != node)
      {
        OtherPusher(s.q, g, q', g, node, s.pushers[i]);
      }
      ConsumerStable(s.q, g, q', g, node, s.pc);
    }
  }

  lemma OtherPusher(q: Queue, g: Trail, q': Queue, g': Trail, own: Ptr, p: Pusher)
    requires ListInv(q, g) && ListInv(q', g') && Grows(q, g, q', g', own) && TailForward(q, g, q', g')
    requires PusherOk(q, g, p) && (Pending(p.pc) ==> p.node != own)
    requires HasTail(p.pc) && p.pc.oldTail in q.nodes ==> p.pc.oldTail in q'.nodes
    ensures PusherOk(q', g', p)
  {
    if !p.pc.LinkDone? {
      ProducerStable(q, g, q', g', own, p.node, p.job, p.pc);
    }
    SeenStable(q, g, q', g', own, p.pc);
  }

  lemma LinkInv(s: State, g: Trail, i: nat)
    requires Inv(s, g) && i < |s.pushers|
    ensures Inv(Step(s, Link(i)), Track(s, g, Link(i))) && !Faults(s, Link(i))
  {
    var p := s.pushers[i];
    LinkStep(s.q, g, p.node, p.job, p.pc);
    LinkAlive(s.q, g, p.node, p.job, p.pc);
    LinkTail(s.q, g, p.node, p.job, p.pc);
    ConsumerStable(s.q, g, LinkAct(s.q, p.node, p.pc).0, Track(s, g, Link(i)), p.node, s.pc);
    LinkPushers(s, g, i);
  }

  lemma LinkPushers(s: State, g: Trail, i: nat)
    requires Inv(s, g) && i < |s.pushers|
    ensures PushersOk(Step(s, Link(i)).q, Track(s, g, Link(i)), Step(s, Link(i)).pushers)
  {
    var p := s.pushers[i];
    var (q', pc') := LinkAct(s.q, p.node, p.pc);
    var g' := Track(s, g, Link(i));
    LinkStep(s.q, g, p.node, p.job, p.pc);
    LinkAlive(s.q, g, p.node, p.job, p.pc);
    LinkTail(s.q, g, p.node, p.job, p.pc);
    if !p.pc.LinkDone? {
      forall j | 0 <= j < |s.pushers| && j != i ensures PusherOk(q', g', s.pushers[j]) {
        OtherPusher(s.q, g, q', g', p.node, s.pushers[j]);
      }
    }
  }

  lemma ConsumeInv(s: State, g: Trail)
    requires Inv(s, g) && Safe(s)
    ensures Inv(Step(s, Consume), Track(s, g, Consume)) && !Faults(s, Consume)
  {
    var (q', pc') := PopAct(s.q, s.pc);
    var g' := Track(s, g, Consume);
    PopStep(s.q, g, s.pc);
    forall i | 0 <= i < |s.pushers| ensures PusherOk(q', g', s.pushers[i]) {
      OtherPusher(s.q, g, q', g', 0, s.pushers[i]);
    }
  }

  lemma StepInv(s: State, g: Trail, m: Move)
    requires Inv(s, g) && (m.Consume? ==> Safe(s))
    ensures Inv(Step(s, m), Track(s, g, m)) && !Faults(s, m)
  {
    match m
    case Start(addr, job) => StartInv(s, g, addr, job);
    case Link(i) => if i < |s.pushers| { LinkInv(s, g, i); }
    case Consume => ConsumeInv(s, g);
  }

  lemma {:induction false} CarefulRun(s: State, g: Trail, moves: seq<Move>) returns (g': Trail)
    requires Inv(s, g) && Careful(s, moves)
    ensures Inv(Exec(s, moves), g') && !FaultsIn(s, moves)
    decreases |moves|
  {
    if moves == [] { return g; }
    StepInv(s, g, moves[0]);
    g' := CarefulRun(Step(s, moves[0]), Track(s, g, moves[0]), moves[1..]);
  }

  /** If every delete of a run happens when _tail has left the node and no producer has it as its oldTail, no
      step of any producer or of the consumer follows a pointer to a deleted node, however addresses are
      reused, and no node is deleted twice. */
  lemma CarefulNeverFaults(moves: seq<Move>)
    requires Careful(Init(), moves)
    ensures !FaultsIn(Init(), moves)
  {
    InitHolds();
    var g := CarefulRun(Init(), FreshTrail(), moves);
  }

  // ----- runs put together -----

  lemma {:induction false} Append(s: State, before: seq<Move>, after: seq<Move>)
    ensures Exec(s, before + after) == Exec(Exec(s, before), after)
    ensures Careful(s, before + after) <==> Careful(s, before) && Careful(Exec(s, before), after)
    ensures FaultsIn(Exec(s, before), after) ==> FaultsIn(s, before + after)
    decreases |before|
  {
    if before == [] {
      assert before + after == after;
    } else {
      assert (before + after)[1..] == before[1..] + after;
      Append(Step(s, before[0]), before[1..], after);
    }
  }

  predicate NoConsume(moves: seq<Move>) {
    forall m :: m in moves ==> !m.Consume?
  }

  lemma {:induction false} ProducersCareful(s: State, moves: seq<Move>)
    requires NoConsume(moves)
    ensures Careful(s, moves)
    decreases |moves|
  {
    if moves != [] {
      assert moves[0] in moves;
      ProducersCareful(Step(s, moves[0]), moves[1..]);
    }
  }

  lemma {:induction false} FreshAddress(q: Queue, used: set<Ptr>) returns (addr: Addr)
    ensures forall p :: p in used ==> Address(q, p) < addr
    ensures addr != 0
    decreases |used|
  {
    if used == {} { return 1; }
    var p :| p in used;
    addr := FreshAddress(q, used - {p});
    if addr <= Address(q, p) { addr := Address(q, p) + 1; }
    assert used == (used - {p}) + {p};
  }

  function Again(i: nat, n: nat): seq<Move> {
    if n == 0 then [] else [Link(i)] + Again(i, n - 1)
  }

  lemma {:induction false} AgainIs(s: State, i: nat, n: nat)
    requires i < |s.pushers|
    ensures var (q, pc) := SoloRun(s.q, s.pushers[i].node, s.pushers[i].pc, n);
            Exec(s, Again(i, n)) == s.(q := q, pushers := s.pushers[i := s.pushers[i].(pc := pc)])
    ensures forall m :: m in Again(i, n) ==> m == Link(i)
    decreases n
  {
    if n > 0 {
      assert Again(i, n)[1..] == Again(i, n - 1);
      AgainIs(Step(s, Link(i)), i, n - 1);
    }
  }
}
