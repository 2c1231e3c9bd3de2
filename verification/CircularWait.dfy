/** Whole runs of threads that lock and unlock with the profiler on. Lock.cpp tells the profiler before
    it tries to acquire, so a thread that waits for a lock has that lock on top of its stack. */
module CircularWait {
  import opened LockOrder
  import opened DeadLockProfiler

  /** held: the names of the locks each thread has asked for and not released, oldest first, as the
      thread itself knows them; the profiler never sees it. */
  datatype System = System(p: Prof, held: map<Tid, seq<Name>>, waiting: set<Tid>, crash: Crash)

  /** Request: a lock call up to and including PushLock. Acquire: the lock is granted, whenever that may
      be. Release: an unlock, which calls PopLock first. A thread that waits makes no call. */
  datatype Move = Request(t: Tid, name: Name) | Acquire(t: Tid) | Release(t: Tid, name: Name)

  function Init(): System {
    System(Prof(map[], map[], map[]), map[], {}, NoCrash)
  }

  function Held(s: System, t: Tid): seq<Name> {
    if t in s.held then s.held[t] else []
  }

  function Last<T>(st: seq<T>): T
    requires st != []
  {
    st[|st| - 1]
  }

  ghost function Step(s: System, m: Move): System {
    if s.crash != NoCrash then s
    else
      match m
      case Request(t, name) =>
        if t in s.waiting then s
        else
          var (p, crash) := PushSpec(s.p, t, name);
          System(p, s.held[t := Held(s, t) + [name]], s.waiting + {t}, crash)
      case Acquire(t) => s.(waiting := s.waiting - {t})
      case Release(t, name) =>
        if t in s.waiting then s
        else
          var (p, crash) := PopSpec(s.p, t, name);
          var mine := Held(s, t);
          System(p, if mine == [] then s.held else s.held[t := mine[..|mine| - 1]], s.waiting, crash)
  }

  ghost function Exec(s: System, moves: seq<Move>): System
    decreases |moves|
  {
    if moves == [] then s else Exec(Step(s, moves[0]), moves[1..])
  }

  /** In every run, guards scoped or not, the profiler is in a state that its calls can handle. */
  lemma {:induction false} EveryRunBounded(s: System, moves: seq<Move>)
    requires Bounded(s.p)
    ensures Bounded(Exec(s, moves).p)
    decreases |moves|
  {
    if moves != [] {
      match moves[0] {
        case Request(t, name) => PushBounded(s.p, t, name);
        case Acquire(_) =>
        case Release(t, name) => PopBounded(s.p, t, name);
      }
      EveryRunBounded(Step(s, moves[0]), moves[1..]);
    }
  }

  /** Scoped guards unlock what they locked last. */
  predicate Scoped(s: System, m: Move) {
    m.Release? && m.t !in s.waiting ==> Held(s, m.t) != [] && Last(Held(s, m.t)) == m.name
  }

  ghost predicate ScopedRun(s: System, moves: seq<Move>)
    decreases |moves|
  {
    moves == [] || (Scoped(s, moves[0]) && ScopedRun(Step(s, moves[0]), moves[1..]))
  }

  // ----- the profiler mirrors what the threads hold -----

  /** The profiler's stack holds the ids of the names the thread has asked for. */
  predicate Mirrors(ids: map<Name, Id>, st: seq<Id>, mine: seq<Name>) {
    |st| == |mine| && forall i :: 0 <= i < |mine| ==> mine[i] in ids && ids[mine[i]] == st[i]
  }

  ghost predicate Inv(s: System) {
    && (s.crash == NoCrash ==>
          && Valid(s.p) && (forall t: Tid :: Mirrors(s.p.ids, StackOf(s.p, t), Held(s, t)))
          && (forall t :: t in s.waiting ==> Held(s, t) != []))
    && (s.crash == NoCrash || (s.crash == DeadlockDetected && Cyclic(s.p.history)))
  }

  lemma InitHolds()
    ensures Inv(Init())
  {
    RankedAcyclic(map[], (v: Id) => 0);
  }

  /** PopLock in a state that mirrors: it crashes unless the thread holds something and gives the name it
      asked for last -- or a name never seen, which gets id 0, while its last name has id 0. */
  lemma PopLockExact(s: System, t: Tid, name: Name)
    requires Inv(s) && s.crash == NoCrash
    ensures var crash := PopSpec(s.p, t, name).1;
            var mine := Held(s, t);
            && (crash == MultipleUnlock <==> mine == [])
            && (crash == NoCrash <==>
                  mine != [] && (name == Last(mine) || (name !in s.p.ids && s.p.ids[Last(mine)] == 0)))
  {
    assert Mirrors(s.p.ids, StackOf(s.p, t), Held(s, t));
  }

  lemma RequestMirrors(s: System, t: Tid, name: Name)
    requires Inv(s) && s.crash == NoCrash && t !in s.waiting && Step(s, Request(t, name)).crash == NoCrash
    ensures forall u: Tid :: Mirrors(Step(s, Request(t, name)).p.ids, StackOf(Step(s, Request(t, name)).p, u),
                                     Held(Step(s, Request(t, name)), u))
  {
    var s' := Step(s, Request(t, name));
    forall u: Tid ensures Mirrors(s'.p.ids, StackOf(s'.p, u), Held(s', u)) {
      assert Mirrors(s.p.ids, StackOf(s.p, u), Held(s, u));
    }
  }

  lemma ReleaseMirrors(s: System, t: Tid, name: Name)
    requires Inv(s) && s.crash == NoCrash && t !in s.waiting && Scoped(s, Release(t, name))
    ensures Inv(Step(s, Release(t, name))) && Step(s, Release(t, name)).crash == NoCrash
  {
    var s' := Step(s, Release(t, name));
    assert Mirrors(s.p.ids, StackOf(s.p, t), Held(s, t));
    PopLockExact(s, t, name);
    PopValid(s.p, t, name);
    forall u: Tid ensures Mirrors(s'.p.ids, StackOf(s'.p, u), Held(s', u)) {
      assert Mirrors(s.p.ids, StackOf(s.p, u), Held(s, u));
    }
  }

  lemma StepInv(s: System, m: Move)
    requires Inv(s) && Scoped(s, m)
    ensures Inv(Step(s, m))
  {
    if s.crash == NoCrash && m.t !in s.waiting {
      match m
      case Request(t, name) =>
        PushValid(s.p, t, name);
        if Step(s, m).crash == NoCrash { RequestMirrors(s, t, name); }
      case Acquire(t) =>
      case Release(t, name) => ReleaseMirrors(s, t, name);
    }
  }

  lemma {:induction false} RunInv(s: System, moves: seq<Move>)
    requires Inv(s) && ScopedRun(s, moves)
    ensures Inv(Exec(s, moves))
    decreases |moves|
  {
    if moves != [] {
      StepInv(s, moves[0]);
      RunInv(Step(s, moves[0]), moves[1..]);
    }
  }

  /** In a run of scoped guards PopLock never crashes, and PushLock only when the history has a cycle. */
  lemma OnlyDeadlocksCrash(moves: seq<Move>)
    requires ScopedRun(Init(), moves)
    ensures var s := Exec(Init(), moves); s.crash == NoCrash || (s.crash == DeadlockDetected && Cyclic(s.p.history))
  {
    InitHolds();
    RunInv(Init(), moves);
  }

  /** In a run of scoped guards equal ids are equal names, and stay so exactly as long as nobody releases
      a name never seen while holding something. */
  lemma OneNamePerId(moves: seq<Move>, t: Tid, name: Name)
    requires ScopedRun(Init(), moves) && Exec(Init(), moves).crash == NoCrash && t !in Exec(Init(), moves).waiting
    ensures var s := Exec(Init(), moves);
            && Injective(s.p.ids)
            && (Injective(Step(s, Release(t, name)).p.ids) <==> Held(s, t) == [] || name in s.p.ids)
  {
    InitHolds();
    RunInv(Init(), moves);
    var s := Exec(Init(), moves);
    assert Mirrors(s.p.ids, StackOf(s.p, t), Held(s, t));
    PopValid(s.p, t, name);
  }

  predicate Injective(ids: map<Name, Id>) {
    forall x, y :: x in ids && y in ids && ids[x] == ids[y] ==> x == y
  }

  // ----- threads that wait for one another -----

  predicate Waits(s: System, t: Tid) {
    t in s.waiting && Held(s, t) != []
  }

  /** The name of the lock thread t waits for. */
  function Wanted(s: System, t: Tid): Name
    requires Waits(s, t)
  {
    Last(Held(s, t))
  }

  /** Each of these threads waits for a lock of a name that the next one, in a circle, holds. */
  predicate Stuck(s: System, ts: seq<Tid>) {
    && ts != [] && (forall i :: 0 <= i < |ts| ==> Waits(s, ts[i]))
    && (forall i :: 0 <= i < |ts| ==>
          var mine := Held(s, ts[Next(|ts|, i)]);
          mine != [] && Wanted(s, ts[i]) in mine[..|mine| - 1])
  }

  /** The place after i in a circle of n. */
  function Next(n: nat, i: nat): nat
    requires i < n
    ensures Next(n, i) < n
  {
    if i + 1 == n then 0 else i + 1
  }

  lemma {:induction false} StackReaches(g: Graph, n: nat, st: seq<Id>, i: nat)
    requires StackOk(g, n, st) && i < |st|
    ensures Reaches(g, st[i], st[|st| - 1])
    decreases |st| - i
  {
    if i == |st| - 1 {
      assert Walk(g, [st[i]]);
    } else {
      StackReaches(g, n, st, i + 1);
      if st[i] != st[i + 1] {
        var w := [st[i], st[i + 1]];
        assert Walk(g, w) && w[0] == st[i] && w[|w| - 1] == st[i + 1];
        ReachesTrans(g, st[i], st[i + 1], st[|st| - 1]);
      }
    }
  }

  /** A lock that a thread holds was asked for before the one it waits for. */
  lemma HeldReachesWanted(s: System, t: Tid, name: Name)
    requires Inv(s) && s.crash == NoCrash && Waits(s, t) && name in Held(s, t)[..|Held(s, t)| - 1]
    ensures name in s.p.ids && Wanted(s, t) in s.p.ids
    ensures Reaches(s.p.history, s.p.ids[name], s.p.ids[Wanted(s, t)])
  {
    var mine, st := Held(s, t), StackOf(s.p, t);
    assert Mirrors(s.p.ids, st, mine);
    var k :| 0 <= k < |mine| - 1 && mine[k] == name;
    StackReaches(s.p.history, |s.p.ids|, st, k);
  }

  /** Each place of a circle reaches the next. */
  ghost predicate Circle(g: Graph, ids: seq<Id>) {
    forall i :: 0 <= i < |ids| ==> Reaches(g, ids[i], ids[Next(|ids|, i)])
  }

  lemma {:induction false} ReachesAhead(g: Graph, ids: seq<Id>, i: nat, j: nat)
    requires Circle(g, ids) && i <= j < |ids|
    ensures Reaches(g, ids[i], ids[j])
    decreases j - i
  {
    if i == j {
      assert Walk(g, [ids[i]]);
    } else {
      assert Next(|ids|, i) == i + 1;
      ReachesAhead(g, ids, i + 1, j);
      ReachesTrans(g, ids[i], ids[i + 1], ids[j]);
    }
  }

  /** In a graph without a cycle a circle is one node. */
  lemma CircleIsPoint(g: Graph, ids: seq<Id>, i: nat)
    requires Circle(g, ids) && !Cyclic(g) && i < |ids|
    ensures ids[i] == ids[0]
  {
    var last := |ids| - 1;
    ReachesAhead(g, ids, 0, i);
    ReachesAhead(g, ids, i, last);
    assert Next(|ids|, last) == 0;
    ReachesTrans(g, ids[i], ids[last], ids[0]);
    if ids[i] != ids[0] { ReachesBack(g, ids[i], ids[0]); }
  }

  /** In every run of scoped guards in which the profiler has not crashed, threads that wait for one
      another in a circle all wait for locks of one name: a circular wait that involves two names would
      be a cycle of the history, and the profiler would have crashed when its last lock was asked for. */
  lemma NoCircularWait(moves: seq<Move>, ts: seq<Tid>, i: nat)
    requires ScopedRun(Init(), moves) && Exec(Init(), moves).crash == NoCrash
    requires Stuck(Exec(Init(), moves), ts) && i < |ts|
    ensures Wanted(Exec(Init(), moves), ts[i]) == Wanted(Exec(Init(), moves), ts[0])
  {
    InitHolds();
    RunInv(Init(), moves);
    StuckSameName(Exec(Init(), moves), ts, i);
  }

  lemma StuckSameName(s: System, ts: seq<Tid>, i: nat)
    requires Inv(s) && s.crash == NoCrash && Stuck(s, ts) && i < |ts|
    ensures Wanted(s, ts[i]) == Wanted(s, ts[0])
  {
    forall j | 0 <= j < |ts|
      ensures Waits(s, ts[j]) && Wanted(s, ts[j]) in s.p.ids && Wanted(s, ts[Next(|ts|, j)]) in s.p.ids
      ensures Reaches(s.p.history, s.p.ids[Wanted(s, ts[j])], s.p.ids[Wanted(s, ts[Next(|ts|, j)])])
    {
      HeldReachesWanted(s, ts[Next(|ts|, j)], Wanted(s, ts[j]));
    }
    var ids := seq(|ts|, j requires 0 <= j < |ts| => s.p.ids[Wanted(s, ts[j])]);
    CircleIsPoint(s.p.history, ids, i);
  }

  // ----- what one release of a name never seen does -----

  /** A request that is the thread's first, or has the id of the lock asked for last, adds no edge. */
  lemma AskSame(s: System, t: Tid, name: Name, id: Id)
    requires s.crash == NoCrash && t !in s.waiting && id == IdFor(s.p, name)
    requires StackOf(s.p, t) == [] || Last(StackOf(s.p, t)) == id
    ensures Step(s, Request(t, name))
            == System(s.p.(ids := s.p.ids[name := id], stacks := s.p.stacks[t := StackOf(s.p, t) + [id]]),
                      s.held[t := Held(s, t) + [name]], s.waiting + {t}, NoCrash)
  {
  }

  lemma ExecStep(s: System, moves: seq<Move>, k: nat)
    requires k < |moves|
    ensures Exec(s, moves[k..]) == Exec(Step(s, moves[k]), moves[k + 1..])
  {
    assert moves[k..][1..] == moves[k + 1..];
  }

  /** Thread t has locked x and unlocks y: PopLock does not notice, and gives y the id of x. */
  lemma WrongNamePops(t: Tid, x: Name, y: Name) returns (s: System)
    requires x != y
    ensures s == Exec(Init(), [Request(t, x), Acquire(t), Release(t, y)]) && s.crash == NoCrash
    ensures s.p.ids == map[x := 0, y := 0] && s.waiting == {}
    ensures forall u :: StackOf(s.p, u) == [] && Held(s, u) == []
  {
    Asks(t, x);
    Pops(t, x, y);
    Three(Init(), Request(t, x), Acquire(t), Release(t, y));
    s := System(Prof(map[x := 0, y := 0], map[], map[t := []]), map[t := []], {}, NoCrash);
  }

  lemma Three(s: System, a: Move, b: Move, c: Move)
    ensures Exec(s, [a, b, c]) == Step(Step(Step(s, a), b), c)
  {
    assert [a, b, c][1..] == [b, c] && [b, c][1..] == [c] && [c][1..] == [];
    var s2 := Step(Step(s, a), b);
    assert Exec(s2, [c]) == Step(s2, c) && Exec(Step(s, a), [b, c]) == Exec(s2, [c]);
  }

  /** Thread t alone has asked for a lock, x. */
  function Holds(t: Tid, x: Name, waiting: set<Tid>): System {
    System(Prof(map[x := 0], map[], map[t := [0]]), map[t := [x]], waiting, NoCrash)
  }

  lemma Asks(t: Tid, x: Name)
    ensures Step(Init(), Request(t, x)) == Holds(t, x, {t}) && Step(Holds(t, x, {t}), Acquire(t)) == Holds(t, x, {})
  {
    AskSame(Init(), t, x, 0);
    assert [] + [0] == [0] && [] + [x] == [x] && {} + {t} == {t} && {t} - {t} == {};
    assert Init().held == map[] && Init().p.stacks == map[];
  }

  lemma Pops(t: Tid, x: Name, y: Name)
    requires x != y
    ensures Step(Holds(t, x, {}), Release(t, y))
            == System(Prof(map[x := 0, y := 0], map[], map[t := []]), map[t := []], {}, NoCrash)
  {
  }

  /** From then on two threads that lock x and y in opposite orders wait for each other for ever, and the
      profiler has not crashed. */
  lemma MissedDeadlock(t: Tid, u: Tid, x: Name, y: Name) returns (moves: seq<Move>)
    requires t != u && x != y
    ensures moves == [Request(t, x), Acquire(t), Release(t, y)]
                     + [Request(t, x), Acquire(t), Request(u, y), Acquire(u), Request(t, y), Request(u, x)]
    ensures var s := Exec(Init(), moves);
            && s.crash == NoCrash && Stuck(s, [t, u])
            && Waits(s, t) && Wanted(s, t) == y && Waits(s, u) && Wanted(s, u) == x
  {
    var s := WrongNamePops(t, x, y);
    var before := [Request(t, x), Acquire(t), Release(t, y)];
    var after := OppositeOrders(s, t, u, x, y);
    moves := before + after;
    ExecAppend(Init(), before, after);
    Crossed(Exec(s, after), t, u, x, y);
  }

  lemma OppositeOrders(s: System, t: Tid, u: Tid, x: Name, y: Name) returns (moves: seq<Move>)
    requires t != u && s.crash == NoCrash && s.waiting == {} && s.p.ids == map[x := 0, y := 0]
    requires forall v :: StackOf(s.p, v) == [] && Held(s, v) == []
    ensures moves == [Request(t, x), Acquire(t), Request(u, y), Acquire(u), Request(t, y), Request(u, x)]
    ensures var e := Exec(s, moves);
            e.crash == NoCrash && e.waiting == {t, u} && Held(e, t) == [x, y] && Held(e, u) == [y, x]
  {
    moves := [Request(t, x), Acquire(t), Request(u, y), Acquire(u), Request(t, y), Request(u, x)];
    var s2 := Locks(s, t, x);
    var s4 := Locks(s2, u, y);
    BothWait(s4, t, u, x, y);
    Six(s, moves);
  }

  lemma BothWait(s: System, t: Tid, u: Tid, x: Name, y: Name)
    requires t != u && s.crash == NoCrash && s.waiting == {} && s.p.ids == map[x := 0, y := 0]
    requires StackOf(s.p, t) == StackOf(s.p, u) == [0] && Held(s, t) == [x] && Held(s, u) == [y]
    ensures var e := Step(Step(s, Request(t, y)), Request(u, x));
            e.crash == NoCrash && e.waiting == {t, u} && Held(e, t) == [x, y] && Held(e, u) == [y, x]
  {
    AskSame(s, t, y, 0);
    AskSame(Step(s, Request(t, y)), u, x, 0);
  }

  lemma Six(s: System, moves: seq<Move>)
    requires |moves| == 6
    ensures Exec(s, moves)
            == Step(Step(Step(Step(Step(Step(s, moves[0]), moves[1]), moves[2]), moves[3]), moves[4]), moves[5])
  {
    var s2 := Step(Step(s, moves[0]), moves[1]);
    var s4 := Step(Step(s2, moves[2]), moves[3]);
    ExecStep(s, moves, 0);
    ExecStep(Step(s, moves[0]), moves, 1);
    ExecStep(s2, moves, 2);
    ExecStep(Step(s2, moves[2]), moves, 3);
    ExecStep(s4, moves, 4);
    ExecStep(Step(s4, moves[4]), moves, 5);
    assert moves[0..] == moves && moves[6..] == [];
  }

  lemma Crossed(s: System, t: Tid, u: Tid, x: Name, y: Name)
    requires Held(s, t) == [x, y] && Held(s, u) == [y, x] && s.waiting == {t, u}
    ensures Stuck(s, [t, u]) && Waits(s, t) && Wanted(s, t) == y && Waits(s, u) && Wanted(s, u) == x
  {
    assert [x, y][..1] == [x] && [y, x][..1] == [y];
  }

  lemma {:induction false} ExecAppend(s: System, before: seq<Move>, after: seq<Move>)
    ensures Exec(s, before + after) == Exec(Exec(s, before), after)
    decreases |before|
  {
    if before == [] {
      assert before + after == after;
    } else {
      assert (before + after)[1..] == before[1..] + after;
      ExecAppend(Step(s, before[0]), before[1..], after);
    }
  }

  /** A thread that holds nothing locks a name with id 0 and gets it. */
  lemma Locks(s: System, t: Tid, name: Name) returns (s': System)
    requires s.crash == NoCrash && s.waiting == {} && StackOf(s.p, t) == [] && Held(s, t) == []
    requires name in s.p.ids && s.p.ids[name] == 0
    ensures s' == Step(Step(s, Request(t, name)), Acquire(t)) && s'.crash == NoCrash && s'.waiting == {}
    ensures s'.p.ids == s.p.ids && s'.p.history == s.p.history
    ensures forall u :: StackOf(s'.p, u) == if u == t then [0] else StackOf(s.p, u)
    ensures forall u :: Held(s', u) == if u == t then [name] else Held(s, u)
  {
    AskSame(s, t, name, 0);
    s' := Step(Step(s, Request(t, name)), Acquire(t));
    assert s.p.ids[name := 0] == s.p.ids;
  }
}
