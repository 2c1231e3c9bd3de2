/** ServerCore/DeadLockProfiler.cpp: lock names get dense ids, each thread keeps a stack of the locks it
    has asked for, and every new pair (top of the stack, lock asked for) is an edge of the history,
    which is then searched for a cycle. CRASH is a result of the call that crashes. */
module DeadLockProfiler {
  import opened LockOrder
  import opened CycleSearch

  type Name = nat  // a const char*, compared as a pointer
  type Tid = nat

  datatype Crash = NoCrash | DeadlockDetected | MultipleUnlock | InvalidUnlock

  /** What the profiler remembers between calls. */
  datatype Prof = Prof(ids: map<Name, Id>, history: Graph, stacks: map<Tid, seq<Id>>)

  function StackOf(p: Prof, t: Tid): seq<Id> {
    if t in p.stacks then p.stacks[t] else []
  }

  function IdFor(p: Prof, name: Name): Id {
    if name in p.ids then p.ids[name] else |p.ids|
  }

  ghost function PushSpec(p: Prof, t: Tid, name: Name): (Prof, Crash) {
    var id := IdFor(p, name);
    var st := StackOf(p, t);
    var named := p.(ids := p.ids[name := id]);
    if st == [] || st[|st| - 1] == id || Edge(p.history, st[|st| - 1], id) then
      (named.(stacks := p.stacks[t := st + [id]]), NoCrash)
    else
      var history := AddEdge(p.history, st[|st| - 1], id);
      if Cyclic(history) then (named.(history := history), DeadlockDetected)
      else (named.(history := history, stacks := p.stacks[t := st + [id]]), NoCrash)
  }

  /** `_nameToId[name]` enters a name never seen before with id 0. */
  function PopSpec(p: Prof, t: Tid, name: Name): (Prof, Crash) {
    var st := StackOf(p, t);
    if st == [] then (p, MultipleUnlock)
    else
      var named := if name in p.ids then p else p.(ids := p.ids[name := 0]);
      if st[|st| - 1] != named.ids[name] then (named, InvalidUnlock)
      else (named.(stacks := p.stacks[t := st[..|st| - 1]]), NoCrash)
  }

  /** Consecutive locks of a stack are the same lock or an edge of the history. */
  ghost predicate StackOk(g: Graph, n: nat, st: seq<Id>) {
    && (forall i :: 0 <= i < |st| ==> st[i] < n)
    && (forall i, j :: 0 <= i && j == i + 1 && j < |st| ==> st[i] == st[j] || Edge(g, st[i], st[j]))
  }

  ghost predicate DenseIds(ids: map<Name, Id>) {
    && (forall x :: x in ids ==> ids[x] < |ids|)
    && (forall x, y :: x in ids && y in ids && ids[x] == ids[y] ==> x == y)
  }

  /** Ids are dense and belong to one name each; the history has no cycle; stacks are walks in it. */
  ghost predicate Valid(p: Prof) {
    && DenseIds(p.ids) && GraphOn(p.history, |p.ids|) && !Cyclic(p.history)
    && (forall t :: t in p.stacks ==> StackOk(p.history, |p.ids|, p.stacks[t]))
  }

  /** All that the calls themselves need, and what every sequence of calls keeps: ids are below their number. */
  ghost predicate Bounded(p: Prof) {
    && (forall x :: x in p.ids ==> p.ids[x] < |p.ids|) && GraphOn(p.history, |p.ids|)
    && (forall t, i :: t in p.stacks && 0 <= i < |p.stacks[t]| ==> p.stacks[t][i] < |p.ids|)
  }

  /** The printed edges are those of the cycle c, from its closing edge backwards. */
  ghost predicate Reported(report: seq<(int, int)>, c: seq<Id>) {
    && c != [] && |report| == |c| && report[0] == (c[|c| - 1], c[0])
    && forall i :: 0 < i < |c| ==> report[i] == (c[|c| - 1 - i], c[|c| - i])
  }

  ghost predicate CycleReported(g: Graph, report: seq<(int, int)>) {
    exists c :: Cycle(g, c) && Reported(report, c)
  }

  class DeadLockProfiler {
    var nameToId: map<Name, Id>
    var idToName: map<Id, Name>
    var lockHistory: Graph
    var stacks: map<Tid, seq<Id>>  // LLockStack, of each thread

    var discoveredOrder: seq<int>
    var discoveredCount: int
    var finished: seq<bool>
    var parent: seq<int>
    var report: seq<(int, int)>  // VIEW_WRITE_ERROR: `{} -> {}`

    ghost var rank: seq<nat>
    ghost var rankCount: nat

    ghost function Vectors(): Search
      reads this
    {
      Search(discoveredOrder, discoveredCount, finished, parent, rank, rankCount)
    }

    ghost function View(): Prof
      reads this
    {
      Prof(nameToId, lockHistory, stacks)
    }

    /** Prints the edge that closes the cycle c and walks back along the parents until `there`. */
    method ReportCycle(here: Id, there: Id, ghost c: seq<Id>)
      requires |c| > 1 && c[0] == there && c[|c| - 1] == here
      requires forall i :: 0 < i < |c| ==> c[i] < |parent| && parent[c[i]] == c[i - 1] && c[i] != there
      modifies this`report
      ensures Reported(report, c)
    {
      report := [(here, there)];
      var now: int := here;
      ghost var i := |c| - 1;
      while true
        invariant 0 < i < |c| && now == c[i]
        invariant |report| == |c| - i && report[0] == (here, there)
        invariant forall j :: 0 < j < |report| ==> report[j] == (c[|c| - 1 - j], c[|c| - j])
        decreases i
      {
        report := report + [(parent[now], now)];
        now := parent[now];
        i := i - 1;
        assert now == c[i];
        if now == there {
          break;
        }
      }
    }

    /** Searches from `here`. path: the calls in progress, outermost first. */
    method Dfs(here: Id, ghost path: seq<Id>) returns (crash: Crash)
      requires Searching(lockHistory, Vectors(), path) && here < |discoveredOrder| && report == []
      requires path != [] ==> Edge(lockHistory, path[|path| - 1], here)
      requires path != [] && !Discovered(Vectors(), here) ==> parent[here] == path[|path| - 1]
      modifies this`discoveredOrder, this`discoveredCount, this`finished, this`parent, this`report, this`rank
      modifies this`rankCount
      ensures crash == NoCrash ==> Searching(lockHistory, Vectors(), path)
      ensures crash == NoCrash ==> Later(old(Vectors()), Vectors()) && report == []
      ensures crash == NoCrash ==> Discovered(Vectors(), here)
      ensures crash == NoCrash && !old(Discovered(Vectors(), here)) ==> Finished(Vectors(), here)
      ensures crash != NoCrash ==> crash == DeadlockDetected && CycleReported(lockHistory, report)
      decreases Undiscovered(Vectors()), 0
    {
      ghost var before := Vectors();
      if discoveredOrder[here] != -1 {
        assert Discovered(before, here);
        return NoCrash;
      }
      MarkDiscovered(here, path);
      ghost var begun := Vectors();
      crash := VisitAll(here, path + [here]);
      if crash == NoCrash {
        ghost var after := Vectors();
        LaterTrans(before, begun, after);
        MarkFinished(here, path);
        LaterTrans(before, after, Vectors());
      }
    }

    method MarkDiscovered(here: Id, ghost path: seq<Id>)
      requires Searching(lockHistory, Vectors(), path) && here < |discoveredOrder| && !Discovered(Vectors(), here)
      requires path != [] ==> Edge(lockHistory, path[|path| - 1], here) && parent[here] == path[|path| - 1]
      modifies this`discoveredOrder, this`discoveredCount
      ensures Searching(lockHistory, Vectors(), path + [here]) && Later(old(Vectors()), Vectors())
      ensures Undiscovered(Vectors()) < old(Undiscovered(Vectors()))
    {
      ghost var before := Vectors();
      Discover(lockHistory, before, path, here);
      discoveredOrder, discoveredCount := discoveredOrder[here := discoveredCount], discoveredCount + 1;
      assert Vectors() == before.(order := discoveredOrder, count := discoveredCount);
    }

    method MarkFinished(here: Id, ghost path: seq<Id>)
      requires Searching(lockHistory, Vectors(), path + [here]) && here < |discoveredOrder|
      requires forall v: Id :: Edge(lockHistory, here, v) ==> Finished(Vectors(), v)
      modifies this`finished, this`rank, this`rankCount
      ensures Searching(lockHistory, Vectors(), path) && Later(old(Vectors()), Vectors())
      ensures Finished(Vectors(), here) && Discovered(Vectors(), here)
    {
      ghost var before := Vectors();
      Finish(lockHistory, before, path, here);
      finished := finished[here := true];
      rank, rankCount := rank[here := rankCount], rankCount + 1;
      assert Vectors() == before.(finished := finished, rank := rank, rankCount := rankCount);
    }

    /** The loop over the locks that were asked for after `here`. */
    method VisitAll(here: Id, ghost path: seq<Id>) returns (crash: Crash)
      requires Searching(lockHistory, Vectors(), path) && path != [] && path[|path| - 1] == here && report == []
      modifies this`discoveredOrder, this`discoveredCount, this`finished, this`parent, this`report, this`rank
      modifies this`rankCount
      ensures crash == NoCrash ==> Searching(lockHistory, Vectors(), path)
      ensures crash == NoCrash ==> Later(old(Vectors()), Vectors()) && report == []
      ensures crash == NoCrash ==> forall v: Id :: Edge(lockHistory, here, v) ==> Finished(Vectors(), v)
      ensures crash != NoCrash ==> crash == DeadlockDetected && CycleReported(lockHistory, report)
      decreases Undiscovered(Vectors()), 2
    {
      ghost var before := Vectors();
      var next := if here in lockHistory then lockHistory[here] else {};
      var rest := next;
      while rest != {}
        invariant rest <= next && report == []
        invariant Searching(lockHistory, Vectors(), path) && Later(before, Vectors())
        invariant Undiscovered(Vectors()) <= Undiscovered(before)
        invariant forall v :: v in next && v !in rest ==> Finished(Vectors(), v)
        decreases rest
      {
        var there :| there in rest;
        rest := rest - {there};
        ghost var at := Vectors();
        crash := Visit(here, there, path);
        if crash != NoCrash {
          return;
        }
        LaterTrans(before, at, Vectors());
        LaterShrinks(at, Vectors());
      }
      return NoCrash;
    }

    /** The body of the loop over the locks that were asked for after `here`. */
    method Visit(here: Id, there: Id, ghost path: seq<Id>) returns (crash: Crash)
      requires Searching(lockHistory, Vectors(), path) && path != [] && path[|path| - 1] == here && report == []
      requires Edge(lockHistory, here, there)
      modifies this`discoveredOrder, this`discoveredCount, this`finished, this`parent, this`report, this`rank
      modifies this`rankCount
      ensures crash == NoCrash ==> Searching(lockHistory, Vectors(), path)
      ensures crash == NoCrash ==> Later(old(Vectors()), Vectors()) && report == []
      ensures crash == NoCrash ==> Finished(Vectors(), there)
      ensures crash != NoCrash ==> crash == DeadlockDetected && CycleReported(lockHistory, report)
      decreases Undiscovered(Vectors()), 1
    {
      ghost var at := Vectors();
      assert here in path;
      if discoveredOrder[there] == -1 {
        SetParent(lockHistory, at, path, here, there);
        parent := parent[there := here];
        ghost var inner := Vectors();
        crash := Dfs(there, path);
        if crash == NoCrash {
          LaterTrans(at, inner, Vectors());
        }
        return;
      }
      if discoveredOrder[here] < discoveredOrder[there] {
        MetLater(lockHistory, at, path, there);
        return NoCrash;
      }
      if !finished[there] {
        ghost var c := BackTo(lockHistory, at, path, there);
        ReportCycle(here, there, c);
        return DeadlockDetected;
      }
      return NoCrash;
    }

    /** Reports a deadlock exactly when the history has a directed cycle. */
    method CheckCycle() returns (crash: Crash)
      requires GraphOn(lockHistory, |nameToId|)
      modifies this`discoveredOrder, this`discoveredCount, this`finished, this`parent, this`report, this`rank
      modifies this`rankCount
      ensures crash == if Cyclic(lockHistory) then DeadlockDetected else NoCrash
      ensures crash == DeadlockDetected ==> CycleReported(lockHistory, report)
    {
      var lockCount := |nameToId|;
      ResetVectors(lockCount);
      for lockId := 0 to lockCount
        invariant |discoveredOrder| == lockCount && report == []
        invariant Searching(lockHistory, Vectors(), [])
        invariant forall v: Id :: v < lockId ==> Discovered(Vectors(), v)
      {
        ghost var at := Vectors();
        crash := Dfs(lockId, []);
        if crash != NoCrash {
          return;
        }
      }
      AllFinished(lockHistory, Vectors());
      discoveredOrder, finished, parent := [], [], [];
      return NoCrash;
    }

    method ResetVectors(lockCount: nat)
      requires GraphOn(lockHistory, lockCount)
      modifies this`discoveredOrder, this`discoveredCount, this`finished, this`parent, this`report, this`rank
      modifies this`rankCount
      ensures |discoveredOrder| == lockCount && report == [] && Searching(lockHistory, Vectors(), [])
    {
      discoveredOrder := seq(lockCount, _ => -1);
      discoveredCount := 0;
      finished := seq(lockCount, _ => false);
      parent := seq(lockCount, _ => -1);
      report := [];
      rank, rankCount := seq(lockCount, _ => 0), 0;
      StartSearch(lockHistory, lockCount);
      assert Vectors() == Start(lockCount);
    }

    ghost predicate NamesAgree()
      reads this
    {
      forall x :: x in nameToId ==> nameToId[x] in idToName && idToName[nameToId[x]] == x
    }

    /** The id of a name, entered now if it is new. */
    method FindId(name: Name) returns (lockId: Id)
      modifies this`nameToId, this`idToName
      ensures lockId == IdFor(old(View()), name) && nameToId == old(nameToId)[name := lockId]
      ensures old(NamesAgree() && DenseIds(nameToId)) ==> NamesAgree()
    {
      if name in nameToId {
        lockId := nameToId[name];
        assert nameToId == nameToId[name := lockId];
      } else {
        lockId := |nameToId|;
        nameToId := nameToId[name := lockId];
        idToName := idToName[lockId := name];
      }
    }

    method PushLock(t: Tid, name: Name) returns (crash: Crash)
      requires Bounded(View())
      modifies this
      ensures (View(), crash) == PushSpec(old(View()), t, name) && Bounded(View())
      ensures old(Valid(View()) && NamesAgree()) && crash == NoCrash ==> Valid(View()) && NamesAgree()
      ensures crash == DeadlockDetected ==> CycleReported(lockHistory, report)
    {
      ghost var before := View();
      PushBounded(before, t, name);
      var lockId := FindId(name);
      crash := PushId(before, t, name, lockId);
      if Valid(before) { PushValid(before, t, name); }
    }

    /** The rest of PushLock, once the name has its id. */
    method PushId(ghost before: Prof, t: Tid, name: Name, lockId: Id) returns (crash: Crash)
      requires Bounded(before) && lockId == IdFor(before, name)
      requires View() == before.(ids := before.ids[name := lockId])
      modifies this`stacks, this`lockHistory, this`discoveredOrder, this`discoveredCount, this`finished, this`parent
      modifies this`report, this`rank, this`rankCount
      ensures (View(), crash) == PushSpec(before, t, name)
      ensures crash == DeadlockDetected ==> CycleReported(lockHistory, report)
    {
      PushBounded(before, t, name);
      var lockStack: seq<Id> := if t in stacks then stacks[t] else [];
      if lockStack != [] {
        var prevId := lockStack[|lockStack| - 1];
        if lockId != prevId {
          crash := RecordOrder(prevId, lockId);
          if crash != NoCrash {
            return;
          }
        }
      }
      stacks := stacks[t := lockStack + [lockId]];
      crash := NoCrash;
    }

    /** `lockId` is asked for while `prevId` was asked for last. */
    method RecordOrder(prevId: Id, lockId: Id) returns (crash: Crash)
      requires Edge(lockHistory, prevId, lockId) || GraphOn(AddEdge(lockHistory, prevId, lockId), |nameToId|)
      modifies this`lockHistory, this`discoveredOrder, this`discoveredCount, this`finished, this`parent, this`report
      modifies this`rank, this`rankCount
      ensures lockHistory == if old(Edge(lockHistory, prevId, lockId)) then old(lockHistory)
                             else AddEdge(old(lockHistory), prevId, lockId)
      ensures crash == if !old(Edge(lockHistory, prevId, lockId)) && Cyclic(lockHistory) then DeadlockDetected
                       else NoCrash
      ensures crash == DeadlockDetected ==> CycleReported(lockHistory, report)
    {
      var history: set<Id> := if prevId in lockHistory then lockHistory[prevId] else {};
      if lockId in history {
        return NoCrash;
      }
      lockHistory := lockHistory[prevId := history + {lockId}];
      assert lockHistory == AddEdge(old(lockHistory), prevId, lockId);
      crash := CheckCycle();
    }

    method PopLock(t: Tid, name: Name) returns (crash: Crash)
      modifies this`nameToId, this`stacks
      ensures (View(), crash) == PopSpec(old(View()), t, name) && (old(Bounded(View())) ==> Bounded(View()))
    {
      if Bounded(View()) { PopBounded(View(), t, name); }
      var lockStack: seq<Id> := if t in stacks then stacks[t] else [];
      if lockStack == [] {
        return MultipleUnlock;
      }
      if name !in nameToId {
        nameToId := nameToId[name := 0];
      }
      var lockId := nameToId[name];
      if lockStack[|lockStack| - 1] != lockId {
        return InvalidUnlock;
      }
      stacks := stacks[t := lockStack[..|lockStack| - 1]];
      return NoCrash;
    }
  }

  lemma StackOkGrows(g: Graph, n: nat, g': Graph, n': nat, st: seq<Id>)
    requires StackOk(g, n, st) && n <= n' && forall u: Id, v: Id :: Edge(g, u, v) ==> Edge(g', u, v)
    ensures StackOk(g', n', st)
  {
  }

  lemma NewId(p: Prof, name: Name)
    requires DenseIds(p.ids)
    ensures var ids := p.ids[name := IdFor(p, name)];
            DenseIds(ids) && IdFor(p, name) < |ids| && |p.ids| <= |ids|
  {
    if name in p.ids {
      assert p.ids[name := IdFor(p, name)] == p.ids;
    }
  }

  lemma NewEdge(g: Graph, n: nat, n': nat, u: Id, v: Id)
    requires GraphOn(g, n) && n <= n' && u < n' && v < n' && u != v
    ensures forall a: Id, b: Id :: Edge(AddEdge(g, u, v), a, b) <==> Edge(g, a, b) || (a == u && b == v)
    ensures GraphOn(AddEdge(g, u, v), n')
  {
    forall a: Id, b: Id
      ensures Edge(AddEdge(g, u, v), a, b) <==> Edge(g, a, b) || (a == u && b == v)
    {
      assert b in (if u in g then g[u] else {}) + {v} <==> (u in g && b in g[u]) || b == v;
    }
  }

  lemma StackOkPush(g: Graph, n: nat, st: seq<Id>, id: Id)
    requires StackOk(g, n, st) && id < n
    requires st != [] ==> st[|st| - 1] == id || Edge(g, st[|st| - 1], id)
    ensures StackOk(g, n, st + [id])
  {
    var p := st + [id];
    forall i, j | 0 <= i && j == i + 1 && j < |p|
      ensures p[i] == p[j] || Edge(g, p[i], p[j])
    {
      if j < |st| {
        assert st[i] == st[j] || Edge(g, st[i], st[j]);
      }
    }
  }

  /** What PushLock remembers, told without its body: a new name gets the next number, the one new edge goes from the
      lock asked for last to this one, only this thread's stack grows, and it crashes exactly if that edge is new and
      lies on a cycle of the history. */
  lemma PushMeans(p: Prof, t: Tid, name: Name)
    requires Bounded(p)
    ensures var (p', crash) := PushSpec(p, t, name);
            var st := StackOf(p, t);
            && name in p'.ids && (forall x :: x in p'.ids <==> x in p.ids || x == name)
            && (forall x :: x in p.ids ==> p'.ids[x] == p.ids[x]) && (name !in p.ids ==> p'.ids[name] == |p.ids|)
            && (forall a, b :: Edge(p'.history, a, b)
                               <==> Edge(p.history, a, b)
                                    || (st != [] && a == st[|st| - 1] && b == p'.ids[name] && a != b))
            && (crash == NoCrash || crash == DeadlockDetected)
            && (crash != NoCrash <==> (exists a, b :: Edge(p'.history, a, b) && !Edge(p.history, a, b))
                                      && Cyclic(p'.history))
            && (forall u :: StackOf(p', u) == if u == t && crash == NoCrash then st + [p'.ids[name]] else StackOf(p, u))
  {
    var (p', crash) := PushSpec(p, t, name);
    var id, st := IdFor(p, name), StackOf(p, t);
    if name in p.ids {
      assert p.ids[name := id] == p.ids;
    }
    if p'.history != p.history {
      NewEdge(p.history, |p.ids|, |p'.ids|, st[|st| - 1], id);
      assert Edge(p'.history, st[|st| - 1], id) && !Edge(p.history, st[|st| - 1], id);
    }
  }

  lemma PushBounded(p: Prof, t: Tid, name: Name)
    requires Bounded(p)
    ensures Bounded(PushSpec(p, t, name).0)
  {
    var (p', crash) := PushSpec(p, t, name);
    var id, st := IdFor(p, name), StackOf(p, t);
    if name in p.ids {
      assert p.ids[name := id] == p.ids;
    }
    if p'.history != p.history {
      NewEdge(p.history, |p.ids|, |p'.ids|, st[|st| - 1], id);
    }
  }

  /** What PopLock changes: only the thread's own stack, by its top, when it does not crash; and a name never seen
      gets id 0. It crashes exactly on an empty stack and on a name whose id is not on top. */
  lemma PopMeans(p: Prof, t: Tid, name: Name)
    ensures var (p', crash) := PopSpec(p, t, name);
            var st := StackOf(p, t);
            && p'.history == p.history
            && (crash == MultipleUnlock <==> st == []) && (crash == MultipleUnlock ==> p' == p)
            && (st != [] ==>
                  && p'.ids == (if name in p.ids then p.ids else p.ids[name := 0])
                  && crash == (if st[|st| - 1] == p'.ids[name] then NoCrash else InvalidUnlock))
            && forall u :: StackOf(p', u) == if u == t && crash == NoCrash then st[..|st| - 1] else StackOf(p, u)
  {
  }

  lemma PopBounded(p: Prof, t: Tid, name: Name)
    requires Bounded(p)
    ensures Bounded(PopSpec(p, t, name).0)
  {
  }

  lemma PushValid(p: Prof, t: Tid, name: Name)
    requires Valid(p)
    ensures PushSpec(p, t, name).1 == NoCrash ==> Valid(PushSpec(p, t, name).0)
    ensures GraphOn(PushSpec(p, t, name).0.history, |PushSpec(p, t, name).0.ids|)
  {
    var (p', crash) := PushSpec(p, t, name);
    var id := IdFor(p, name);
    var st := StackOf(p, t);
    var n := |p'.ids|;
    NewId(p, name);
    assert StackOk(p.history, |p.ids|, st);
    if p'.history != p.history {
      NewEdge(p.history, |p.ids|, n, st[|st| - 1], id);
    }
    assert forall u: Id, v: Id :: Edge(p.history, u, v) ==> Edge(p'.history, u, v);
    if crash == NoCrash {
      StackOkGrows(p.history, |p.ids|, p'.history, n, st);
      StackOkPush(p'.history, n, st, id);
      forall u | u in p'.stacks
        ensures StackOk(p'.history, n, p'.stacks[u])
      {
        if u != t {
          StackOkGrows(p.history, |p.ids|, p'.history, n, p.stacks[u]);
        }
      }
    }
  }

  ghost function Below(n: nat): (s: set<Id>)
    ensures |s| == n && forall i: Id :: i in s <==> i < n
  {
    if n == 0 then {} else Below(n - 1) + {n - 1}
  }

  lemma {:induction false} CountIds(ids: map<Name, Id>)
    requires forall x, y :: x in ids && y in ids && ids[x] == ids[y] ==> x == y
    ensures |ids.Values| == |ids|
    decreases |ids|
  {
    if ids != map[] {
      var x :| x in ids;
      var rest := ids - {x};
      CountIds(rest);
      forall v ensures v in ids.Values <==> v in rest.Values || v == ids[x] {
        if v in ids.Values && v != ids[x] {
          var y :| y in ids && ids[y] == v;
          assert rest[y] == v;
        }
      }
      assert ids.Values == rest.Values + {ids[x]};
      assert ids.Keys == rest.Keys + {x};
    }
  }

  /** A dense numbering uses every number, 0 among them. */
  lemma IdZero(ids: map<Name, Id>) returns (x: Name)
    requires DenseIds(ids) && |ids| > 0
    ensures x in ids && ids[x] == 0
  {
    CountIds(ids);
    var unused := Below(|ids|) - ids.Values;
    assert Below(|ids|) == ids.Values + unused;
    assert 0 !in unused;
    x :| x in ids && ids[x] == 0;
  }

  /** PopLock keeps the profiler valid exactly when the stack is empty or the name is known: the id 0 that
      an unknown name is given is another name's. */
  lemma PopValid(p: Prof, t: Tid, name: Name)
    requires Valid(p)
    ensures Valid(PopSpec(p, t, name).0) <==> StackOf(p, t) == [] || name in p.ids
    ensures StackOf(p, t) != [] && name !in p.ids ==>
              exists x :: x in p.ids && x != name
                          && PopSpec(p, t, name).0.ids[x] == PopSpec(p, t, name).0.ids[name] == 0
  {
    if StackOf(p, t) != [] && name !in p.ids {
      assert p.stacks[t][0] < |p.ids|;
      var x := IdZero(p.ids);
      var p' := PopSpec(p, t, name).0;
      assert p'.ids[x] == p'.ids[name] == 0 && x != name;
    }
  }
}
