/** The bookkeeping of DeadLockProfiler's depth-first search as a value, with the invariant of the
    search and one lemma for each way the search changes it. */
module CycleSearch {
  import opened LockOrder

  /** The four vectors and counters of the search; rank and rankCount number the nodes in the order
      in which they finish and exist for the proof only. */
  datatype Search = Search(order: seq<int>, count: int, finished: seq<bool>, parent: seq<int>, rank: seq<nat>,
                           rankCount: nat)

  function Start(n: nat): Search {
    Search(seq(n, _ => -1), 0, seq(n, _ => false), seq(n, _ => -1), seq(n, _ => 0), 0)
  }

  predicate Sized(s: Search) {
    |s.finished| == |s.order| && |s.parent| == |s.order| && |s.rank| == |s.order|
  }

  predicate Discovered(s: Search, v: Id) {
    v < |s.order| && s.order[v] >= 0
  }

  predicate Finished(s: Search, v: Id) {
    v < |s.finished| && s.finished[v]
  }

  /** Nodes the search has not met yet: it recurses on fewer and fewer of them. */
  ghost function Undiscovered(s: Search): set<Id> {
    set v: Id | v < |s.order| && !Discovered(s, v)
  }

  /** path is the chain of calls of Dfs in progress, outermost first: the discovered, unfinished nodes,
      in the order of their discovery, each the parent of the next. */
  ghost predicate OnPath(g: Graph, s: Search, path: seq<Id>)
    requires Sized(s)
  {
    && (forall v: Id :: v in path <==> Discovered(s, v) && !Finished(s, v))
    && (forall i, j :: 0 <= i < j < |path| && path[i] < |s.order| && path[j] < |s.order| ==>
          s.order[path[i]] < s.order[path[j]])
    && (forall i, j :: 0 <= i && j == i + 1 && j < |path| && path[j] < |s.order| ==>
          s.parent[path[j]] == path[i] && Edge(g, path[i], path[j]))
  }

  /** Successors of finished nodes were finished before them. */
  ghost predicate Ranked(g: Graph, s: Search)
    requires Sized(s)
  {
    && (forall u: Id, v: Id :: Finished(s, u) && Edge(g, u, v) ==> Finished(s, v) && s.rank[v] < s.rank[u])
    && (forall u: Id :: Finished(s, u) ==> s.rank[u] < s.rankCount)
  }

  ghost predicate Searching(g: Graph, s: Search, path: seq<Id>) {
    && Sized(s) && OnPath(g, s, path) && Ranked(g, s) && GraphOn(g, |s.order|) && 0 <= s.count
    && (forall v: Id :: v < |s.order| ==> -1 <= s.order[v] < s.count)
    && (forall v: Id :: Finished(s, v) ==> Discovered(s, v))
  }

  /** What a call of Dfs leaves alone. */
  ghost predicate Later(s: Search, s': Search) {
    && Sized(s) && Sized(s') && |s'.order| == |s.order|
    && (forall v: Id :: Discovered(s, v) ==> s'.order[v] == s.order[v] && s'.parent[v] == s.parent[v])
    && (forall v: Id :: Finished(s, v) ==> Finished(s', v))
  }

  lemma StartSearch(g: Graph, n: nat)
    requires GraphOn(g, n)
    ensures Searching(g, Start(n), [])
  {
  }

  lemma Discover(g: Graph, s: Search, path: seq<Id>, here: Id)
    requires Searching(g, s, path) && here < |s.order| && !Discovered(s, here)
    requires path != [] ==> Edge(g, path[|path| - 1], here) && s.parent[here] == path[|path| - 1]
    ensures var s' := s.(order := s.order[here := s.count], count := s.count + 1);
            Searching(g, s', path + [here]) && Later(s, s') && Undiscovered(s') < Undiscovered(s)
  {
    var s' := s.(order := s.order[here := s.count], count := s.count + 1);
    assert here in Undiscovered(s) && here !in Undiscovered(s');
    assert forall v: Id :: Finished(s', v) <==> Finished(s, v);
    assert forall v: Id :: Discovered(s', v) <==> Discovered(s, v) || v == here;
  }

  lemma SetParent(g: Graph, s: Search, path: seq<Id>, here: Id, there: Id)
    requires Searching(g, s, path) && there < |s.order| && !Discovered(s, there)
    ensures var s' := s.(parent := s.parent[there := here]);
            Searching(g, s', path) && Later(s, s') && Undiscovered(s') == Undiscovered(s)
  {
    assert there !in path;
  }

  lemma Finish(g: Graph, s: Search, path: seq<Id>, here: Id)
    requires Searching(g, s, path + [here]) && here < |s.order|
    requires forall v: Id :: Edge(g, here, v) ==> Finished(s, v)
    ensures var s' := s.(finished := s.finished[here := true],
                         rank := s.rank[here := s.rankCount], rankCount := s.rankCount + 1);
            Searching(g, s', path) && Later(s, s') && Finished(s', here)
  {
    var s' := s.(finished := s.finished[here := true],
                 rank := s.rank[here := s.rankCount], rankCount := s.rankCount + 1);
    var p := path + [here];
    assert here in p;
    assert forall v: Id :: Finished(s', v) <==> Finished(s, v) || v == here;
    PathInit(g, s, path, here);
    assert OnPath(g, s', path);
    assert Ranked(g, s');
  }

  /** The innermost node is not elsewhere on the path, and without it the path is still in order. */
  lemma PathInit(g: Graph, s: Search, path: seq<Id>, here: Id)
    requires Searching(g, s, path + [here])
    ensures here !in path && forall v: Id :: v in path <==> v in path + [here] && v != here
    ensures forall i, j :: 0 <= i < j < |path| && path[i] < |s.order| && path[j] < |s.order| ==>
              s.order[path[i]] < s.order[path[j]]
    ensures forall i, j :: 0 <= i && j == i + 1 && j < |path| && path[j] < |s.order| ==>
              s.parent[path[j]] == path[i] && Edge(g, path[i], path[j])
  {
    var p := path + [here];
    assert forall i :: 0 <= i < |path| ==> p[i] == path[i];
    assert p[|path|] == here;
    forall i | 0 <= i < |path|
      ensures path[i] != here
    {
      assert p[i] in p && here in p;
    }
  }

  lemma LaterTrans(a: Search, b: Search, c: Search)
    requires Later(a, b) && Later(b, c)
    ensures Later(a, c)
  {
  }

  lemma LaterShrinks(s: Search, s': Search)
    requires Later(s, s')
    ensures Undiscovered(s') <= Undiscovered(s)
  {
    forall v | v in Undiscovered(s')
      ensures v in Undiscovered(s)
    {
      assert Discovered(s, v) ==> Discovered(s', v);
    }
  }

  /** A node met after the innermost call began is finished. */
  lemma MetLater(g: Graph, s: Search, path: seq<Id>, there: Id)
    requires Searching(g, s, path) && path != [] && path[|path| - 1] < |s.order|
    requires there < |s.order| && s.order[path[|path| - 1]] < s.order[there]
    ensures Finished(s, there)
  {
    var last := path[|path| - 1];
    assert last in path;
    forall i | 0 <= i < |path| && path[i] < |s.order| ensures s.order[path[i]] <= s.order[last] {
      assert i < |path| - 1 ==> s.order[path[i]] < s.order[last];
    }
  }

  /** The part of the path from any node to the innermost one closes to a cycle over a back edge. */
  lemma BackEdge(g: Graph, s: Search, path: seq<Id>, k: nat)
    requires Searching(g, s, path) && k < |path| && Edge(g, path[|path| - 1], path[k])
    ensures Cycle(g, path[k..])
  {
    var c := path[k..];
    forall a, b | 0 <= a && b == a + 1 && b < |c|
      ensures Edge(g, c[a], c[b])
    {
      assert path[k + b] in path && c[a] == path[k + a];
    }
  }

  /** Walking along the parents from the innermost node leads back over the path. */
  lemma ParentsOnPath(g: Graph, s: Search, path: seq<Id>, k: nat)
    requires Searching(g, s, path) && k < |path|
    ensures var c := path[k..];
            forall i :: 0 < i < |c| ==> c[i] < |s.order| && s.parent[c[i]] == c[i - 1] && c[i] != c[0]
  {
    var c := path[k..];
    forall i | 0 < i < |c| ensures c[i] < |s.order| && s.parent[c[i]] == c[i - 1] && c[i] != c[0] {
      assert c[i] == path[k + i] && c[i - 1] == path[k + i - 1] && c[0] == path[k];
      assert path[k + i] in path && path[k] in path;
    }
  }

  /** An unfinished successor of the innermost node closes a cycle of parents. */
  lemma BackTo(g: Graph, s: Search, path: seq<Id>, there: Id) returns (c: seq<Id>)
    requires Searching(g, s, path) && path != [] && Edge(g, path[|path| - 1], there) && path[|path| - 1] != there
    requires Discovered(s, there) && !Finished(s, there)
    ensures Cycle(g, c) && |c| > 1 && c[0] == there && c[|c| - 1] == path[|path| - 1]
    ensures forall i :: 0 < i < |c| ==> c[i] < |s.order| && s.parent[c[i]] == c[i - 1] && c[i] != there
  {
    var k :| 0 <= k < |path| && path[k] == there;
    c := path[k..];
    BackEdge(g, s, path, k);
    ParentsOnPath(g, s, path, k);
  }

  lemma AllFinished(g: Graph, s: Search)
    requires Searching(g, s, []) && forall v: Id :: v < |s.order| ==> Discovered(s, v)
    ensures !Cyclic(g)
  {
    var rank := (v: Id) => if v < |s.rank| then s.rank[v] else 0;
    forall u: Id, v: Id | Edge(g, u, v)
      ensures rank(v) < rank(u)
    {
      assert Discovered(s, u) && u !in [];
    }
    RankedAcyclic(g, rank);
  }
}
