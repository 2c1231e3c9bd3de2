/** Directed graphs of lock ids: paths, cycles, and why a rank that falls along every edge
    rules cycles out. */
module LockOrder {
  type Id = nat
  type Graph = map<Id, set<Id>>  // _lockHistory

  predicate Edge(g: Graph, u: Id, v: Id) {
    u in g && v in g[u]
  }

  function AddEdge(g: Graph, u: Id, v: Id): Graph {
    g[u := (if u in g then g[u] else {}) + {v}]
  }

  /** The edges of g run between different ids below n. */
  ghost predicate GraphOn(g: Graph, n: nat) {
    forall u: Id, v: Id :: Edge(g, u, v) ==> u < n && v < n && u != v
  }

  /** A walk along edges; one node alone is a walk. */
  ghost predicate Walk(g: Graph, p: seq<Id>) {
    p != [] && forall i, j :: 0 <= i && j == i + 1 && j < |p| ==> Edge(g, p[i], p[j])
  }

  ghost predicate Cycle(g: Graph, c: seq<Id>) {
    Walk(g, c) && Edge(g, c[|c| - 1], c[0])
  }

  ghost predicate Cyclic(g: Graph) {
    exists c :: Cycle(g, c)
  }

  ghost predicate Reaches(g: Graph, u: Id, v: Id) {
    exists p :: Walk(g, p) && p[0] == u && p[|p| - 1] == v
  }

  lemma {:induction false} RankFalls(g: Graph, rank: Id -> nat, p: seq<Id>)
    requires Walk(g, p) && forall u: Id, v: Id :: Edge(g, u, v) ==> rank(v) < rank(u)
    ensures rank(p[|p| - 1]) <= rank(p[0])
    decreases |p|
  {
    if |p| > 1 {
      var q := p[..|p| - 1];
      RankFalls(g, rank, q);
      assert Edge(g, p[|p| - 2], p[|p| - 1]);
    }
  }

  lemma RankedAcyclic(g: Graph, rank: Id -> nat)
    requires forall u: Id, v: Id :: Edge(g, u, v) ==> rank(v) < rank(u)
    ensures !Cyclic(g)
  {
    forall c | Cycle(g, c)
      ensures false
    {
      RankFalls(g, rank, c);
    }
  }

  lemma ReachesTrans(g: Graph, u: Id, v: Id, w: Id)
    requires Reaches(g, u, v) && Reaches(g, v, w)
    ensures Reaches(g, u, w)
  {
    var p :| Walk(g, p) && p[0] == u && p[|p| - 1] == v;
    var q :| Walk(g, q) && q[0] == v && q[|q| - 1] == w;
    var r := p + q[1..];
    forall i, j | 0 <= i && j == i + 1 && j < |r|
      ensures Edge(g, r[i], r[j])
    {
      if j < |p| {
        assert Edge(g, p[i], p[j]);
      } else {
        assert r[j] == q[j - |p| + 1] && r[i] == q[i - |p| + 1];
        assert Edge(g, q[i - |p| + 1], q[j - |p| + 1]);
      }
    }
    assert Walk(g, r) && r[0] == u && r[|r| - 1] == w;
  }

  /** Two different nodes that reach each other lie on a cycle. */
  lemma ReachesBack(g: Graph, u: Id, v: Id)
    requires Reaches(g, u, v) && Reaches(g, v, u) && u != v
    ensures Cyclic(g)
  {
    var p :| Walk(g, p) && p[0] == u && p[|p| - 1] == v;
    var q :| Walk(g, q) && q[0] == v && q[|q| - 1] == u;
    var c := p + q[1..|q| - 1];
    forall i, j | 0 <= i && j == i + 1 && j < |c|
      ensures Edge(g, c[i], c[j])
    {
      if j < |p| {
        assert Edge(g, p[i], p[j]);
      } else {
        assert c[j] == q[j - |p| + 1] && c[i] == q[i - |p| + 1];
        assert Edge(g, q[i - |p| + 1], q[j - |p| + 1]);
      }
    }
    assert c[|c| - 1] == q[|q| - 2] && Edge(g, q[|q| - 2], q[|q| - 1]);
    assert Cycle(g, c);
  }
}
