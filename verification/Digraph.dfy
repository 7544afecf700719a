/** Reachability in a finite directed graph, given by its set of edges. */
module Digraph {
  import opened FiniteSets

  type Node = string
  type Graph = set<(Node, Node)>

  /** `a` reaches `b` along exactly `n` edges. */
  ghost predicate Walk(g: Graph, a: Node, b: Node, n: nat)
    decreases n
  {
    if n == 0 then a == b
    else exists c :: (a, c) in g && Walk(g, c, b, n - 1)
  }

  /** `a` reaches `b` along at least one edge. */
  ghost predicate Reaches(g: Graph, a: Node, b: Node) {
    exists n: nat :: n > 0 && Walk(g, a, b, n)
  }

  function Sources(g: Graph): set<Node> {
    set e | e in g :: e.0
  }

  lemma EdgeReaches(g: Graph, a: Node, b: Node)
    requires (a, b) in g
    ensures Reaches(g, a, b)
  {
    assert Walk(g, b, b, 0);
    assert Walk(g, a, b, 1);
  }

  lemma {:induction false} WalksCompose(g: Graph, a: Node, b: Node, c: Node, m: nat, n: nat)
    requires Walk(g, a, b, m) && Walk(g, b, c, n)
    ensures Walk(g, a, c, m + n)
    decreases m
  {
    if m > 0 {
      var d :| (a, d) in g && Walk(g, d, b, m - 1);
      WalksCompose(g, d, b, c, m - 1, n);
      assert Walk(g, d, c, m + n - 1);
    }
  }

  lemma ReachesIsTransitive(g: Graph, a: Node, b: Node, c: Node)
    requires Reaches(g, a, b) && Reaches(g, b, c)
    ensures Reaches(g, a, c)
  {
    var m: nat :| m > 0 && Walk(g, a, b, m);
    var n: nat :| n > 0 && Walk(g, b, c, n);
    WalksCompose(g, a, b, c, m, n);
  }

  /** A walk into a set closed under predecessors starts in it. */
  lemma {:induction false} WalkIntoClosedSet(g: Graph, s: set<Node>, a: Node, b: Node, n: nat)
    requires forall e :: e in g && e.1 in s ==> e.0 in s
    requires b in s && Walk(g, a, b, n)
    ensures a in s
    decreases n
  {
    if n > 0 {
      var c :| (a, c) in g && Walk(g, c, b, n - 1);
      WalkIntoClosedSet(g, s, c, b, n - 1);
      assert (a, c) in g && (a, c).1 in s;
    }
  }

  /** A walk out of a set closed under successors stays in it. */
  lemma {:induction false} WalkInClosedSet(g: Graph, s: set<Node>, a: Node, b: Node, n: nat)
    requires forall e :: e in g && e.0 in s ==> e.1 in s
    requires a in s && Walk(g, a, b, n)
    ensures b in s
    decreases n
  {
    if n > 0 {
      var c :| (a, c) in g && Walk(g, c, b, n - 1);
      assert (a, c) in g && (a, c).0 in s;
      WalkInClosedSet(g, s, c, b, n - 1);
    }
  }

  /** `a` lies on a cycle or reaches one. */
  ghost predicate LeadsToCycle(g: Graph, a: Node) {
    exists c :: Reaches(g, c, c) && (a == c || Reaches(g, a, c))
  }

  ghost predicate Acyclic(g: Graph) {
    forall a :: !Reaches(g, a, a)
  }

  ghost function ReachedSources(g: Graph, a: Node): set<Node> {
    set b | b in Sources(g) && Reaches(g, a, b)
  }

  /** If every edge target has an edge of its own, then every source leads into a cycle. */
  lemma {:induction false} EndlessLeadsToCycle(g: Graph, a: Node)
    requires forall e :: e in g ==> e.1 in Sources(g)
    requires a in Sources(g)
    ensures LeadsToCycle(g, a)
    decreases |ReachedSources(g, a)|
  {
    var e :| e in g && e.0 == a;
    var d := e.1;
    assert (a, d) in g;
    EdgeReaches(g, a, d);
    if !Reaches(g, d, d) {
      forall b | b in ReachedSources(g, d)
        ensures b in ReachedSources(g, a)
      {
        ReachesIsTransitive(g, a, d, b);
      }
      assert d in ReachedSources(g, a);
      SubsetIsSmaller(ReachedSources(g, d), ReachedSources(g, a), d);
      EndlessLeadsToCycle(g, d);
      var c :| Reaches(g, c, c) && (d == c || Reaches(g, d, c));
      if d != c {
        ReachesIsTransitive(g, a, d, c);
      }
    }
  }

  /** A node without outgoing edges leads nowhere. */
  lemma SinkIsFree(g: Graph, a: Node)
    requires a !in Sources(g)
    ensures !LeadsToCycle(g, a) && forall b :: !Reaches(g, a, b)
  {
    assert forall c :: (a, c) in g ==> (a, c).0 in Sources(g);
  }
}
