/** Directed graphs of names: paths, and when an edge closes a cycle. */
module Graphs {

  /** Each node's successors; a successor need not be a node itself. */
  type Graph = map<string, set<string>>

  predicate Edge(g: Graph, a: string, b: string) {
    a in g && b in g[a]
  }

  /** `p` follows edges of `g` from its first name to its last. */
  ghost predicate Path(g: Graph, p: seq<string>) {
    p != [] && forall i :: 0 <= i < |p| - 1 ==> Edge(g, p[i], p[i + 1])
  }

  ghost predicate PathFrom(g: Graph, p: seq<string>, a: string, b: string) {
    Path(g, p) && p[0] == a && p[|p| - 1] == b
  }

  /** A path of any length, none included, leads from `a` to `b`. */
  ghost predicate Reaches(g: Graph, a: string, b: string) {
    exists p :: PathFrom(g, p, a, b)
  }

  /** No path of at least one edge returns to where it starts. */
  ghost predicate Acyclic(g: Graph) {
    forall a, b :: Edge(g, a, b) ==> !Reaches(g, b, a)
  }

  lemma ReachesSelf(g: Graph, a: string)
    ensures Reaches(g, a, a)
  {
    assert PathFrom(g, [a], a, a);
  }

  lemma EdgeReaches(g: Graph, a: string, b: string)
    requires Edge(g, a, b)
    ensures Reaches(g, a, b)
  {
    assert PathFrom(g, [a, b], a, b);
  }

  lemma ReachesTransitive(g: Graph, a: string, b: string, c: string)
    requires Reaches(g, a, b) && Reaches(g, b, c)
    ensures Reaches(g, a, c)
  {
    var p :| PathFrom(g, p, a, b);
    var q :| PathFrom(g, q, b, c);
    var r := p + q[1..];
    forall i | 0 <= i < |r| - 1
      ensures Edge(g, r[i], r[i + 1])
    {
      if i >= |p| - 1 {
        assert Edge(g, q[i - |p| + 1], q[i - |p| + 2]);
      }
    }
    assert PathFrom(g, r, a, c);
  }

  /** A path from inside a set closed under edges never leaves it. */
  lemma {:induction false} PathStaysInside(g: Graph, closed: set<string>, p: seq<string>)
    requires Path(g, p) && p[0] in closed
    requires forall a, b :: a in closed && Edge(g, a, b) ==> b in closed
    ensures p[|p| - 1] in closed
  {
    if |p| > 1 {
      assert Edge(g, p[0], p[1]);
      assert Path(g, p[1..]) by {
        forall i | 0 <= i < |p[1..]| - 1 ensures Edge(g, p[1..][i], p[1..][i + 1]) {
          assert Edge(g, p[i + 1], p[i + 2]);
        }
      }
      PathStaysInside(g, closed, p[1..]);
    }
  }

  /** `g` with the edge from `a` to `b`. */
  function WithEdge(g: Graph, a: string, b: string): Graph {
    g[a := (if a in g then g[a] else {}) + {b}]
  }

  /** A path over a new edge, if it uses it, reaches its tail and leaves from its head. */
  lemma {:induction false} PathOverEdge(g: Graph, a: string, b: string, p: seq<string>)
    requires Path(WithEdge(g, a, b), p)
    ensures Reaches(g, p[0], p[|p| - 1]) || (Reaches(g, p[0], a) && Reaches(g, b, p[|p| - 1]))
  {
    var g' := WithEdge(g, a, b);
    if |p| == 1 {
      ReachesSelf(g, p[0]);
    } else {
      var rest := p[1..];
      assert Path(g', rest) by {
        forall i | 0 <= i < |rest| - 1 ensures Edge(g', rest[i], rest[i + 1]) {
          assert Edge(g', p[i + 1], p[i + 2]);
        }
      }
      PathOverEdge(g, a, b, rest);
      assert Edge(g', p[0], p[1]);
      if Edge(g, p[0], p[1]) {
        EdgeReaches(g, p[0], p[1]);
        if Reaches(g, p[1], p[|p| - 1]) {
          ReachesTransitive(g, p[0], p[1], p[|p| - 1]);
        } else {
          ReachesTransitive(g, p[0], p[1], a);
        }
      } else {
        ReachesSelf(g, a);
      }
    }
  }

  /** A new edge keeps a graph acyclic exactly when its head does not already reach its tail. */
  lemma AcyclicWithEdge(g: Graph, a: string, b: string)
    requires Acyclic(g)
    ensures Acyclic(WithEdge(g, a, b)) <==> !Reaches(g, b, a)
  {
    var g' := WithEdge(g, a, b);
    if Reaches(g, b, a) {
      var p :| PathFrom(g, p, b, a);
      SubgraphReaches(g, g', b, a);
      assert Edge(g', a, b);
    } else {
      forall x, y | Edge(g', x, y)
        ensures !Reaches(g', y, x)
      {
        if Reaches(g', y, x) {
          var p :| PathFrom(g', p, y, x);
          PathOverEdge(g, a, b, p);
          if Edge(g, x, y) {
            EdgeReaches(g, x, y);
            ReachesTransitive(g, b, x, y);
            ReachesTransitive(g, b, y, a);
          }
          assert false;
        }
      }
    }
  }

  lemma SubgraphReaches(g: Graph, g': Graph, a: string, b: string)
    requires forall x, y :: Edge(g, x, y) ==> Edge(g', x, y)
    requires Reaches(g, a, b)
    ensures Reaches(g', a, b)
  {
    var p :| PathFrom(g, p, a, b);
    assert PathFrom(g', p, a, b);
  }

  /** Fewer edges close no cycle. */
  lemma SubgraphAcyclic(g: Graph, g': Graph)
    requires Acyclic(g)
    requires forall x, y :: Edge(g', x, y) ==> Edge(g, x, y)
    ensures Acyclic(g')
  {
    forall a, b | Edge(g', a, b)
      ensures !Reaches(g', b, a)
    {
      if Reaches(g', b, a) {
        SubgraphReaches(g', g, b, a);
      }
    }
  }
}
