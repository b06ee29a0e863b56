/** Paths, cycles and topological orders in a graph of symbols. */
module Graphs {
  import opened Expr

  type Graph = Symbol -> seq<Symbol>

  function Last(p: seq<Symbol>): Symbol
    requires p != []
  {
    p[|p| - 1]
  }

  /** Each symbol after the first is a dependency of the one before. */
  ghost predicate IsPath(g: Graph, p: seq<Symbol>)
  {
    p != [] && (|p| > 1 ==> IsPath(g, p[..|p| - 1]) && p[|p| - 1] in g(p[|p| - 2]))
  }

  ghost predicate Reaches(g: Graph, s: Symbol, t: Symbol)
  {
    exists p :: IsPath(g, p) && p[0] == s && Last(p) == t
  }

  /** `s` depends on itself, in one or more steps. */
  ghost predicate OnCycle(g: Graph, s: Symbol)
  {
    exists p :: IsPath(g, p) && |p| >= 2 && p[0] == s && Last(p) == s
  }

  ghost predicate Acyclic(g: Graph)
  {
    forall s :: !OnCycle(g, s)
  }

  /** Every symbol of `order` comes after all it depends on. */
  ghost predicate Topological(g: Graph, order: seq<Symbol>)
  {
    order == [] ||
    (Topological(g, order[..|order| - 1]) && forall t :: t in g(Last(order)) ==> t in order[..|order| - 1])
  }

  lemma {:induction false} TopologicalPrefix(g: Graph, order: seq<Symbol>, i: nat)
    requires Topological(g, order) && i <= |order|
    ensures Topological(g, order[..i])
  {
    if i < |order| {
      TopologicalPrefix(g, order[..|order| - 1], i);
      assert order[..|order| - 1][..i] == order[..i];
    } else {
      assert order[..i] == order;
    }
  }

  lemma TopologicalExtend(g: Graph, order: seq<Symbol>, s: Symbol)
    requires Topological(g, order) && forall t :: t in g(s) ==> t in order
    ensures Topological(g, order + [s])
  {
    assert (order + [s])[..|order|] == order;
  }

  lemma PathExtend(g: Graph, p: seq<Symbol>, s: Symbol)
    requires IsPath(g, p) && s in g(Last(p))
    ensures IsPath(g, p + [s])
  {
    assert (p + [s])[..|p|] == p;
  }

  lemma {:induction false} PathSuffix(g: Graph, p: seq<Symbol>, i: nat)
    requires IsPath(g, p) && i < |p|
    ensures IsPath(g, p[i..])
    decreases |p|
  {
    if i < |p| - 1 {
      PathSuffix(g, p[..|p| - 1], i);
      assert p[i..][..|p| - i - 1] == p[..|p| - 1][i..];
    }
  }

  lemma {:induction false} ReachesStep(g: Graph, s: Symbol, t: Symbol, p: seq<Symbol>)
    requires t in g(s) && IsPath(g, p) && p[0] == t
    ensures IsPath(g, [s] + p)
    decreases |p|
  {
    if |p| > 1 {
      ReachesStep(g, s, t, p[..|p| - 1]);
      assert ([s] + p)[..|p|] == [s] + p[..|p| - 1];
    } else {
      assert ([s] + p)[..1] == [s];
    }
  }

  lemma DependsReaches(g: Graph, s: Symbol, t: Symbol, x: Symbol)
    requires t in g(s) && Reaches(g, t, x)
    ensures Reaches(g, s, x)
  {
    var p :| IsPath(g, p) && p[0] == t && Last(p) == x;
    ReachesStep(g, s, t, p);
    assert ([s] + p)[0] == s && Last([s] + p) == x;
  }

  lemma ReachesSelf(g: Graph, s: Symbol)
    ensures Reaches(g, s, s)
  {
    assert IsPath(g, [s]) && Last([s]) == s;
  }

  /** A dependency from the end of a path back into it closes a cycle. */
  lemma BackEdgeCycle(g: Graph, p: seq<Symbol>, s: Symbol)
    requires IsPath(g, p) && s in p && s in g(Last(p))
    ensures OnCycle(g, s)
  {
    var i :| 0 <= i < |p| && p[i] == s;
    var q := p[i..];
    PathSuffix(g, p, i);
    assert q[0] == s && Last(q) == Last(p);
    PathExtend(g, q, s);
    CycleWitness(g, q + [s], s);
  }

  lemma CycleWitness(g: Graph, c: seq<Symbol>, s: Symbol)
    requires IsPath(g, c) && |c| >= 2 && c[0] == s && Last(c) == s
    ensures OnCycle(g, s)
  {
  }

  /** A topological order is closed under paths, and paths go down in it. */
  lemma {:induction false} PathGoesDown(g: Graph, order: seq<Symbol>, p: seq<Symbol>)
    requires Topological(g, order) && IsPath(g, p) && order != [] && Last(order) == p[0]
    ensures Last(p) in order && (|p| >= 2 ==> Last(p) in order[..|order| - 1])
    decreases |p|
  {
    if |p| >= 2 {
      var q := p[..|p| - 1];
      PathGoesDown(g, order, q);
      var i :| 0 <= i < |order| && order[i] == Last(q) && (|q| >= 2 ==> i < |order| - 1);
      TopologicalPrefix(g, order, i + 1);
      assert Last(order[..i + 1]) == Last(q) && order[..i + 1][..i] == order[..i];
      var j :| 0 <= j < i && order[j] == Last(p);
    }
  }

  lemma {:induction false} TopologicalNoCycle(g: Graph, order: seq<Symbol>, s: Symbol)
    requires Topological(g, order) && s in order
    ensures !OnCycle(g, s)
    decreases |order|
  {
    if s in order[..|order| - 1] {
      TopologicalNoCycle(g, order[..|order| - 1], s);
    } else if c :| IsPath(g, c) && |c| >= 2 && c[0] == s && Last(c) == s {
      PathGoesDown(g, order, c);
      assert false;
    }
  }

  lemma TopologicalReach(g: Graph, order: seq<Symbol>, s: Symbol, t: Symbol)
    requires Topological(g, order) && s in order && Reaches(g, s, t)
    ensures t in order
  {
    var i :| 0 <= i < |order| && order[i] == s;
    var p :| IsPath(g, p) && p[0] == s && Last(p) == t;
    TopologicalPrefix(g, order, i + 1);
    PathGoesDown(g, order[..i + 1], p);
  }
}
