/**
 Existence and uniqueness of the symbol values when the dependency graph has a
 topological order, and what setting a user value does to them.
 */
module SymbolSolve {
  import opened Expr
  import opened Graphs
  import opened Symbols
  import opened SymbolSpec

  type Values = map<Symbol, SymbolValue>

  function EnvOf(m: Values): Env
  {
    (s: Symbol) => if !s.Named? then ConstValue(s) else if s in m then m[s] else SymbolValue(NO, s.Name())
  }

  /** One pass over a topological order. */
  function Solve(c: Config, order: seq<Symbol>): (m: Values)
    ensures forall s :: s in m <==> s in order
  {
    if order == [] then map[]
    else
      var s := order[|order| - 1];
      var m := Solve(c, order[..|order| - 1]);
      if s in m then m else m[s := Computed(c, s, EnvOf(m)).value]
  }

  lemma {:induction false} SolveSolves(c: Config, order: seq<Symbol>, s: Symbol)
    requires Topological(DepGraph(c.decls), order) && WellFormed(c.decls)
    requires s in order && s.Named?
    ensures EnvOf(Solve(c, order))(s) == Computed(c, s, EnvOf(Solve(c, order))).value
    ensures forall t :: t in Deps(c.decls, s) ==> t in order
    decreases |order|
  {
    var before := order[..|order| - 1];
    var last := Last(order);
    var m := Solve(c, before);
    var m' := Solve(c, order);
    assert DepGraph(c.decls)(last) == Deps(c.decls, last);
    if s in before {
      SolveSolves(c, before, s);
      ComputedLocal(c, s, EnvOf(m), EnvOf(m'));
    } else {
      assert s == last && m' == m[s := Computed(c, s, EnvOf(m)).value];
      ComputedLocal(c, s, EnvOf(m), EnvOf(m'));
    }
  }

  /** There is a solution. */
  lemma SolutionExists(c: Config, order: seq<Symbol>)
    requires Topological(DepGraph(c.decls), order) && WellFormed(c.decls)
    requires forall s :: s in order <==> s in c.decls
    ensures IsSolution(c, EnvOf(Solve(c, order)))
  {
    var env := EnvOf(Solve(c, order));
    forall s ensures SolvesAt(c, env, s) {
      if s.Named? && s in c.decls {
        SolveSolves(c, order, s);
      }
    }
  }

  /** There is only one. */
  lemma {:induction false} SolutionUnique(c: Config, order: seq<Symbol>, env1: Env, env2: Env)
    requires Topological(DepGraph(c.decls), order) && WellFormed(c.decls)
    requires IsSolution(c, env1) && IsSolution(c, env2)
    ensures Agree(env1, env2, order)
    decreases |order|
  {
    if order != [] {
      var s := Last(order);
      SolutionUnique(c, order[..|order| - 1], env1, env2);
      assert DepGraph(c.decls)(s) == Deps(c.decls, s);
      ComputedLocal(c, s, env1, env2);
      assert SolvesAt(c, env1, s) && SolvesAt(c, env2, s);
    }
  }

  // ----- setting a user value -----

  /** sym_tristate_within_range, on the computed state of the symbol. */
  predicate WithinRange(c: Config, s: Symbol, st: State, v: Tri)
  {
    && st.visible != NO
    && IsLogical(s)
    && !(EffectiveType(c, s) == Boolean && v == MOD)
    && st.visible > st.revDep
    && st.revDep <= v <= st.visible
  }

  function WithUser(c: Config, s: Symbol, v: Tri): Config
  {
    c.(user := c.user[s := SymbolValue(v, if s in c.user then c.user[s].val else "")])
  }

  lemma ComputedOther(c: Config, s: Symbol, v: Tri, t: Symbol, env: Env)
    requires t != s
    ensures Computed(WithUser(c, s, v), t, env) == Computed(c, t, env)
  {
    var c' := WithUser(c, s, v);
    var st := Visibility(c, t, env);
    var p := FirstDefault(DeclOf(c.decls, t).props, env);
    VisibilityIgnoresUser(c, s, v, t, env);
    if IsLogical(t) {
      assert LogicalState(c', t, st, DefaultTri(p, env)) == LogicalState(c, t, st, DefaultTri(p, env));
    } else {
      assert TextState(c', t, st, p, env) == TextState(c, t, st, p, env);
    }
  }

  lemma VisibilityIgnoresUser(c: Config, s: Symbol, v: Tri, t: Symbol, env: Env)
    ensures Visibility(WithUser(c, s, v), t, env) == Visibility(c, t, env)
  {
  }

  /** What changes at `s` itself: it takes the value that was set. */
  lemma ComputedSelf(c: Config, s: Symbol, v: Tri, env: Env)
    requires WithinRange(c, s, Visibility(c, s, env), v)
    ensures Computed(WithUser(c, s, v), s, env) == Visibility(c, s, env).(value := SymbolValue(v, "n"))
  {
    VisibilityIgnoresUser(c, s, v, s, env);
  }

  /** Symbols before `s` in the order do not notice the change. */
  lemma {:induction false} SetLeavesEarlier(c: Config, s: Symbol, v: Tri, order: seq<Symbol>, env: Env, env': Env)
    requires Topological(DepGraph(c.decls), order) && WellFormed(c.decls)
    requires IsSolution(c, env) && IsSolution(WithUser(c, s, v), env')
    requires s !in order
    ensures Agree(env, env', order)
    decreases |order|
  {
    if order != [] {
      var t := Last(order);
      SetLeavesEarlier(c, s, v, order[..|order| - 1], env, env');
      assert DepGraph(c.decls)(t) == Deps(c.decls, t);
      ComputedLocal(c, t, env, env');
      ComputedOther(c, s, v, t, env');
      assert SolvesAt(c, env, t) && SolvesAt(WithUser(c, s, v), env', t);
    }
  }

  /** A user value that sym_set_tristate_value accepts is the value the symbol gets. */
  lemma {:induction false} SetThenGet(c: Config, s: Symbol, v: Tri, order: seq<Symbol>, env: Env, env': Env)
    requires Topological(DepGraph(c.decls), order) && WellFormed(c.decls)
    requires IsSolution(c, env) && IsSolution(WithUser(c, s, v), env')
    requires s in order && s in c.decls && s.Named? && WithinRange(c, s, Computed(c, s, env), v)
    ensures env'(s) == SymbolValue(v, "n")
    ensures Agree(env, env', Deps(c.decls, s))
    decreases |order|
  {
    var before := order[..|order| - 1];
    if s in before {
      SetThenGet(c, s, v, before, env, env');
    } else {
      SetLeavesEarlier(c, s, v, before, env, env');
      assert DepGraph(c.decls)(s) == Deps(c.decls, s);
      VisibilityLocal(c, s, env, env');
      ComputedSelf(c, s, v, env');
      assert SolvesAt(WithUser(c, s, v), env', s);
    }
  }

  /**
   sym_set_tristate_value does not recompute anything when the symbol already had
   the value; rightly so, since then no symbol changes.
   */
  lemma {:induction false} SetSameValue(c: Config, s: Symbol, v: Tri, order: seq<Symbol>, whole: seq<Symbol>, env: Env, env': Env)
    requires Topological(DepGraph(c.decls), order) && Topological(DepGraph(c.decls), whole) && WellFormed(c.decls)
    requires IsSolution(c, env) && IsSolution(WithUser(c, s, v), env')
    requires s in whole && s in c.decls && s.Named? && WithinRange(c, s, Computed(c, s, env), v)
    requires env(s).tri == v
    ensures Agree(env, env', order)
    decreases |order|
  {
    if order != [] {
      var t := Last(order);
      SetSameValue(c, s, v, order[..|order| - 1], whole, env, env');
      assert SolvesAt(c, env, t) && SolvesAt(WithUser(c, s, v), env', t);
      if t == s {
        SetThenGet(c, s, v, whole, env, env');
      } else {
        assert DepGraph(c.decls)(t) == Deps(c.decls, t);
        ComputedLocal(c, t, env, env');
        ComputedOther(c, s, v, t, env');
      }
    }
  }

  /** With the value unchanged, the whole computed state is. */
  lemma SetSameState(c: Config, s: Symbol, v: Tri, env: Env)
    requires WithinRange(c, s, Computed(c, s, env), v) && Computed(c, s, env).value.tri == v
    requires s.Named?
    ensures Computed(WithUser(c, s, v), s, env) == Computed(c, s, env)
  {
    ComputedSelf(c, s, v, env);
  }

  // ----- places in a topological order -----

  /** The first place of `s`, or the length if there is none. */
  function Place(order: seq<Symbol>, s: Symbol): (i: nat)
    ensures i <= |order| && (i < |order| ==> order[i] == s) && s !in order[..i]
  {
    if order == [] then 0
    else
      var n := |order| - 1;
      var i := Place(order[..n], s);
      assert order[..n][..i] == order[..i];
      if i == n && order[n] != s then n + 1 else i
  }

  lemma {:induction false} PlaceGrows(order: seq<Symbol>, i: nat, s: Symbol)
    requires i <= |order|
    ensures s in order[..i] <==> Place(order, s) < i
    decreases |order|
  {
    if order != [] {
      var before := order[..|order| - 1];
      if i < |order| {
        PlaceGrows(before, i, s);
        assert before[..i] == order[..i];
      } else {
        PlaceGrows(before, |before|, s);
        assert order[..i] == order;
        assert before[..|before|] == before;
      }
    }
  }

  /** The dependencies of a symbol come before it. */
  lemma DepsPlacedBefore(g: Graph, order: seq<Symbol>, s: Symbol, t: Symbol)
    requires Topological(g, order) && s in order && t in g(s)
    ensures t in order && Place(order, t) < Place(order, s)
  {
    var i := Place(order, s);
    PlaceGrows(order, |order|, s);
    assert order[..|order|] == order;
    TopologicalPrefix(g, order, i + 1);
    assert Last(order[..i + 1]) == s && order[..i + 1][..i] == order[..i];
    PlaceGrows(order, i, t);
  }
}
