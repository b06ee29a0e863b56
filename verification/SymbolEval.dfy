/**
 The memoising evaluator: sym_calc_value and expr_calc_value call each other, keep
 what they computed (SYMBOL_VALID, val_is_valid) and mark a symbol valid before its
 value is known.
 */
module SymbolEval {
  import opened Expr
  import opened Graphs
  import opened Symbols
  import opened SymbolSpec
  import opened SymbolSolve

  const CONSTANTS := {SymbolYes, SymbolMod, SymbolNo}

  class Evaluator {
    const decls: Decls
    const modulesVal: Tri

    var user: map<Symbol, SymbolValue>  // def[S_DEF_USER], where SYMBOL_DEF_USER is set
    var state: map<Symbol, State>       // curr, visible, *_dep.tri and SYMBOL_WRITE
    var valid: set<Symbol>              // SYMBOL_VALID
    var cache: map<Expr, Tri>           // val of the expressions with val_is_valid

    ghost const order: seq<Symbol>      // a topological order of the symbols
    ghost const pos: Symbol -> nat      // and the place of a symbol in it
    ghost var sol: Env                  // the solution for `user`
    ghost var value: Expr -> Tri
    ghost var visibility: Symbol -> State
    ghost var computed: Symbol -> State

    function Cfg(): Config
      reads this`user
    {
      Config(decls, user, modulesVal)
    }

    constructor (decls: Decls, modulesVal: Tri, user: map<Symbol, SymbolValue>, ghost order: seq<Symbol>)
      requires Topological(DepGraph(decls), order) && WellFormed(decls)
      requires forall s :: s in order <==> s in decls
      ensures Valid() && this.decls == decls && this.modulesVal == modulesVal && this.user == user
      ensures valid == CONSTANTS
    {
      this.decls, this.modulesVal, this.user, this.order := decls, modulesVal, user, order;
      pos := s => Place(order, s);
      valid, cache := CONSTANTS, map[];
      state := map s: Symbol | s in decls.Keys + CONSTANTS ::
        State(if s.Named? then SymbolValue(NO, "") else ConstValue(s), NO, NO, NO, NO, false);
      new;
      Resolve();
      AllDepsPlaced();
      ConstantsKnown();
    }

    lemma ConstantsKnown()
      requires AllKnown()
      ensures forall s :: s in CONSTANTS ==> sol(s) == ConstValue(s)
    {
      assert SolutionKnown(SymbolYes) && SolutionKnown(SymbolMod) && SolutionKnown(SymbolNo);
    }

    /** The dependencies of `s` come before it. */
    ghost predicate DepsKnown(s: Symbol)
    {
      s in decls ==> PropsOk(decls[s].props) && Before(DeclSymbols(decls[s]), pos(s))
    }

    ghost predicate VisibilityKnown(s: Symbol)
      reads this`user, this`sol, this`visibility
    {
      visibility(s) == Visibility(Cfg(), s, sol)
    }

    ghost predicate ComputedKnown(s: Symbol)
      reads this`user, this`sol, this`visibility, this`computed
    {
      computed(s) == ComputedFrom(Cfg(), s, visibility(s), sol)
    }

    ghost predicate SolutionKnown(s: Symbol)
      reads this`user, this`sol
    {
      SolvesAt(Cfg(), sol, s)
    }

    ghost predicate ValueKnown(e: Expr)
      reads this`sol, this`value
    {
      value(e) == Value(e, sol)
    }

    /** The solution holds what is computed. */
    ghost predicate ResultKnown(s: Symbol)
      reads this`sol, this`computed
    {
      s in decls && s.Named? ==> sol(s) == computed(s).value
    }

    ghost predicate AllDepsKnown()
    {
      forall s {:trigger DepsKnown(s)} :: DepsKnown(s)
    }

    ghost predicate AllKnown()
      reads this`user, this`sol, this`value, this`visibility, this`computed
    {
      && AllDepsKnown()
      && (forall e {:trigger ValueKnown(e)} :: ValueKnown(e))
      && (forall s {:trigger ResultKnown(s)} :: ResultKnown(s))
      && (forall s {:trigger VisibilityKnown(s)} :: VisibilityKnown(s))
      && (forall s {:trigger ComputedKnown(s)} :: ComputedKnown(s))
      && (forall s {:trigger SolutionKnown(s)} :: SolutionKnown(s))
    }

    /** `s` holds its final value. */
    ghost predicate Right(s: Symbol)
      reads this
    {
      && s in state && state[s].value == sol(s)
      && (s.Named? && s.Type() != Unknown ==> state[s] == computed(s))
    }

    /** Symbols below `k` marked valid, and all cached expressions, hold their final value. */
    ghost predicate Inv(k: nat)
      reads this
    {
      && AllKnown() && decls.Keys <= state.Keys
      && (forall s: Symbol :: !s.Named? ==> s in valid && s in state)
      && (forall s :: s in valid && pos(s) < k ==> Right(s))
      && (forall e :: e in cache ==> cache[e] == value(e))
    }

    /** No symbol is being computed. */
    ghost predicate Valid()
      reads this
    {
      && AllKnown() && decls.Keys <= state.Keys
      && (forall s: Symbol :: !s.Named? ==> s in valid && s in state)
      && (forall s :: s in valid ==> Right(s))
      && (forall e :: e in cache ==> cache[e] == value(e))
      && Topological(DepGraph(decls), order) && WellFormed(decls)
      && (forall s :: s in order <==> s in decls)
    }

    lemma AllDepsPlaced()
      requires Topological(DepGraph(decls), order) && WellFormed(decls) && pos == (s => Place(order, s))
      requires forall s :: s in order <==> s in decls
      ensures AllDepsKnown()
    {
      forall s ensures DepsKnown(s) {
        if s in decls {
          assert DepGraph(decls)(s) == DeclSymbols(decls[s]);
          forall t | t in DeclSymbols(decls[s]) ensures t in decls && pos(t) < pos(s) {
            DepsPlacedBefore(DepGraph(decls), order, s, t);
          }
        }
      }
    }

    /** The solution for the current user values. */
    ghost method Resolve()
      requires Topological(DepGraph(decls), order) && WellFormed(decls)
      requires forall s :: s in order <==> s in decls
      modifies this`sol, this`value, this`visibility, this`computed
      ensures IsSolution(Cfg(), sol)
      ensures AllDepsKnown() ==> AllKnown()
    {
      var c := Cfg();
      sol := EnvOf(Solve(c, order));
      SolutionExists(c, order);
      var env := sol;
      value, visibility, computed := e => Value(e, env), s => Visibility(c, s, env), s => Computed(c, s, env);
      assert forall e :: ValueKnown(e);
      assert forall s :: VisibilityKnown(s);
      assert forall s :: ComputedKnown(s);
      assert forall s :: SolvesAt(c, env, s) ==> SolutionKnown(s) && ResultKnown(s);
    }

    /** sym_calc_value, called from outside. */
    method Calc(s: Symbol)
      requires Valid() && s in decls
      modifies this`state, this`valid, this`cache
      ensures Valid() && s in valid && state[s].value == sol(s) && valid >= old(valid)
    {
      CalcSymbol(s, pos(s) + 1);
    }

    /** Computing all symbols, in any order, gives the solution. */
    method CalcAll(symbols: seq<Symbol>)
      requires Valid() && forall s :: s in symbols ==> s in decls
      modifies this`state, this`valid, this`cache
      ensures Valid() && forall s :: s in symbols ==> s in valid && s in state && state[s].value == sol(s)
    {
      for i := 0 to |symbols|
        invariant Valid() && valid >= old(valid)
        invariant forall j :: 0 <= j < i ==> symbols[j] in valid
      {
        Calc(symbols[i]);
      }
      assert forall s :: s in symbols ==> s in valid && Right(s);
    }

    /** sym_clear_all_valid */
    method ClearAllValid()
      modifies this`valid, this`cache
      ensures valid == CONSTANTS && cache == map[]
    {
      valid, cache := CONSTANTS, map[];
    }

    /**
     sym_set_tristate_value on a computed symbol: an accepted value is the value the
     symbol gets, and nothing is recomputed when it had that value already.
     */
    method SetTristateValue(s: Symbol, v: Tri) returns (ok: bool)
      requires Valid() && s in decls && s.Named? && s in valid && s in state
      modifies this
      ensures Valid() && ok == WithinRange(old(Cfg()), s, old(state[s]), v)
      ensures ok ==> user == WithUser(old(Cfg()), s, v).user && sol(s) == SymbolValue(v, "n")
      ensures !ok ==> user == old(user) && sol == old(sol) && valid == old(valid)
      ensures state == old(state)
      ensures ok ==> valid == if old(state[s].value.tri) == v then old(valid) else CONSTANTS
    {
      hide SolvesAt, Computed, Visibility, WellFormed, PropsOk, DeclSymbols;
      if !WithinRange(Cfg(), s, state[s], v) {
        return false;
      }
      var oldVal := state[s].value.tri;
      ConstantsKnown();
      StoreUser(s, v);
      ConstantsKnown();
      if oldVal != v {
        ClearAllValid();
      }
      forall t | t in valid ensures Right(t) {
        assert old(Right(t)) && computed(t) == computed(t) && sol(t) == sol(t);
      }
      ok := true;
    }

    /** The new user value, and what it does to the solution. */
    method StoreUser(s: Symbol, v: Tri)
      requires Valid() && s in decls && s.Named? && s in valid && WithinRange(Cfg(), s, state[s], v)
      modifies this`user, this`sol, this`value, this`visibility, this`computed
      ensures AllKnown() && user == WithUser(old(Cfg()), s, v).user && sol(s) == SymbolValue(v, "n")
      ensures state[s].value.tri == v ==>
                && (forall t :: sol(t) == old(sol)(t))
                && (forall t :: computed(t) == old(computed)(t))
                && (forall e :: value(e) == old(value)(e))
    {
      ghost var c, env := Cfg(), sol;
      KnownAt(s);
      ghost var oldComputed, oldValue := computed, value;
      assert forall t {:trigger oldComputed(t)} :: oldComputed(t) == Computed(c, t, env) by {
        forall t ensures oldComputed(t) == Computed(c, t, env) {
          assert VisibilityKnown(t) && ComputedKnown(t);
        }
      }
      assert forall e {:trigger oldValue(e)} :: oldValue(e) == Value(e, env) by {
        forall e ensures oldValue(e) == Value(e, env) {
          assert ValueKnown(e);
        }
      }
      user := WithUser(Cfg(), s, v).user;
      Resolve();
      SetThenGet(c, s, v, order, env, sol);
      if state[s].value.tri == v {
        SetKeepsState(c, s, v, env);
      }
    }

    lemma SolvedNow()
      requires AllKnown()
      ensures IsSolution(Cfg(), sol)
    {
      forall t ensures SolvesAt(Cfg(), sol, t) {
        assert SolutionKnown(t);
      }
    }

    lemma KnownAt(s: Symbol)
      requires AllKnown() && Right(s) && s in decls && s.Named?
      ensures IsSolution(Cfg(), sol)
      ensures IsLogical(s) ==> state[s] == Computed(Cfg(), s, sol) && sol(s).tri == state[s].value.tri
    {
      assert VisibilityKnown(s) && ComputedKnown(s) && ResultKnown(s);
      SolvedNow();
    }

    lemma SetKeepsState(c: Config, s: Symbol, v: Tri, env: Env)
      requires AllKnown() && IsSolution(c, env) && IsSolution(WithUser(c, s, v), sol) && Cfg() == WithUser(c, s, v)
      requires Topological(DepGraph(decls), order) && WellFormed(decls)
      requires forall t :: t in order <==> t in decls
      requires s in decls && s.Named? && WithinRange(c, s, Computed(c, s, env), v) && env(s).tri == v
      ensures forall t :: sol(t) == env(t)
      ensures forall t :: computed(t) == Computed(c, t, env)
      ensures forall e :: value(e) == Value(e, env)
    {
      SetSameValue(c, s, v, order, order, env, sol);
      forall t ensures sol(t) == env(t) {
        assert SolvesAt(c, env, t) && SolvesAt(WithUser(c, s, v), sol, t);
      }
      forall t ensures computed(t) == Computed(c, t, env) {
        assert VisibilityKnown(t) && ComputedKnown(t) && DepsKnown(t);
        ComputedLocal(c, t, env, sol);
        if t == s {
          assert SolvesAt(c, env, s);
          SetSameState(c, s, v, sol);
        } else {
          ComputedOther(c, s, v, t, sol);
        }
      }
      forall e ensures value(e) == Value(e, env) {
        assert ValueKnown(e);
        ValueLocal(e, env, sol);
      }
    }

    /** The symbols from `k` on are as they were. */
    twostate predicate Untouched(k: nat)
      reads this
    {
      && valid >= old(valid) && state.Keys == old(state.Keys)
      && (forall t :: t in valid && pos(t) >= k ==> t in old(valid))
      && (forall t :: t in state && pos(t) >= k ==> state[t] == old(state)[t])
    }

    ghost predicate Before(ts: seq<Symbol>, k: nat)
    {
      forall t :: t in ts ==> t in decls && pos(t) < k
    }

    /** expr_calc_value on an expression that may be NULL. */
    method CalcOpt(e: OptExpr, ghost k: nat) returns (t: Tri)
      requires Inv(k) && Before(OptSymbols(e), k)
      modifies this`state, this`valid, this`cache
      ensures Inv(k) && Untouched(k) && t == OptValue(e, sol)
      decreases k, 1, if e.Ex? then Size(e.e) else 0, 2
    {
      match e
      case Null => t := YES;
      case Ex(x) => t := CalcExpr(x, k);
    }

    /** expr_calc_value: the cached value, or a new one that is then cached. */
    method CalcExpr(e: Expr, ghost k: nat) returns (t: Tri)
      requires Inv(k) && Before(ExprSymbols(e), k)
      modifies this`state, this`valid, this`cache
      ensures Inv(k) && Untouched(k) && t == Value(e, sol)
      decreases k, 1, Size(e), 1
    {
      assert ValueKnown(e);
      if e in cache {
        return cache[e];
      }
      t := CalcUncached(e, k);
      cache := cache[e := t];
    }

    /** __expr_calc_value */
    method CalcUncached(e: Expr, ghost k: nat) returns (t: Tri)
      requires Inv(k) && Before(ExprSymbols(e), k)
      modifies this`state, this`valid, this`cache
      ensures Inv(k) && Untouched(k) && t == Value(e, sol)
      decreases k, 1, Size(e), 0
    {
      match e
      case Sym(s) =>
        assert s in ExprSymbols(e);
        CalcSymbol(s, k);
        t := state[s].value.tri;
      case Not(a) =>
        var v := CalcExpr(a, k);
        t := 2 - v;
      case Bin(c, l, r) =>
        var v1 := CalcExpr(l, k);
        var v2 := CalcExpr(r, k);
        t := Combine(c, v1, v2);
      case Cmp(op, l, r) =>
        assert l in ExprSymbols(e) && r in ExprSymbols(e);
        CalcSymbol(l, k);
        CalcSymbol(r, k);
        var res := CompareStrings(StringValue(l, state[l].value), l.Type(), StringValue(r, state[r].value), r.Type());
        t := FromBool(Holds(op, res));
    }

    /** The prompt loop of sym_calc_visibility. */
    method CalcPrompts(props: seq<Property>, ghost k: nat) returns (t: Tri)
      requires Inv(k) && Before(PropertiesSymbols(props), k) && PropsOk(props)
      modifies this`state, this`valid, this`cache
      ensures Inv(k) && Untouched(k) && t == PromptsVisible(props, sol)
      decreases k, 2
    {
      t := NO;
      for i := 0 to |props|
        invariant Inv(k) && Untouched(k) && t == PromptsVisible(props[..i], sol)
      {
        var p := props[i];
        assert props[..i + 1][..i] == props[..i];
        if p.hasText {
          PropertyInProperties(props, i);
          var v := CalcOpt(p.visible, k);
          t := Max(t, v);
        }
      }
      assert props[..|props|] == props;
    }

    /** sym_get_default_prop, with the value of the condition it found. */
    method DefaultProp(props: seq<Property>, ghost k: nat) returns (p: OptProperty, cond: Tri)
      requires Inv(k) && Before(PropertiesSymbols(props), k)
      modifies this`state, this`valid, this`cache
      ensures Inv(k) && Untouched(k) && p == FirstDefault(props, sol)
      ensures p.Found? ==> p.prop.ty == Default && p.prop in props && cond == OptValue(p.prop.visible, sol)
      decreases k, 2
    {
      p, cond := NoProperty, NO;
      for i := 0 to |props|
        invariant Inv(k) && Untouched(k) && FirstDefault(props, sol) == FirstDefault(props[i..], sol)
      {
        assert props[i..][1..] == props[i + 1..];
        if props[i].ty == Default {
          PropertyInProperties(props, i);
          cond := CalcOpt(props[i].visible, k);
          if cond != NO {
            return Found(props[i]), cond;
          }
        }
      }
    }

    /** Only `s` and symbols before it changed. */
    twostate predicate UntouchedBut(s: Symbol)
      reads this
    {
      && valid >= old(valid) && state.Keys == old(state.Keys)
      && (forall t :: t in valid && pos(t) >= pos(s) ==> t in old(valid))
      && (forall t :: t in state && t != s && pos(t) >= pos(s) ==> state[t] == old(state)[t])
    }

    /** Storing into a symbol that is being computed. */
    method Store(s: Symbol, st: State)
      requires Inv(pos(s)) && s in state && s.Named?
      modifies this`state
      ensures Inv(pos(s)) && state == old(state)[s := st]
    {
      state := state[s := st];
      assert forall t :: t in valid && pos(t) < pos(s) ==> old(Right(t)) ==> Right(t);
    }

    /** sym_calc_visibility, after which `curr` is the initial value and SYMBOL_WRITE follows `visible`. */
    method CalcVisibility(s: Symbol)
      requires Inv(pos(s)) && s in decls && s in state && s.Named?
      modifies this`state, this`valid, this`cache
      ensures Inv(pos(s)) && UntouchedBut(s) && s in state
      ensures state[s] == visibility(s)
      decreases pos(s), 4
    {
      hide VisibilityFrom, PromptsVisible, OptValue, ReverseValue;
      var prompts, dirDep, revDep, implied := CalcConditions(s);
      var st := VisibilityFrom(Cfg(), s, prompts, dirDep, revDep, implied);
      assert VisibilityKnown(s);
      Store(s, st);
    }

    /** The conditions that the visibility depends on. */
    method CalcConditions(s: Symbol) returns (prompts: Tri, dirDep: Tri, revDep: Tri, implied: Tri)
      requires Inv(pos(s)) && s in decls
      modifies this`state, this`valid, this`cache
      ensures Inv(pos(s)) && Untouched(pos(s))
      ensures prompts == PromptsVisible(decls[s].props, sol) && dirDep == OptValue(decls[s].dirDep, sol)
      ensures revDep == ReverseValue(decls[s].revDep, sol) && implied == ReverseValue(decls[s].implied, sol)
      decreases pos(s), 3
    {
      hide PromptsVisible, OptValue, ReverseValue, PropsOk, OptSymbols, PropertiesSymbols;
      var decl := decls[s];
      assert DepsKnown(s);
      DeclSymbolsMembers(decl);
      prompts := CalcPrompts(decl.props, pos(s));
      dirDep := CalcOpt(decl.dirDep, pos(s));
      revDep := CalcReverse(decl.revDep, pos(s));
      implied := CalcReverse(decl.implied, pos(s));
    }

    /** The value of a `select` or `imply` condition, n if there is none. */
    method CalcReverse(e: OptExpr, ghost k: nat) returns (t: Tri)
      requires Inv(k) && Before(OptSymbols(e), k)
      modifies this`state, this`valid, this`cache
      ensures Inv(k) && Untouched(k) && t == ReverseValue(e, sol)
      decreases k, 2
    {
      t := NO;
      if e.Ex? {
        t := CalcOpt(e, k);
      }
    }

    /**
     sym_calc_value: whatever was computed before and in whatever order, the symbol
     ends up with its value in the solution.
     */
    method CalcSymbol(s: Symbol, ghost k: nat)
      requires Inv(k) && s in decls && pos(s) < k
      modifies this`state, this`valid, this`cache
      ensures Inv(k) && Untouched(pos(s) + 1) && s in valid && Right(s)
      decreases pos(s), 6
    {
      hide VisibilityFrom, PromptsVisible, OptValue, ReverseValue, PropsOk, PropertiesSymbols, Visibility, DeclSymbols;
      if s in valid {
        return;
      }
      valid := valid + {s};
      if s.Type() == Unknown {
        assert SolutionKnown(s);
        Store(s, state[s].(value := SymbolValue(NO, s.Name())));
        return;
      }
      CalcNew(s);
    }

    /** sym_calc_value for a symbol with a type that is not valid yet. */
    method CalcNew(s: Symbol)
      requires Inv(pos(s)) && s in decls && s.Named? && s.Type() != Unknown
      modifies this`state, this`valid, this`cache
      ensures Inv(pos(s)) && UntouchedBut(s) && Right(s)
      decreases pos(s), 5
    {
      CalcVisibility(s);
      var st := state[s];
      if IsLogical(s) {
        st := CalcLogical(s, st);
      } else {
        st := CalcText(s, st);
      }
      Store(s, st);
      assert ResultKnown(s);
    }

    /** The bool and tristate case of sym_calc_value. */
    method CalcLogical(s: Symbol, st: State) returns (r: State)
      requires Inv(pos(s)) && s in decls && IsLogical(s) && s.Type() != Unknown && st == visibility(s)
      modifies this`state, this`valid, this`cache
      ensures Inv(pos(s)) && Untouched(pos(s)) && r == computed(s)
      decreases pos(s), 4
    {
      var newTri: Tri := NO;
      var write := st.write;
      if st.visible != NO && s in user {
        newTri := Min(user[s].tri, st.visible);
      } else {
        write := write || st.revDep != NO;
        newTri := CalcDefault(s);
        write := write || newTri != NO;
        if st.implied != NO {
          write := true;
          newTri := Min(Max(newTri, st.implied), st.dirDep);
        }
      }
      newTri := Promoted(Cfg(), s, Max(newTri, st.revDep));
      r := st.(value := SymbolValue(newTri, "n"), write := write);
      assert ComputedKnown(s);
    }

    /** The value of the default of a bool or tristate symbol. */
    method CalcDefault(s: Symbol) returns (t: Tri)
      requires Inv(pos(s)) && s in decls
      modifies this`state, this`valid, this`cache
      ensures Inv(pos(s)) && Untouched(pos(s))
      ensures t == DefaultTri(FirstDefault(decls[s].props, sol), sol)
      decreases pos(s), 3
    {
      t := NO;
      assert DepsKnown(s);
      DeclSymbolsMembers(decls[s]);
      var p, cond := DefaultProp(decls[s].props, pos(s));
      if p.Found? {
        ghost var i :| 0 <= i < |decls[s].props| && decls[s].props[i] == p.prop;
        PropertyInProperties(decls[s].props, i);
        var v := CalcOpt(p.prop.expr, pos(s));
        t := Min(v, cond);
      }
    }

    /** The int, hex and string case of sym_calc_value. */
    method CalcText(s: Symbol, st: State) returns (r: State)
      requires Inv(pos(s)) && s in decls && !IsLogical(s) && s.Type() != Unknown && st == visibility(s)
      modifies this`state, this`valid, this`cache
      ensures Inv(pos(s)) && Untouched(pos(s)) && r == computed(s)
      decreases pos(s), 4
    {
      hide VisibilityFrom, PromptsVisible, OptValue, ReverseValue, PropsOk, PropertiesSymbols, SolvesAt, Visibility;
      assert DepsKnown(s);
      DeclSymbolsMembers(decls[s]);
      r := st;
      if st.visible != NO && s in user {
        r := st.(value := SymbolValue(NO, user[s].val));
      } else {
        var p, cond := DefaultProp(decls[s].props, pos(s));
        if p.Found? && p.prop.expr.Ex? && p.prop.expr.e.Sym? {
          ghost var i :| 0 <= i < |decls[s].props| && decls[s].props[i] == p.prop;
          PropertyInProperties(decls[s].props, i);
          var ds := p.prop.expr.e.sym;
          assert ds in OptSymbols(p.prop.expr);
          CalcSymbol(ds, pos(s));
          r := st.(value := SymbolValue(NO, state[ds].value.val), write := true);
        }
        assert r == TextState(Cfg(), s, st, p, sol);
      }
      assert computed(s) == TextState(Cfg(), s, st, FirstDefault(decls[s].props, sol), sol) by {
        assert ComputedKnown(s);
      }
    }
  }
}
