/**
 What the value of every symbol is: the equations behind sym_calc_visibility and
 sym_calc_value for symbols without choices and ranges, and their unique solution
 when no symbol depends on itself.
 */
module SymbolSpec {
  import opened Expr
  import opened Symbols

  /** `user` holds `def[S_DEF_USER]` of the symbols with SYMBOL_DEF_USER set. */
  datatype Config = Config(decls: Decls, user: map<Symbol, SymbolValue>, modulesVal: Tri)

  /** sym_get_type */
  function EffectiveType(c: Config, s: Symbol): SymbolType
  {
    if s.Type() == Tristate && c.modulesVal == NO then Boolean else s.Type()
  }

  /** A bool symbol rounds m up to y. */
  function Promoted(c: Config, s: Symbol, t: Tri): Tri
  {
    if t == MOD && EffectiveType(c, s) == Boolean then YES else t
  }

  /** The strongest condition of a prompt. */
  function PromptsVisible(ps: seq<Property>, env: Env): Tri
  {
    if ps == [] then NO
    else
      var before := PromptsVisible(ps[..|ps| - 1], env);
      var p := ps[|ps| - 1];
      if p.hasText then Max(before, OptValue(p.visible, env)) else before
  }

  datatype OptProperty = NoProperty | Found(prop: Property)

  /** sym_get_default_prop: the first default whose condition is not n. */
  function FirstDefault(ps: seq<Property>, env: Env): OptProperty
  {
    if ps == [] then NoProperty
    else if ps[0].ty == Default && OptValue(ps[0].visible, env) != NO then Found(ps[0])
    else FirstDefault(ps[1..], env)
  }

  /** What is computed and stored for a symbol. */
  datatype State = State(value: SymbolValue, visible: Tri, dirDep: Tri, revDep: Tri, implied: Tri, write: bool)

  function InitialString(ty: SymbolType): string
  {
    match ty
    case Int => "0"
    case Hex => "0x0"
    case Str => ""
    case _ => "n"
  }

  /** The state of a symbol whose visibility and dependencies are computed, and nothing else. */
  function VisibilityFrom(c: Config, s: Symbol, prompts: Tri, dirDep: Tri, revDep: Tri, implied: Tri): State
  {
    var visible := if prompts == MOD && EffectiveType(c, s) != Tristate then YES else prompts;
    State(SymbolValue(NO, InitialString(s.Type())), visible,
      Promoted(c, s, dirDep), Promoted(c, s, revDep), Promoted(c, s, implied), visible != NO)
  }

  /** A missing condition of `select` or `imply` is n. */
  function ReverseValue(e: OptExpr, env: Env): Tri { if e.Null? then NO else OptValue(e, env) }

  /** sym_calc_visibility */
  function Visibility(c: Config, s: Symbol, env: Env): State
  {
    var decl := DeclOf(c.decls, s);
    VisibilityFrom(c, s, PromptsVisible(decl.props, env), OptValue(decl.dirDep, env),
      ReverseValue(decl.revDep, env), ReverseValue(decl.implied, env))
  }

  /** The value of a bool or tristate symbol from its visibility, user value and defaults. */
  function LogicalState(c: Config, s: Symbol, st: State, default: Tri): State
  {
    var user := st.visible != NO && s in c.user;
    var own := if user then Min(c.user[s].tri, st.visible)
               else if st.implied != NO then Min(Max(default, st.implied), st.dirDep)
               else default;
    var write := st.write || (!user && (st.revDep != NO || default != NO || st.implied != NO));
    st.(value := SymbolValue(Promoted(c, s, Max(own, st.revDep)), "n"), write := write)
  }

  function DefaultTri(p: OptProperty, env: Env): Tri
  {
    match p case NoProperty => NO case Found(q) => Min(OptValue(q.expr, env), OptValue(q.visible, env))
  }

  /** The value of an int, hex or string symbol. */
  function TextState(c: Config, s: Symbol, st: State, p: OptProperty, env: Env): State
  {
    if st.visible != NO && s in c.user then st.(value := SymbolValue(NO, c.user[s].val))
    else if p.Found? && p.prop.expr.Ex? && p.prop.expr.e.Sym? then
      st.(value := SymbolValue(NO, env(p.prop.expr.e.sym).val), write := true)
    else st
  }

  /** The rest of sym_calc_value, once the visibility is known to be `st`. */
  function ComputedFrom(c: Config, s: Symbol, st: State, env: Env): State
  {
    var p := FirstDefault(DeclOf(c.decls, s).props, env);
    if s.Type() == Unknown then st.(value := SymbolValue(NO, s.Name()))
    else if IsLogical(s) then LogicalState(c, s, st, DefaultTri(p, env))
    else TextState(c, s, st, p, env)
  }

  /** sym_calc_value, with the values of all other symbols taken from `env`. */
  function Computed(c: Config, s: Symbol, env: Env): State
  {
    ComputedFrom(c, s, Visibility(c, s, env), env)
  }

  function ConstValue(s: Symbol): SymbolValue
    requires !s.Named?
  {
    SymbolValue(ConstTri(s), s.Name())
  }

  /** `env` gives every symbol the value computed from the values it gives the others. */
  ghost predicate SolvesAt(c: Config, env: Env, s: Symbol)
  {
    env(s) == (if !s.Named? then ConstValue(s)
               else if s in c.decls then Computed(c, s, env).value
               else SymbolValue(NO, s.Name()))
  }

  ghost predicate IsSolution(c: Config, env: Env)
  {
    forall s :: SolvesAt(c, env, s)
  }

  // ----- consequences for every solution -----

  /**
   A solution is an assignment of the kind the simplifier relies on; in
   particular bool symbols are never m.
   */
  lemma SolutionValid(c: Config, env: Env)
    requires IsSolution(c, env)
    ensures ValidEnv(env) && BoolsNotMod(env)
  {
    forall s: Symbol
      ensures s.Type() == Unknown ==> env(s).val == s.Name()
      ensures !IsLogical(s) ==> env(s).tri == NO
      ensures s.Type() == Boolean ==> env(s).tri != MOD
    {
      assert SolvesAt(c, env, s);
    }
    assert SolvesAt(c, env, SymbolYes) && SolvesAt(c, env, SymbolMod) && SolvesAt(c, env, SymbolNo);
  }

  /** Without modules no tristate symbol is m, and nothing is below what selects it. */
  lemma SolutionBounds(c: Config, env: Env, s: Symbol)
    requires IsSolution(c, env) && s in c.decls && s.Named? && IsLogical(s)
    ensures c.modulesVal == NO ==> env(s).tri != MOD
    ensures env(s).tri >= Computed(c, s, env).revDep
    ensures Computed(c, s, env).revDep >= ReverseValue(c.decls[s].revDep, env)
  {
    assert SolvesAt(c, env, s);
  }

  // ----- only the dependencies matter -----

  ghost predicate Agree(env1: Env, env2: Env, ts: seq<Symbol>)
  {
    forall t :: t in ts ==> env1(t) == env2(t)
  }

  lemma {:induction false} ValueLocal(e: Expr, env1: Env, env2: Env)
    requires Agree(env1, env2, ExprSymbols(e))
    ensures Value(e, env1) == Value(e, env2)
  {
    match e
    case Sym(s) => assert s in ExprSymbols(e);
    case Cmp(_, l, r) => assert l in ExprSymbols(e) && r in ExprSymbols(e);
    case Not(a) => ValueLocal(a, env1, env2);
    case Bin(_, l, r) =>
      ValueLocal(l, env1, env2);
      ValueLocal(r, env1, env2);
  }

  lemma OptLocal(e: OptExpr, env1: Env, env2: Env)
    requires Agree(env1, env2, OptSymbols(e))
    ensures OptValue(e, env1) == OptValue(e, env2)
  {
    if e.Ex? {
      ValueLocal(e.e, env1, env2);
    }
  }

  /** A prompt with text is not a select or an imply. */
  ghost predicate WellFormed(d: Decls)
  {
    forall s, p :: s in d && p in d[s].props && p.hasText ==> p.ty != Select && p.ty != Imply
  }

  ghost predicate PropsOk(ps: seq<Property>)
  {
    forall p :: p in ps && p.hasText ==> p.ty != Select && p.ty != Imply
  }

  lemma {:induction false} PromptsLocal(ps: seq<Property>, env1: Env, env2: Env)
    requires PropsOk(ps) && Agree(env1, env2, PropertiesSymbols(ps))
    ensures PromptsVisible(ps, env1) == PromptsVisible(ps, env2)
    decreases |ps|
  {
    if ps != [] {
      PromptsLocal(ps[..|ps| - 1], env1, env2);
      var p := ps[|ps| - 1];
      assert p in ps;
      if p.hasText {
        OptLocal(p.visible, env1, env2);
      }
    }
  }

  lemma {:induction false} DefaultLocal(all: seq<Property>, i: nat, env1: Env, env2: Env)
    requires i <= |all| && Agree(env1, env2, PropertiesSymbols(all))
    ensures FirstDefault(all[i..], env1) == FirstDefault(all[i..], env2)
    ensures var p := FirstDefault(all[i..], env1); p.Found? ==> p.prop.ty == Default && p.prop in all
    decreases |all| - i
  {
    if i < |all| {
      var p := all[i];
      PropertyInProperties(all, i);
      if p.ty == Default {
        OptLocal(p.visible, env1, env2);
      }
      DefaultLocal(all, i + 1, env1, env2);
      assert all[i..][1..] == all[i + 1..];
    }
  }

  lemma VisibilityLocal(c: Config, s: Symbol, env1: Env, env2: Env)
    requires PropsOk(DeclOf(c.decls, s).props) && Agree(env1, env2, Deps(c.decls, s))
    ensures Visibility(c, s, env1) == Visibility(c, s, env2)
  {
    var decl := DeclOf(c.decls, s);
    DeclSymbolsMembers(decl);
    PromptsLocal(decl.props, env1, env2);
    OptLocal(decl.dirDep, env1, env2);
    OptLocal(decl.revDep, env1, env2);
    OptLocal(decl.implied, env1, env2);
  }

  lemma DefaultTriLocal(c: Config, s: Symbol, env1: Env, env2: Env)
    requires Agree(env1, env2, Deps(c.decls, s))
    ensures var ps := DeclOf(c.decls, s).props;
            var p := FirstDefault(ps, env1);
            && p == FirstDefault(ps, env2) && DefaultTri(p, env1) == DefaultTri(p, env2)
            && (p.Found? ==> Agree(env1, env2, OptSymbols(p.prop.expr)))
  {
    var decl := DeclOf(c.decls, s);
    var ps := decl.props;
    DeclSymbolsMembers(decl);
    DefaultLocal(ps, 0, env1, env2);
    assert ps[0..] == ps;
    var p := FirstDefault(ps, env1);
    if p.Found? {
      var i :| 0 <= i < |ps| && ps[i] == p.prop;
      PropertyInProperties(ps, i);
      OptLocal(p.prop.expr, env1, env2);
      OptLocal(p.prop.visible, env1, env2);
    }
  }

  lemma ComputedLocal(c: Config, s: Symbol, env1: Env, env2: Env)
    requires PropsOk(DeclOf(c.decls, s).props) && Agree(env1, env2, Deps(c.decls, s))
    ensures Computed(c, s, env1) == Computed(c, s, env2)
  {
    VisibilityLocal(c, s, env1, env2);
    DefaultTriLocal(c, s, env1, env2);
    var p := FirstDefault(DeclOf(c.decls, s).props, env1);
    if p.Found? && p.prop.expr.Ex? && p.prop.expr.e.Sym? {
      assert p.prop.expr.e.sym in OptSymbols(p.prop.expr);
    }
  }
}
