/**
 What a solution gives to a symbol, in terms of its declaration and of the values of the
 other symbols: user values, defaults, imply and select.
 */
module SymbolLaws {
  import opened Expr
  import opened Symbols
  import opened SymbolSpec
  import opened SymbolSolve

  // ----- defaults and prompts, by the places of the properties -----

  predicate Applies(p: Property, env: Env) { p.ty == Default && OptValue(p.visible, env) != NO }

  /** The property at `i` is the first default whose condition is not n. */
  predicate FirstAt(ps: seq<Property>, env: Env, i: nat)
  {
    i < |ps| && Applies(ps[i], env) && forall j :: 0 <= j < i ==> !Applies(ps[j], env)
  }

  predicate NoneApplies(ps: seq<Property>, env: Env) { forall j :: 0 <= j < |ps| ==> !Applies(ps[j], env) }

  /** The minimum of value and condition of the first default that applies, and n without one. */
  ghost predicate IsDefault(ps: seq<Property>, env: Env, d: Tri)
  {
    || (NoneApplies(ps, env) && d == NO)
    || exists i: nat :: FirstAt(ps, env, i) && d == Min(OptValue(ps[i].expr, env), OptValue(ps[i].visible, env))
  }

  /** `v` bounds the condition of every prompt and is attained by one, or is n. */
  ghost predicate IsPrompts(ps: seq<Property>, env: Env, v: Tri)
  {
    && (forall p :: p in ps && p.hasText ==> OptValue(p.visible, env) <= v)
    && (v == NO || exists p :: p in ps && p.hasText && OptValue(p.visible, env) == v)
  }

  lemma {:induction false} FirstDefaultPlace(ps: seq<Property>, env: Env)
    ensures match FirstDefault(ps, env)
            case NoProperty => NoneApplies(ps, env)
            case Found(p) => exists i: nat :: FirstAt(ps, env, i) && ps[i] == p
  {
    if ps != [] {
      if Applies(ps[0], env) {
        assert FirstAt(ps, env, 0);
      } else {
        FirstDefaultPlace(ps[1..], env);
        match FirstDefault(ps, env)
        case NoProperty =>
          forall j | 0 <= j < |ps| ensures !Applies(ps[j], env) {
            assert j > 0 ==> ps[j] == ps[1..][j - 1];
          }
        case Found(p) =>
          var i: nat :| FirstAt(ps[1..], env, i) && ps[1..][i] == p;
          assert FirstAt(ps, env, i + 1) by {
            forall j | 0 <= j < i + 1 ensures !Applies(ps[j], env) {
              assert j > 0 ==> ps[j] == ps[1..][j - 1];
            }
          }
      }
    }
  }

  lemma FirstOnce(ps: seq<Property>, env: Env, i: nat, k: nat)
    requires FirstAt(ps, env, i) && FirstAt(ps, env, k)
    ensures i == k
  {
  }

  /** There is one default value, and it is the one that is computed. */
  lemma DefaultIs(ps: seq<Property>, env: Env, d: Tri)
    ensures IsDefault(ps, env, d) <==> d == DefaultTri(FirstDefault(ps, env), env)
  {
    FirstDefaultPlace(ps, env);
    var f := FirstDefault(ps, env);
    if f.Found? {
      var k: nat :| FirstAt(ps, env, k) && ps[k] == f.prop;
      forall i: nat | FirstAt(ps, env, i) ensures i == k {
        FirstOnce(ps, env, i, k);
      }
    }
  }

  lemma {:induction false} PromptsBound(ps: seq<Property>, env: Env)
    ensures IsPrompts(ps, env, PromptsVisible(ps, env))
    decreases |ps|
  {
    if ps != [] {
      var before := ps[..|ps| - 1];
      var p := ps[|ps| - 1];
      PromptsBound(before, env);
      assert ps == before + [p];
      if p.hasText && OptValue(p.visible, env) == PromptsVisible(ps, env) {
        assert p in ps;
      } else if PromptsVisible(ps, env) != NO {
        var q :| q in before && q.hasText && OptValue(q.visible, env) == PromptsVisible(before, env);
        assert q in ps;
      }
    }
  }

  lemma PromptsAre(ps: seq<Property>, env: Env, v: Tri)
    ensures IsPrompts(ps, env, v) <==> v == PromptsVisible(ps, env)
  {
    PromptsBound(ps, env);
  }

  // ----- bool and tristate symbols -----

  /** A symbol that is only ever n or y: a bool one, and a tristate one without modules. */
  predicate TwoValued(c: Config, s: Symbol) { s.Type() == Boolean || (s.Type() == Tristate && c.modulesVal == NO) }

  function RoundUp(c: Config, s: Symbol, t: Tri): Tri { if TwoValued(c, s) && t == MOD then YES else t }

  /** What selects or implies a symbol; nothing does without a condition. */
  function Selected(e: OptExpr, env: Env): Tri { match e case Null => NO case Ex(x) => Value(x, env) }

  /**
   The value that a solution gives to a declared bool or tristate symbol, from the default
   `d` and the prompts' condition `prompts`.
   */
  lemma LogicalLaw(c: Config, env: Env, s: Symbol, d: Tri, prompts: Tri)
    requires IsSolution(c, env) && s in c.decls && s.Named? && IsLogical(s)
    requires IsDefault(c.decls[s].props, env, d) && IsPrompts(c.decls[s].props, env, prompts)
    ensures var decl := c.decls[s];
            var visible := RoundUp(c, s, prompts);
            var select := RoundUp(c, s, Selected(decl.revDep, env));
            var imply := RoundUp(c, s, Selected(decl.implied, env));
            var depends := RoundUp(c, s, OptValue(decl.dirDep, env));
            var byUser := visible != NO && s in c.user;
            && (byUser ==> env(s).tri == RoundUp(c, s, Max(Min(c.user[s].tri, visible), select)))
            && (!byUser && imply == NO ==> env(s).tri == RoundUp(c, s, Max(d, select)))
            && (!byUser && imply != NO ==> env(s).tri == RoundUp(c, s, Max(Min(Max(d, imply), depends), select)))
  {
    assert SolvesAt(c, env, s);
    DefaultIs(c.decls[s].props, env, d);
    PromptsAre(c.decls[s].props, env, prompts);
    hide IsSolution, FirstDefault, PromptsVisible, DefaultTri, Value, IsDefault, IsPrompts;
  }

  /** The conditions of the law are met by exactly one default and one condition of the prompts. */
  lemma LawApplies(ps: seq<Property>, env: Env)
    ensures exists d: Tri :: IsDefault(ps, env, d) && forall e: Tri :: IsDefault(ps, env, e) ==> e == d
    ensures exists v: Tri :: IsPrompts(ps, env, v) && forall w: Tri :: IsPrompts(ps, env, w) ==> w == v
  {
    hide IsDefault, IsPrompts, FirstDefault, DefaultTri, PromptsVisible;
    var d, v := DefaultTri(FirstDefault(ps, env), env), PromptsVisible(ps, env);
    forall e: Tri ensures IsDefault(ps, env, e) <==> e == d {
      DefaultIs(ps, env, e);
    }
    forall w: Tri ensures IsPrompts(ps, env, w) <==> w == v {
      PromptsAre(ps, env, w);
    }
    assert IsDefault(ps, env, d) && IsPrompts(ps, env, v);
  }

  // ----- int, hex and string symbols -----

  /** The same for a symbol that holds text. A default gives its value when it is one symbol. */
  lemma TextLaw(c: Config, env: Env, s: Symbol, prompts: Tri)
    requires IsSolution(c, env) && s in c.decls && s.Named? && (s.Type() == Int || s.Type() == Hex || s.Type() == Str)
    requires IsPrompts(c.decls[s].props, env, prompts)
    ensures env(s).tri == NO
    ensures prompts != NO && s in c.user ==> env(s).val == c.user[s].val
    ensures forall i: nat, t: Symbol ::
              (prompts == NO || s !in c.user) && FirstAt(c.decls[s].props, env, i) && c.decls[s].props[i].expr == Ex(Sym(t)) ==>
                env(s).val == env(t).val
    ensures (prompts == NO || s !in c.user)
            && (forall i: nat, t: Symbol :: FirstAt(c.decls[s].props, env, i) ==> c.decls[s].props[i].expr != Ex(Sym(t))) ==>
              env(s).val == match s.Type() case Int => "0" case Hex => "0x0" case _ => ""
  {
    var ps := c.decls[s].props;
    assert SolvesAt(c, env, s);
    PromptsAre(ps, env, prompts);
    FirstDefaultPlace(ps, env);
    hide IsSolution, FirstDefault, PromptsVisible, Value, IsPrompts, DefaultTri;
    var f := FirstDefault(ps, env);
    if f.Found? {
      var k: nat :| FirstAt(ps, env, k) && ps[k] == f.prop;
      forall i: nat | FirstAt(ps, env, i) ensures i == k {
        FirstOnce(ps, env, i, k);
      }
      if f.prop.expr.Ex? && f.prop.expr.e.Sym? {
        assert ps[k].expr == Ex(Sym(f.prop.expr.e.sym));
      }
    }
  }

  /** The three constants, symbols that are not declared, and symbols without a type. */
  lemma OtherLaw(c: Config, env: Env, s: Symbol)
    requires IsSolution(c, env) && (s !in c.decls || !s.Named? || s.Type() == Unknown)
    ensures env(s).val == s.Name()
    ensures env(s).tri == match s case SymbolYes => YES case SymbolMod => MOD case _ => NO
  {
    assert SolvesAt(c, env, s);
  }

  /**
   SYMBOL_WRITE: the symbol goes into the configuration file exactly when it can be seen, is
   selected or implied, or has a default.
   */
  lemma WriteLaw(c: Config, env: Env, s: Symbol, d: Tri, prompts: Tri)
    requires s in c.decls && s.Type() != Unknown
    requires IsDefault(c.decls[s].props, env, d) && IsPrompts(c.decls[s].props, env, prompts)
    ensures IsLogical(s) ==>
              (Computed(c, s, env).write <==>
               prompts != NO || d != NO || Selected(c.decls[s].revDep, env) != NO || Selected(c.decls[s].implied, env) != NO)
    ensures !IsLogical(s) && prompts == NO ==>
              (Computed(c, s, env).write <==>
               exists i: nat :: FirstAt(c.decls[s].props, env, i) && c.decls[s].props[i].expr.Ex? && c.decls[s].props[i].expr.e.Sym?)
    ensures !IsLogical(s) && prompts != NO ==> Computed(c, s, env).write
  {
    var ps := c.decls[s].props;
    DefaultIs(ps, env, d);
    PromptsAre(ps, env, prompts);
    FirstDefaultPlace(ps, env);
    hide IsDefault, IsPrompts, FirstDefault, DefaultTri, PromptsVisible;
    var f := FirstDefault(ps, env);
    if f.Found? {
      var k: nat :| FirstAt(ps, env, k) && ps[k] == f.prop;
      forall i: nat | FirstAt(ps, env, i) ensures i == k {
        FirstOnce(ps, env, i, k);
      }
    }
  }

  // ----- which user values are accepted -----

  /** What the symbol would become with the user value `u`, all else as it is. */
  function Chosen(c: Config, s: Symbol, env: Env, u: Tri): Tri { Computed(WithUser(c, s, u), s, env).value.tri }

  function ChosenFrom(c: Config, s: Symbol, visible: Tri, revDep: Tri, otherwise: Tri, u: Tri): Tri
  {
    if visible != NO then RoundUp(c, s, Max(Min(u, visible), revDep)) else otherwise
  }

  lemma ChosenIs(c: Config, s: Symbol, env: Env, u: Tri)
    requires IsLogical(s)
    ensures var st := Computed(c, s, env); Chosen(c, s, env, u) == ChosenFrom(c, s, st.visible, st.revDep, st.value.tri, u)
  {
    hide FirstDefault, PromptsVisible, DefaultTri, OptValue, ReverseValue;
    VisibilityIgnoresUser(c, s, u, s, env);
  }

  /** Visibility and reverse dependency of a two-valued symbol are n or y. */
  lemma VisibilityRounded(c: Config, s: Symbol, env: Env)
    requires IsLogical(s)
    ensures var st := Computed(c, s, env); TwoValued(c, s) ==> st.visible != MOD && st.revDep != MOD
  {
    hide FirstDefault, PromptsVisible, DefaultTri, OptValue, ReverseValue;
  }

  lemma AcceptedFrom(c: Config, s: Symbol, st: State, v: Tri)
    requires IsLogical(s) && (TwoValued(c, s) ==> st.visible != MOD && st.revDep != MOD)
    ensures WithinRange(c, s, st, v) <==>
            (exists u: Tri :: ChosenFrom(c, s, st.visible, st.revDep, st.value.tri, u) == v)
            && ChosenFrom(c, s, st.visible, st.revDep, st.value.tri, NO) != ChosenFrom(c, s, st.visible, st.revDep, st.value.tri, YES)
  {
    var from := (u: Tri) => ChosenFrom(c, s, st.visible, st.revDep, st.value.tri, u);
    if WithinRange(c, s, st, v) {
      assert from(v) == v;
    } else if u: Tri :| from(u) == v && from(NO) != from(YES) {
      assert st.visible != NO && st.visible > st.revDep;
    }
  }

  /**
   sym_tristate_within_range accepts a value exactly when some user value makes the symbol
   take it and the user has a choice at all.
   */
  lemma WithinRangeExact(c: Config, s: Symbol, env: Env, v: Tri)
    requires IsLogical(s)
    ensures WithinRange(c, s, Computed(c, s, env), v) <==>
            (exists u: Tri :: Chosen(c, s, env, u) == v) && Chosen(c, s, env, NO) != Chosen(c, s, env, YES)
  {
    hide Computed, Chosen, ChosenFrom, WithinRange;
    var st := Computed(c, s, env);
    forall u: Tri
      ensures Chosen(c, s, env, u) == ChosenFrom(c, s, st.visible, st.revDep, st.value.tri, u)
    {
      ChosenIs(c, s, env, u);
    }
    VisibilityRounded(c, s, env);
    AcceptedFrom(c, s, st, v);
    if u: Tri :| ChosenFrom(c, s, st.visible, st.revDep, st.value.tri, u) == v {
      assert Chosen(c, s, env, u) == v;
    }
  }

  // ----- what a value depends on -----

  /** A select or imply counts at its target; of other properties the condition counts, and of defaults the value. */
  predicate NamedBy(p: Property, t: Symbol)
  {
    p.ty != Select && p.ty != Imply && (t in OptSymbols(p.visible) || (p.ty == Default && t in OptSymbols(p.expr)))
  }

  lemma {:induction false} PropertiesLaw(ps: seq<Property>, t: Symbol)
    ensures t in PropertiesSymbols(ps) <==> exists p :: p in ps && NamedBy(p, t)
    decreases |ps|
  {
    if ps != [] {
      var before, last := ps[..|ps| - 1], ps[|ps| - 1];
      PropertiesLaw(before, t);
      assert ps == before + [last];
      if t in PropertiesSymbols(before) {
        var p :| p in before && NamedBy(p, t);
        assert p in ps;
      } else if NamedBy(last, t) {
        assert last in ps;
      }
    }
  }

  /** The recursion check follows exactly the symbols in the three dependencies and in the properties. */
  lemma DepsLaw(d: Decls, s: Symbol, t: Symbol)
    requires s in d
    ensures t in Deps(d, s) <==>
            || t in OptSymbols(d[s].dirDep) || t in OptSymbols(d[s].revDep) || t in OptSymbols(d[s].implied)
            || exists p :: p in d[s].props && NamedBy(p, t)
  {
    PropertiesLaw(d[s].props, t);
  }
}
