/**
 Joining of duplicate and redundant operands (expr_join_or, expr_join_and,
 expr_eliminate_dups).
 */
module ExprDups {
  import opened Expr
  import opened ExprEliminate

  // ----- the join rules -----

  predicate IsEquality(e: Expr) { e.Cmp? && (e.op == Eq || e.op == Ne) }

  predicate IsAtom(e: Expr) { IsEquality(e) || e.Sym? }

  function AtomSymbol(e: Expr): Symbol
    requires IsAtom(e)
  {
    if e.Sym? then e.sym else e.lhs
  }

  /** Both operands speak about one and the same bool or tristate symbol. */
  predicate SameSubject(e1: Expr, e2: Expr)
  {
    && (IsAtom(e1) || (e1.Not? && IsAtom(e1.arg)))
    && (IsAtom(e2) || (e2.Not? && e2.arg.Sym?))
    && Subject(e1) == Subject(e2)
    && IsLogical(Subject(e1))
  }

  function Subject(e: Expr): Symbol
    requires IsAtom(e) || (e.Not? && IsAtom(e.arg))
  {
    AtomSymbol(if e.Not? then e.arg else e)
  }

  predicate IsCmp(e: Expr, op: CmpOp, rhs: Symbol) { e.Cmp? && e.op == op && e.rhs == rhs }

  predicate BothCmp(e1: Expr, e2: Expr, op: CmpOp, r1: Symbol, r2: Symbol)
  {
    (IsCmp(e1, op, r1) && IsCmp(e2, op, r2)) || (IsCmp(e1, op, r2) && IsCmp(e2, op, r1))
  }

  predicate SymWithCmp(e1: Expr, e2: Expr, op: CmpOp, rhs: Symbol)
  {
    (e1.Sym? && IsCmp(e2, op, rhs)) || (e2.Sym? && IsCmp(e1, op, rhs))
  }

  predicate SymWithNegation(e1: Expr, e2: Expr)
  {
    (e1.Not? && e1.arg.Sym? && e2.Sym?) || (e2.Not? && e2.arg.Sym? && e1.Sym?)
  }

  /** The rules of expr_join_or for expressions that expr_eq tells apart. */
  function OrRules(e1: Expr, e2: Expr): OptExpr
  {
    if !SameSubject(e1, e2) then Null
    else
      var s := Subject(e1);
      if s.Type() == Tristate && BothCmp(e1, e2, Eq, SymbolYes, SymbolMod) then Ex(Cmp(Ne, s, SymbolNo))
      else if s.Type() == Tristate && BothCmp(e1, e2, Eq, SymbolYes, SymbolNo) then Ex(Cmp(Ne, s, SymbolMod))
      else if s.Type() == Tristate && BothCmp(e1, e2, Eq, SymbolMod, SymbolNo) then Ex(Cmp(Ne, s, SymbolYes))
      else if s.Type() == Boolean && SymWithNegation(e1, e2) then Ex(Sym(SymbolYes))
      else Null
  }

  /** (a='b') && (a!='c') -> 'b'='c' ? 'n' : a='b' */
  function JoinEqNe(s: Symbol, b: Symbol, c: Symbol): Expr
  {
    if b != c then Cmp(Eq, s, b) else Sym(SymbolNo)
  }

  /** The rules of expr_join_and for expressions that expr_eq tells apart. */
  function AndRules(e1: Expr, e2: Expr): OptExpr
  {
    if !SameSubject(e1, e2) then Null
    else
      var s := Subject(e1);
      if SymWithCmp(e1, e2, Eq, SymbolYes) then Ex(Cmp(Eq, s, SymbolYes))
      else if SymWithCmp(e1, e2, Ne, SymbolNo) then Ex(Sym(s))
      else if SymWithCmp(e1, e2, Ne, SymbolMod) then Ex(Cmp(Eq, s, SymbolYes))
      else if s.Type() != Tristate then Null
      else if e1.Cmp? && e2.Cmp? && e1.op == Eq && e2.op == Ne && e2.rhs.IsConst() && e1.rhs.IsConst() then
        Ex(JoinEqNe(s, e1.rhs, e2.rhs))
      else if e1.Cmp? && e2.Cmp? && e1.op == Ne && e2.op == Eq && e1.rhs.IsConst() && e2.rhs.IsConst() then
        Ex(JoinEqNe(s, e2.rhs, e1.rhs))
      else if BothCmp(e1, e2, Ne, SymbolYes, SymbolNo) then Ex(Cmp(Eq, s, SymbolMod))
      else if BothCmp(e1, e2, Ne, SymbolYes, SymbolMod) then Ex(Cmp(Eq, s, SymbolNo))
      else if BothCmp(e1, e2, Ne, SymbolMod, SymbolNo) then Ex(Cmp(Eq, s, SymbolYes))
      else Null
  }

  /** expr_join_or and expr_join_and: one expression equal to `e1 c e2`, or NULL. */
  function Join(c: Conn, e1: Expr, e2: Expr): OptExpr
  {
    if ExprEq(e1, e2) then Ex(e1)
    else if c == OrOp then OrRules(e1, e2)
    else AndRules(e1, e2)
  }

  // ----- soundness of the join rules -----

  /** A string constant and a tristate value that the comparison calls equal. */
  predicate Denotes(b: Symbol, t: Tri)
  {
    if IsTriConst(b) then t == ConstTri(b)
    else CompareStrings(TriString(t), Tristate, b.Name(), b.Type()) == 0
  }

  /** The constants there are: y, m and n, and the symbols made for quoted text. */
  predicate IsConstant(b: Symbol) { IsTriConst(b) || (b.IsConst() && b.Type() == Unknown) }

  /** A tristate symbol is compared with y, m, n or text that denotes no tristate. */
  predicate PlainEquality(lhs: Symbol, rhs: Symbol)
  {
    lhs.Type() == Tristate && rhs.IsConst() ==>
      IsConstant(rhs) && (IsTriConst(rhs) || forall t: Tri :: !Denotes(rhs, t))
  }

  predicate PlainEqualities(e: Expr)
  {
    match e
    case Sym(_) => true
    case Not(a) => PlainEqualities(a)
    case Bin(_, l, r) => PlainEqualities(l) && PlainEqualities(r)
    case Cmp(op, l, r) => op == Eq || op == Ne ==> PlainEquality(l, r)
  }

  lemma CompareWithConstant(a: Symbol, b: Symbol, env: Env)
    requires ValidEnv(env) && IsLogical(a) && IsConstant(b)
    ensures CompareSymbols(a, b, env) == 0 <==> Denotes(b, env(a).tri)
  {
    if IsTriConst(b) {
      CompareWithConst(a, b, env);
    }
  }

  ghost predicate Sound(c: Conn, e1: Expr, e2: Expr, t: Expr, env: Env)
  {
    Value(t, env) == Combine(c, Value(e1, env), Value(e2, env))
  }

  lemma OrRulesSound(e1: Expr, e2: Expr, env: Env)
    requires ValidEnv(env) && BoolsNotMod(env) && OrRules(e1, e2).Ex?
    ensures Sound(OrOp, e1, e2, OrRules(e1, e2).e, env)
  {
    hide CompareStrings, ExprEq;
    var s := Subject(e1);
    if s.Type() == Tristate {
      EqualityValues(s, env);
    } else {
      assert SymWithNegation(e1, e2);
    }
  }

  /** Does rule (a='b') && (a!='c') fire on this pair? */
  predicate UsesEqNe(e1: Expr, e2: Expr)
  {
    && e1.Cmp? && e2.Cmp? && e1.lhs == e2.lhs && e1.lhs.Type() == Tristate
    && e1.rhs.IsConst() && e2.rhs.IsConst()
    && ((e1.op == Eq && e2.op == Ne) || (e1.op == Ne && e2.op == Eq))
  }

  /** An equality between a logical symbol and y, m or n tests its tristate. */
  lemma EqualityValues(s: Symbol, env: Env)
    requires ValidEnv(env) && IsLogical(s)
    ensures Value(Cmp(Eq, s, SymbolYes), env) == FromBool(env(s).tri == YES)
    ensures Value(Cmp(Eq, s, SymbolMod), env) == FromBool(env(s).tri == MOD)
    ensures Value(Cmp(Eq, s, SymbolNo), env) == FromBool(env(s).tri == NO)
    ensures Value(Cmp(Ne, s, SymbolYes), env) == FromBool(env(s).tri != YES)
    ensures Value(Cmp(Ne, s, SymbolMod), env) == FromBool(env(s).tri != MOD)
    ensures Value(Cmp(Ne, s, SymbolNo), env) == FromBool(env(s).tri != NO)
  {
    CompareWithConst(s, SymbolYes, env);
    CompareWithConst(s, SymbolMod, env);
    CompareWithConst(s, SymbolNo, env);
  }

  /** The rule (a='b') && (a!='c') is right for constants that no tristate compares equal to both of. */
  predicate ConstantsApart(b: Symbol, c: Symbol)
  {
    IsConstant(b) && IsConstant(c) && (b == c || forall t: Tri :: !(Denotes(b, t) && Denotes(c, t)))
  }

  /** Joining these operands does not use that rule where it is wrong. */
  predicate RuleOk(c: Conn, e1: Expr, e2: Expr)
  {
    c == AndOp && !ExprEq(e1, e2) && UsesEqNe(e1, e2) ==> ConstantsApart(e1.rhs, e2.rhs)
  }

  lemma JoinEqNeSound(e1: Expr, e2: Expr, env: Env)
    requires ValidEnv(env) && UsesEqNe(e1, e2) && ConstantsApart(e1.rhs, e2.rhs)
    ensures var (b, c) := if e1.op == Eq then (e1.rhs, e2.rhs) else (e2.rhs, e1.rhs);
            Sound(AndOp, e1, e2, JoinEqNe(e1.lhs, b, c), env)
  {
    CompareWithConstant(e1.lhs, e1.rhs, env);
    CompareWithConstant(e2.lhs, e2.rhs, env);
    hide CompareSymbols, Denotes;
    assert e1.rhs != e2.rhs ==> !(Denotes(e1.rhs, env(e1.lhs).tri) && Denotes(e2.rhs, env(e1.lhs).tri));
  }

  lemma PlainRule(c: Conn, e1: Expr, e2: Expr)
    requires PlainEqualities(e1) && PlainEqualities(e2)
    ensures RuleOk(c, e1, e2)
  {
    hide ExprEq;
  }

  lemma AndSymRulesSound(s: Symbol, e1: Expr, e2: Expr, env: Env)
    requires ValidEnv(env) && IsLogical(s)
    requires e1 == Sym(s) && e2.Cmp? && e2.lhs == s
    requires AndRules(e1, e2).Ex? || AndRules(e2, e1).Ex?
    ensures AndRules(e1, e2) == AndRules(e2, e1) && Sound(AndOp, e1, e2, AndRules(e1, e2).e, env)
  {
    EqualityValues(s, env);
  }

  lemma AndNeRulesSound(e1: Expr, e2: Expr, env: Env)
    requires ValidEnv(env) && e1.Cmp? && e2.Cmp? && AndRules(e1, e2).Ex? && !UsesEqNe(e1, e2)
    ensures Sound(AndOp, e1, e2, AndRules(e1, e2).e, env)
  {
    EqualityValues(e1.lhs, env);
  }

  lemma AndRulesSound(e1: Expr, e2: Expr, env: Env)
    requires ValidEnv(env) && AndRules(e1, e2).Ex?
    requires UsesEqNe(e1, e2) ==> ConstantsApart(e1.rhs, e2.rhs)
    ensures Sound(AndOp, e1, e2, AndRules(e1, e2).e, env)
  {
    if UsesEqNe(e1, e2) {
      JoinEqNeSound(e1, e2, env);
    } else if e1.Sym? {
      AndSymRulesSound(e1.sym, e1, e2, env);
    } else if e2.Sym? {
      AndSymRulesSound(e2.sym, e2, e1, env);
    } else {
      AndNeRulesSound(e1, e2, env);
    }
  }

  /** Every join is worth `e1 c e2`. */
  lemma JoinSound(c: Conn, e1: Expr, e2: Expr, env: Env)
    requires ValidEnv(env) && BoolsNotMod(env) && Join(c, e1, e2).Ex? && RuleOk(c, e1, e2)
    ensures Sound(c, e1, e2, Join(c, e1, e2).e, env)
  {
    if ExprEq(e1, e2) {
      ExprEqSound(e1, e2, env);
    } else if c == OrOp {
      OrRulesSound(e1, e2, env);
    } else {
      AndRulesSound(e1, e2, env);
    }
  }

  /**
   The one rule that can go wrong: (a='b') && (a!='c') with distinct constants
   keeps its value in every assignment exactly when no tristate is denoted by both.
   */
  lemma JoinEqNeExact(a: Symbol, b: Symbol, c: Symbol)
    requires a.Type() == Tristate && !a.IsConst() && IsConstant(b) && IsConstant(c) && b != c
    ensures (forall env: Env :: ValidEnv(env) ==> Sound(AndOp, Cmp(Eq, a, b), Cmp(Ne, a, c), JoinEqNe(a, b, c), env))
       <==> !exists t: Tri :: Denotes(b, t) && Denotes(c, t)
  {
    if t: Tri :| Denotes(b, t) && Denotes(c, t) {
      var env := SampleEnv(a, t);
      CompareWithConstant(a, b, env);
      CompareWithConstant(a, c, env);
      assert !Sound(AndOp, Cmp(Eq, a, b), Cmp(Ne, a, c), JoinEqNe(a, b, c), env);
    } else {
      forall env: Env | ValidEnv(env)
        ensures Sound(AndOp, Cmp(Eq, a, b), Cmp(Ne, a, c), JoinEqNe(a, b, c), env)
      {
        CompareWithConstant(a, b, env);
        CompareWithConstant(a, c, env);
        assert !(Denotes(b, env(a).tri) && Denotes(c, env(a).tri));
      }
    }
  }

  /** An assignment that gives one logical symbol a chosen value. */
  function SampleEnv(a: Symbol, t: Tri): (env: Env)
    requires IsLogical(a) && !a.IsConst()
    ensures ValidEnv(env) && env(a).tri == t
  {
    (s: Symbol) =>
      if s == a then SymbolValue(t, "n")
      else if IsTriConst(s) then SymbolValue(ConstTri(s), s.Name())
      else SymbolValue(NO, s.Name())
  }

  const QUOTED_TWO := Named("2", Unknown, true)

  /** `a="2" && a!=y` becomes `a="2"`, although the text 2 compares equal to y. */
  lemma JoinEqNeCounterexample(a: Symbol) returns (env: Env)
    requires a.Type() == Tristate && !a.IsConst()
    ensures ValidEnv(env)
    ensures Join(AndOp, Cmp(Eq, a, QUOTED_TWO), Cmp(Ne, a, SymbolYes)) == Ex(Cmp(Eq, a, QUOTED_TWO))
    ensures Value(Cmp(Eq, a, QUOTED_TWO), env) == YES
    ensures Value(Bin(AndOp, Cmp(Eq, a, QUOTED_TWO), Cmp(Ne, a, SymbolYes)), env) == NO
  {
    env := SampleEnv(a, YES);
    CompareWithConst(a, SymbolYes, env);
    assert SkipSpace("2") == "2" && Magnitude("", 10, 2) == 2;
    assert ParseString("2", Unknown) == Signed(2);
  }

  /** (a!='m') && (a!='n') -> a='y'; the comment beside the rule says a='m'. */
  lemma NeRuleComment(a: Symbol, env: Env)
    requires a.Type() == Tristate && ValidEnv(env)
    ensures Join(AndOp, Cmp(Ne, a, SymbolMod), Cmp(Ne, a, SymbolNo)) == Ex(Cmp(Eq, a, SymbolYes))
    ensures Sound(AndOp, Cmp(Ne, a, SymbolMod), Cmp(Ne, a, SymbolNo), Cmp(Eq, a, SymbolYes), env)
    ensures Sound(AndOp, Cmp(Ne, a, SymbolMod), Cmp(Ne, a, SymbolNo), Cmp(Eq, a, SymbolMod), env) <==> env(a).tri == NO
  {
    EqualityValues(a, env);
  }

  // ----- measures -----

  /** Operands of the and/or skeleton other than y and n. */
  function Leaves(e: Expr): nat
  {
    if e.Bin? then Leaves(e.left) + Leaves(e.right) else if IsYesNo(e) then 0 else 1
  }

  /** No connective of the skeleton has y or n as an operand. */
  predicate Clean(e: Expr)
  {
    e.Bin? ==> !IsYesNo(e.left) && !IsYesNo(e.right) && Clean(e.left) && Clean(e.right)
  }

  lemma {:induction false} CleanHasLeaf(e: Expr)
    requires Clean(e) && !IsYesNo(e)
    ensures Leaves(e) >= 1
  {
    if e.Bin? {
      CleanHasLeaf(e.left);
    }
  }

  lemma {:induction false} ElimYnFacts(e: Expr)
    ensures Leaves(ElimYn(e)) <= Leaves(e)
    ensures Clean(e) ==> ElimYn(e) == e
    ensures ElimYn(e) != e ==> Size(ElimYn(e)) < Size(e)
  {
    if e.Bin? {
      ElimYnFacts(e.left);
      ElimYnFacts(e.right);
    }
  }

  lemma JoinFacts(c: Conn, e1: Expr, e2: Expr)
    requires Join(c, e1, e2).Ex?
    ensures var t := Join(c, e1, e2).e;
            && (t == e1 || (Size(t) == 1 && !t.Bin?)) && (!ExprEq(e1, e2) ==> Size(t) == 1)
            && Leaves(t) <= Leaves(e1) + Leaves(e2)
            && (Clean(e1) ==> Clean(t))
            && (PlainEqualities(e1) && PlainEqualities(e2) ==> PlainEqualities(t))
  {
    if !ExprEq(e1, e2) {
      assert SameSubject(e1, e2);
      assert Size(Join(c, e1, e2).e) == 1;
      assert e1.Cmp? || e1.Not? || e2.Cmp? || e2.Not?;
    }
  }

  // ----- the walk over two expressions -----

  /** expr_eliminate_dups1: both expressions after the walk, and the joins made. */
  function DupsWalk(c: Conn, e1: Expr, e2: Expr): (r: (Expr, Expr, nat))
    ensures Size(r.0) + Size(r.1) <= Size(e1) + Size(e2)
    decreases Size(e1) + Size(e2)
  {
    if IsConn(e1, c) then
      var (l, e2l, n) := DupsWalk(c, e1.left, e2);
      var (r, e2r, m) := DupsWalk(c, e1.right, e2l);
      (Bin(c, l, r), e2r, n + m)
    else if IsConn(e2, c) then
      var (e1l, l, n) := DupsWalk(c, e1, e2.left);
      var (e1r, r, m) := DupsWalk(c, e1l, e2.right);
      (e1r, Bin(c, l, r), n + m)
    else
      match Join(c, e1, e2)
      case Null => (e1, e2, 0)
      case Ex(t) => JoinFacts(c, e1, e2); (Sym(Unit(c)), t, 1)
  }

  lemma {:induction false} DupsWalkLeaves(c: Conn, e1: Expr, e2: Expr)
    ensures Leaves(DupsWalk(c, e1, e2).0) + Leaves(DupsWalk(c, e1, e2).1) <= Leaves(e1) + Leaves(e2)
    decreases Size(e1) + Size(e2)
  {
    if IsConn(e1, c) {
      DupsWalkLeaves(c, e1.left, e2);
      DupsWalkLeaves(c, e1.right, DupsWalk(c, e1.left, e2).1);
    } else if IsConn(e2, c) {
      DupsWalkLeaves(c, e1, e2.left);
      DupsWalkLeaves(c, DupsWalk(c, e1, e2.left).0, e2.right);
    } else if Join(c, e1, e2).Ex? {
      JoinFacts(c, e1, e2);
    }
  }

  lemma {:induction false} DupsWalkIdle(c: Conn, e1: Expr, e2: Expr)
    ensures DupsWalk(c, e1, e2).2 == 0 ==> DupsWalk(c, e1, e2).0 == e1 && DupsWalk(c, e1, e2).1 == e2
    decreases Size(e1) + Size(e2)
  {
    if IsConn(e1, c) {
      DupsWalkIdle(c, e1.left, e2);
      DupsWalkIdle(c, e1.right, DupsWalk(c, e1.left, e2).1);
    } else if IsConn(e2, c) {
      DupsWalkIdle(c, e1, e2.left);
      DupsWalkIdle(c, DupsWalk(c, e1, e2.left).0, e2.right);
    } else if Join(c, e1, e2).Ex? {
      JoinFacts(c, e1, e2);
    }
  }

  lemma {:induction false} DupsWalkConst(c: Conn, e1: Expr, e2: Expr)
    ensures IsYesNo(e1) ==> IsYesNo(DupsWalk(c, e1, e2).0)
    decreases Size(e1) + Size(e2)
  {
    if IsConn(e1, c) {
      DupsWalkConst(c, e1.left, e2);
      DupsWalkConst(c, e1.right, DupsWalk(c, e1.left, e2).1);
    } else if IsConn(e2, c) {
      DupsWalkConst(c, e1, e2.left);
      DupsWalkConst(c, DupsWalk(c, e1, e2.left).0, e2.right);
    } else if Join(c, e1, e2).Ex? {
      JoinFacts(c, e1, e2);
    }
  }

  lemma DupsWalkFacts(c: Conn, e1: Expr, e2: Expr)
    ensures var (r1, r2, n) := DupsWalk(c, e1, e2);
            && Leaves(r1) + Leaves(r2) <= Leaves(e1) + Leaves(e2)
            && (n == 0 ==> r1 == e1 && r2 == e2)
            && (IsYesNo(e1) ==> IsYesNo(r1))
  {
    DupsWalkLeaves(c, e1, e2);
    DupsWalkIdle(c, e1, e2);
    DupsWalkConst(c, e1, e2);
  }

  lemma {:induction false} DupsWalkPlain(c: Conn, e1: Expr, e2: Expr)
    requires PlainEqualities(e1) && PlainEqualities(e2)
    ensures PlainEqualities(DupsWalk(c, e1, e2).0) && PlainEqualities(DupsWalk(c, e1, e2).1)
    decreases Size(e1) + Size(e2)
  {
    if IsConn(e1, c) {
      DupsWalkPlain(c, e1.left, e2);
      DupsWalkPlain(c, e1.right, DupsWalk(c, e1.left, e2).1);
    } else if IsConn(e2, c) {
      DupsWalkPlain(c, e1, e2.left);
      DupsWalkPlain(c, DupsWalk(c, e1, e2.left).0, e2.right);
    } else if Join(c, e1, e2).Ex? {
      JoinFacts(c, e1, e2);
    }
  }

  /** A join between clean expressions that are not y or n costs a leaf. */
  lemma {:induction false} DupsWalkShrinks(c: Conn, e1: Expr, e2: Expr)
    requires Clean(e1) && Clean(e2) && !IsYesNo(e1) && !IsYesNo(e2)
    requires DupsWalk(c, e1, e2).2 > 0
    ensures var (r1, r2, _) := DupsWalk(c, e1, e2); Leaves(r1) + Leaves(r2) < Leaves(e1) + Leaves(e2)
    decreases Size(e1) + Size(e2)
  {
    hide Join, ExprEq;
    if IsConn(e1, c) {
      var (l, e2l, n) := DupsWalk(c, e1.left, e2);
      DupsWalkFacts(c, e1.left, e2);
      DupsWalkFacts(c, e1.right, e2l);
      if n > 0 {
        DupsWalkShrinks(c, e1.left, e2);
      } else {
        DupsWalkShrinks(c, e1.right, e2l);
      }
    } else if IsConn(e2, c) {
      var (e1l, l, n) := DupsWalk(c, e1, e2.left);
      DupsWalkFacts(c, e1, e2.left);
      DupsWalkFacts(c, e1l, e2.right);
      if n > 0 {
        DupsWalkShrinks(c, e1, e2.left);
      } else {
        DupsWalkShrinks(c, e1l, e2.right);
      }
    } else {
      CleanHasLeaf(e1);
      CleanHasLeaf(e2);
      JoinFacts(c, e1, e2);
    }
  }

  /** No join of the walk uses the rule (a='b') && (a!='c') where it is wrong. */
  predicate WalkOk(c: Conn, e1: Expr, e2: Expr)
    decreases Size(e1) + Size(e2)
  {
    if IsConn(e1, c) then
      WalkOk(c, e1.left, e2) && WalkOk(c, e1.right, DupsWalk(c, e1.left, e2).1)
    else if IsConn(e2, c) then
      WalkOk(c, e1, e2.left) && WalkOk(c, DupsWalk(c, e1, e2.left).0, e2.right)
    else RuleOk(c, e1, e2)
  }

  lemma {:induction false} PlainWalk(c: Conn, e1: Expr, e2: Expr)
    requires PlainEqualities(e1) && PlainEqualities(e2)
    ensures WalkOk(c, e1, e2)
    decreases Size(e1) + Size(e2)
  {
    hide RuleOk;
    if IsConn(e1, c) {
      DupsWalkPlain(c, e1.left, e2);
      PlainWalk(c, e1.left, e2);
      PlainWalk(c, e1.right, DupsWalk(c, e1.left, e2).1);
    } else if IsConn(e2, c) {
      DupsWalkPlain(c, e1, e2.left);
      PlainWalk(c, e1, e2.left);
      PlainWalk(c, DupsWalk(c, e1, e2.left).0, e2.right);
    } else {
      PlainRule(c, e1, e2);
    }
  }

  /** Joining keeps the value of `e1 c e2`. */
  lemma {:induction false} DupsWalkSound(c: Conn, e1: Expr, e2: Expr, env: Env)
    requires ValidEnv(env) && BoolsNotMod(env) && WalkOk(c, e1, e2)
    ensures var (r1, r2, _) := DupsWalk(c, e1, e2);
            Combine(c, Value(r1, env), Value(r2, env)) == Combine(c, Value(e1, env), Value(e2, env))
    decreases Size(e1) + Size(e2)
  {
    hide RuleOk, Join, ExprEq;
    if IsConn(e1, c) {
      var (l, e2l, n) := DupsWalk(c, e1.left, e2);
      var (r, e2r, m) := DupsWalk(c, e1.right, e2l);
      DupsWalkSound(c, e1.left, e2, env);
      DupsWalkSound(c, e1.right, e2l, env);
      Rotate3(c, Value(l, env), Value(r, env), Value(e2r, env));
      Rotate3(c, Value(l, env), Value(e1.right, env), Value(e2l, env));
      Rotate3(c, Value(e1.left, env), Value(e1.right, env), Value(e2, env));
    } else if IsConn(e2, c) {
      var (e1l, l, n) := DupsWalk(c, e1, e2.left);
      var (e1r, r, m) := DupsWalk(c, e1l, e2.right);
      DupsWalkSound(c, e1, e2.left, env);
      DupsWalkSound(c, e1l, e2.right, env);
      Rotate3(c, Value(e1r, env), Value(l, env), Value(r, env));
      Rotate3(c, Value(e1l, env), Value(l, env), Value(e2.right, env));
      Rotate3(c, Value(e1, env), Value(e2.left, env), Value(e2.right, env));
    } else if Join(c, e1, e2).Ex? {
      JoinSound(c, e1, e2, env);
    }
  }

  lemma Rotate3(c: Conn, x: Tri, y: Tri, z: Tri)
    ensures Combine(c, Combine(c, x, y), z) == Combine(c, x, Combine(c, y, z))
    ensures Combine(c, x, Combine(c, y, z)) == Combine(c, y, Combine(c, x, z))
    ensures Combine(c, x, Combine(c, y, z)) == Combine(c, Combine(c, x, z), y)
  {
  }

  // ----- the loop -----

  function RightIsYesNo(e: Expr): nat { if e.Bin? && IsYesNo(e.right) then 1 else 0 }

  /** One round of the loop, given the two operands already processed. */
  function Round(c: Conn, l: Expr, r: Expr): (Expr, nat)
  {
    var (l', r', n) := DupsWalk(c, l, r);
    (ElimYn(Bin(c, l', r')), n)
  }

  ghost predicate Below(a: Expr, b: Expr)
  {
    || Leaves(a) < Leaves(b)
    || (Leaves(a) == Leaves(b) &&
        (Size(a) < Size(b) || (Size(a) == Size(b) && RightIsYesNo(a) < RightIsYesNo(b))))
  }

  /**
   A round that joined something makes the expression smaller: fewer leaves, or
   as many leaves and fewer nodes, or a constant on the right moved to the left
   (as in `(y=y) && y`).
   */
  lemma RoundDecreases(e: Expr, l: Expr, r: Expr)
    requires e.Bin? && Clean(l) && Clean(r) && Round(e.conn, l, r).1 > 0
    requires Leaves(l) <= Leaves(e.left) && Size(l) <= Size(e.left)
    requires Leaves(r) <= Leaves(e.right) && Size(r) <= Size(e.right)
    requires !e.right.Bin? ==> r == e.right
    ensures Below(Round(e.conn, l, r).0, e)
  {
    hide DupsWalk, Join, ExprEq;
    var (l', r', n) := DupsWalk(e.conn, l, r);
    var b := Bin(e.conn, l', r');
    DupsWalkFacts(e.conn, l, r);
    ElimYnFacts(b);
    ElimYnFacts(l');
    ElimYnFacts(r');
    if !IsYesNo(l) && !IsYesNo(r) {
      DupsWalkShrinks(e.conn, l, r);
    }
  }

  /** A round without joins between clean operands leaves a clean result. */
  lemma RoundStops(c: Conn, l: Expr, r: Expr)
    requires Clean(l) && Clean(r) && Round(c, l, r).1 == 0
    ensures var e := Round(c, l, r).0;
            && Clean(e) && Leaves(e) <= Leaves(l) + Leaves(r) && Size(e) <= 1 + Size(l) + Size(r)
            && (e == l || e == r || e == Bin(c, l, r))
  {
    DupsWalkFacts(c, l, r);
    ElimYnFacts(Bin(c, l, r));
    ElimYnFacts(l);
    ElimYnFacts(r);
  }

  /** expr_eliminate_dups: rounds until one makes no join. */
  function Dups(e: Expr): (d: Expr)
    ensures Leaves(d) <= Leaves(e) && Size(d) <= Size(e) && Clean(d)
    decreases Leaves(e), Size(e), RightIsYesNo(e)
  {
    if !e.Bin? then e
    else
      var l, r := Dups(e.left), Dups(e.right);
      var (e', n) := Round(e.conn, l, r);
      if n == 0 then
        RoundStops(e.conn, l, r);
        e'
      else
        RoundDecreases(e, l, r);
        DupsWalkFacts(e.conn, l, r);
        RoundBounds(e.conn, l, r);
        Dups(e')
  }

  lemma RoundBounds(c: Conn, l: Expr, r: Expr)
    ensures Size(Round(c, l, r).0) <= 1 + Size(l) + Size(r)
    ensures Leaves(Round(c, l, r).0) <= Leaves(l) + Leaves(r)
  {
    var (l', r', n) := DupsWalk(c, l, r);
    DupsWalkFacts(c, l, r);
    ElimYnFacts(Bin(c, l', r'));
  }

  /** Removing duplicates a second time changes nothing. */
  lemma {:induction false} DupsIdempotent(e: Expr)
    ensures Dups(Dups(e)) == Dups(e)
    decreases Leaves(e), Size(e), RightIsYesNo(e)
  {
    if e.Bin? {
      var l, r := Dups(e.left), Dups(e.right);
      var (e', n) := Round(e.conn, l, r);
      DupsIdempotent(e.left);
      DupsIdempotent(e.right);
      if n == 0 {
        RoundStops(e.conn, l, r);
      } else {
        RoundDecreases(e, l, r);
        DupsIdempotent(e');
      }
    }
  }

  lemma {:induction false} ElimYnPlain(e: Expr)
    requires PlainEqualities(e)
    ensures PlainEqualities(ElimYn(e))
  {
    if e.Bin? {
      ElimYnPlain(e.left);
      ElimYnPlain(e.right);
    }
  }

  lemma {:induction false} DupsPlain(e: Expr)
    requires PlainEqualities(e)
    ensures PlainEqualities(Dups(e)) && DupsOk(e)
    decreases Leaves(e), Size(e), RightIsYesNo(e)
  {
    hide DupsWalk, WalkOk;
    if e.Bin? {
      var l, r := Dups(e.left), Dups(e.right);
      DupsPlain(e.left);
      DupsPlain(e.right);
      var (l', r', n) := DupsWalk(e.conn, l, r);
      DupsWalkPlain(e.conn, l, r);
      PlainWalk(e.conn, l, r);
      ElimYnPlain(Bin(e.conn, l', r'));
      if n > 0 {
        RoundDecreases(e, l, r);
        DupsPlain(Round(e.conn, l, r).0);
      }
    }
  }

  /** No round uses the rule (a='b') && (a!='c') where it is wrong. */
  predicate DupsOk(e: Expr)
    decreases Leaves(e), Size(e), RightIsYesNo(e)
  {
    e.Bin? ==>
      var l, r := Dups(e.left), Dups(e.right);
      && DupsOk(e.left) && DupsOk(e.right) && WalkOk(e.conn, l, r)
      && (Round(e.conn, l, r).1 > 0 ==> (RoundDecreases(e, l, r); DupsOk(Round(e.conn, l, r).0)))
  }

  /** The value is kept in every assignment in which bool symbols are never m. */
  lemma {:induction false} DupsSound(e: Expr, env: Env)
    requires ValidEnv(env) && BoolsNotMod(env) && DupsOk(e)
    ensures Value(Dups(e), env) == Value(e, env)
    decreases Leaves(e), Size(e), RightIsYesNo(e)
  {
    hide DupsWalk, WalkOk;
    if e.Bin? {
      var l, r := Dups(e.left), Dups(e.right);
      DupsSound(e.left, env);
      DupsSound(e.right, env);
      var (l', r', n) := DupsWalk(e.conn, l, r);
      DupsWalkSound(e.conn, l, r, env);
      ElimYnSound(Bin(e.conn, l', r'), env);
      if n > 0 {
        RoundDecreases(e, l, r);
        DupsSound(Round(e.conn, l, r).0, env);
      }
    }
  }
}
