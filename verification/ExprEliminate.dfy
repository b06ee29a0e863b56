/**
 Removal of common operands (expr_eliminate_eq, expr_eq, expr_eliminate_yn).
 The functions are mutually recursive; their results never grow, which is what
 makes the recursion well founded.
 */
module ExprEliminate {
  import opened Expr

  predicate IsConn(e: Expr, c: Conn) { e.Bin? && e.conn == c }

  /** `e->type` equality. */
  predicate SameType(e1: Expr, e2: Expr)
  {
    match (e1, e2)
    case (Sym(_), Sym(_)) => true
    case (Not(_), Not(_)) => true
    case (Bin(c, _, _), Bin(d, _, _)) => c == d
    case (Cmp(o, _, _), Cmp(p, _, _)) => o == p
    case _ => false
  }

  /**
   expr_eliminate_yn. When neither operand simplifies to a constant the original
   node is returned, so simplifications further down are dropped.
   */
  function ElimYn(e: Expr): (r: Expr)
    ensures Size(r) <= Size(e)
  {
    match e
    case Bin(AndOp, el, er) =>
      var l, r := ElimYn(el), ElimYn(er);
      if l == Sym(SymbolNo) then l
      else if l == Sym(SymbolYes) then r
      else if r == Sym(SymbolNo) then r
      else if r == Sym(SymbolYes) then l
      else e
    case Bin(OrOp, el, er) =>
      var l, r := ElimYn(el), ElimYn(er);
      if l == Sym(SymbolNo) then r
      else if l == Sym(SymbolYes) then l
      else if r == Sym(SymbolNo) then l
      else if r == Sym(SymbolYes) then r
      else e
    case _ => e
  }

  /** __expr_eliminate_eq: both expressions after the walk. */
  function ElimLeaves(c: Conn, e1: Expr, e2: Expr): (r: (Expr, Expr))
    ensures Size(r.0) <= Size(e1) && Size(r.1) <= Size(e2)
    decreases Size(e1) + Size(e2), if IsConn(e1, c) || IsConn(e2, c) then 0 else 4
  {
    if IsConn(e1, c) then
      var (l, e2l) := ElimLeaves(c, e1.left, e2);
      var (r, e2r) := ElimLeaves(c, e1.right, e2l);
      (Bin(c, l, r), e2r)
    else if IsConn(e2, c) then
      var (e1l, l) := ElimLeaves(c, e1, e2.left);
      var (e1r, r) := ElimLeaves(c, e1l, e2.right);
      (e1r, Bin(c, l, r))
    else if e1 == e2 && IsYesNo(e1) then (e1, e2)
    else if !ExprEq(e1, e2) then (e1, e2)
    else (Sym(Unit(c)), Sym(Unit(c)))
  }

  /** The two passes of expr_eliminate_eq, before constants are folded. */
  function ElimEqPasses(e1: Expr, e2: Expr): (r: (Expr, Expr))
    ensures Size(r.0) <= Size(e1) && Size(r.1) <= Size(e2)
    decreases Size(e1) + Size(e2), 1
  {
    var (a1, a2) := if e1.Bin? then ElimLeaves(e1.conn, e1, e2) else (e1, e2);
    if a2.Bin? && !SameType(a1, a2) then ElimLeaves(a2.conn, a1, a2) else (a1, a2)
  }

  /** expr_eliminate_eq */
  function ElimEq(e1: Expr, e2: Expr): (r: (Expr, Expr))
    ensures Size(r.0) <= Size(e1) && Size(r.1) <= Size(e2)
    decreases Size(e1) + Size(e2), 2
  {
    var (b1, b2) := ElimEqPasses(e1, e2);
    (ElimYn(b1), ElimYn(b2))
  }

  /** expr_eq on two non-NULL expressions. */
  function ExprEq(e1: Expr, e2: Expr): bool
    decreases Size(e1) + Size(e2), 3
  {
    if !SameType(e1, e2) then false else
    match e1
    case Cmp(_, l, r) => l == e2.lhs && r == e2.rhs
    case Sym(s) => s == e2.sym
    case Not(a) => ExprEq(a, e2.arg)
    case Bin(_, _, _) =>
      var (n1, n2) := ElimEq(e1, e2);
      n1.Sym? && n2.Sym? && n1.sym == n2.sym
  }

  // ----- soundness -----

  lemma {:induction false} ElimYnSound(e: Expr, env: Env)
    requires ValidEnv(env)
    ensures Value(ElimYn(e), env) == Value(e, env)
  {
    if e.Bin? {
      ElimYnSound(e.left, env);
      ElimYnSound(e.right, env);
    }
  }

  /** `v` is `w` with the operand `t` put back. */
  predicate Took(c: Conn, t: Tri, v: Tri, w: Tri) { v == Combine(c, t, w) }

  lemma TookBoth(c: Conn, t1: Tri, v1: Tri, w1: Tri, t2: Tri, v2: Tri, w2: Tri)
    requires Took(c, t1, v1, w1) && Took(c, t2, v2, w2)
    ensures Took(c, Combine(c, t1, t2), Combine(c, v1, v2), Combine(c, w1, w2))
  {
  }

  lemma TookTwice(c: Conn, t1: Tri, v: Tri, t2: Tri, u: Tri, w: Tri)
    requires Took(c, t1, v, u) && Took(c, t2, u, w)
    ensures Took(c, Combine(c, t1, t2), v, w)
  {
  }

  /** Each pass takes one and the same operand `t` away from both expressions. */
  lemma {:induction false} ElimLeavesCommonOperand(c: Conn, e1: Expr, e2: Expr, env: Env) returns (t: Tri)
    requires ValidEnv(env)
    ensures Took(c, t, Value(e1, env), Value(ElimLeaves(c, e1, e2).0, env))
    ensures Took(c, t, Value(e2, env), Value(ElimLeaves(c, e1, e2).1, env))
    decreases Size(e1) + Size(e2), if IsConn(e1, c) || IsConn(e2, c) then 1 else 5
  {
    if IsConn(e1, c) {
      t := ElimLeavesLeft(c, e1, e2, env);
    } else if IsConn(e2, c) {
      t := ElimLeavesRight(c, e1, e2, env);
    } else {
      t := ElimLeavesPair(c, e1, e2, env);
    }
  }

  lemma {:induction false} ElimLeavesPair(c: Conn, e1: Expr, e2: Expr, env: Env) returns (t: Tri)
    requires ValidEnv(env) && !IsConn(e1, c) && !IsConn(e2, c)
    ensures Took(c, t, Value(e1, env), Value(ElimLeaves(c, e1, e2).0, env))
    ensures Took(c, t, Value(e2, env), Value(ElimLeaves(c, e1, e2).1, env))
    decreases Size(e1) + Size(e2), 4
  {
    t := env(Unit(c)).tri;
    if ElimLeaves(c, e1, e2) != (e1, e2) {
      ExprEqSound(e1, e2, env);
      t := Value(e1, env);
    }
  }

  lemma {:induction false} ElimLeavesLeft(c: Conn, e1: Expr, e2: Expr, env: Env) returns (t: Tri)
    requires ValidEnv(env) && IsConn(e1, c)
    ensures Took(c, t, Value(e1, env), Value(ElimLeaves(c, e1, e2).0, env))
    ensures Took(c, t, Value(e2, env), Value(ElimLeaves(c, e1, e2).1, env))
    decreases Size(e1) + Size(e2), 0
  {
    var (l, e2l) := ElimLeaves(c, e1.left, e2);
    var (r, e2r) := ElimLeaves(c, e1.right, e2l);
    var t1 := ElimLeavesCommonOperand(c, e1.left, e2, env);
    var t2 := ElimLeavesCommonOperand(c, e1.right, e2l, env);
    t := Combine(c, t1, t2);
    TookBoth(c, t1, Value(e1.left, env), Value(l, env), t2, Value(e1.right, env), Value(r, env));
    TookTwice(c, t1, Value(e2, env), t2, Value(e2l, env), Value(e2r, env));
  }

  lemma {:induction false} ElimLeavesRight(c: Conn, e1: Expr, e2: Expr, env: Env) returns (t: Tri)
    requires ValidEnv(env) && !IsConn(e1, c) && IsConn(e2, c)
    ensures Took(c, t, Value(e1, env), Value(ElimLeaves(c, e1, e2).0, env))
    ensures Took(c, t, Value(e2, env), Value(ElimLeaves(c, e1, e2).1, env))
    decreases Size(e1) + Size(e2), 0
  {
    var (e1l, l) := ElimLeaves(c, e1, e2.left);
    var (e1r, r) := ElimLeaves(c, e1l, e2.right);
    var t1 := ElimLeavesCommonOperand(c, e1, e2.left, env);
    var t2 := ElimLeavesCommonOperand(c, e1l, e2.right, env);
    t := Combine(c, t1, t2);
    TookBoth(c, t1, Value(e2.left, env), Value(l, env), t2, Value(e2.right, env), Value(r, env));
    TookTwice(c, t1, Value(e1, env), t2, Value(e1l, env), Value(e1r, env));
  }

  /**
   expr_eliminate_eq takes a common and-operand and a common or-operand away; so
   the order of the two values is settled by what is left.
   */
  lemma {:induction false} ElimEqCommonOperands(e1: Expr, e2: Expr, env: Env)
      returns (c1: Conn, t1: Tri, c2: Conn, t2: Tri)
    requires ValidEnv(env)
    ensures Value(e1, env) == Combine(c1, t1, Combine(c2, t2, Value(ElimEq(e1, e2).0, env)))
    ensures Value(e2, env) == Combine(c1, t1, Combine(c2, t2, Value(ElimEq(e1, e2).1, env)))
    decreases Size(e1) + Size(e2), 2
  {
    var (a1, a2) := if e1.Bin? then ElimLeaves(e1.conn, e1, e2) else (e1, e2);
    c1 := if e1.Bin? then e1.conn else OrOp;
    t1 := NO;
    if e1.Bin? {
      t1 := ElimLeavesCommonOperand(c1, e1, e2, env);
    }
    c2, t2 := OrOp, NO;
    if a2.Bin? && !SameType(a1, a2) {
      c2 := a2.conn;
      t2 := ElimLeavesCommonOperand(c2, a1, a2, env);
    }
    var (b1, b2) := ElimEqPasses(e1, e2);
    ElimYnSound(b1, env);
    ElimYnSound(b2, env);
  }

  /** Expressions that expr_eq calls equal have the same value in every assignment. */
  lemma {:induction false} ExprEqSound(e1: Expr, e2: Expr, env: Env)
    requires ValidEnv(env) && ExprEq(e1, e2)
    ensures Value(e1, env) == Value(e2, env)
    decreases Size(e1) + Size(e2), 3
  {
    match e1
    case Cmp(_, _, _) =>
    case Sym(_) =>
    case Not(a) => ExprEqSound(a, e2.arg, env);
    case Bin(_, _, _) =>
      var c1, t1, c2, t2 := ElimEqCommonOperands(e1, e2, env);
  }

  /**
   The "superset" test of _menu_finalize: when nothing but y is left of `e2`
   after the common operands are gone, `e1` is nowhere above `e2`.
   */
  lemma ElimEqSuperset(e1: Expr, e2: Expr, env: Env)
    requires ValidEnv(env) && ElimEq(e1, e2).1 == Sym(SymbolYes)
    ensures Value(e1, env) <= Value(e2, env)
  {
    var c1, t1, c2, t2 := ElimEqCommonOperands(e1, e2, env);
  }
}
