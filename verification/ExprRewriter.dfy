/**
 The rewriting passes of expr.c in the form they have there: operands rewritten
 in place and rounds repeated while the global counter `trans_count` moves.
 */
module ExprRewriter {
  import opened Expr
  import opened ExprEliminate
  import opened ExprDups

  class Rewriter {
    var transCount: nat

    constructor ()
      ensures transCount == 0
    {
      transCount := 0;
    }

    /** __expr_eliminate_eq */
    method EliminateEqWalk(c: Conn, ep1: Expr, ep2: Expr) returns (e1: Expr, e2: Expr)
      modifies this
      ensures (e1, e2) == ElimLeaves(c, ep1, ep2)
      ensures transCount >= old(transCount)
      decreases Size(ep1) + Size(ep2), if IsConn(ep1, c) || IsConn(ep2, c) then 0 else 4
    {
      e1, e2 := ep1, ep2;
      if IsConn(e1, c) {
        var l, r := e1.left, e1.right;
        l, e2 := EliminateEqWalk(c, l, e2);
        r, e2 := EliminateEqWalk(c, r, e2);
        e1 := Bin(c, l, r);
        return;
      }
      if IsConn(e2, c) {
        var l, r := e2.left, e2.right;
        e1, l := EliminateEqWalk(c, e1, l);
        e1, r := EliminateEqWalk(c, e1, r);
        e2 := Bin(c, l, r);
        return;
      }
      if e1.Sym? && e2.Sym? && e1.sym == e2.sym && (e1.sym == SymbolYes || e1.sym == SymbolNo) {
        return;
      }
      var equal := Equal(e1, e2);
      if !equal {
        return;
      }
      transCount := transCount + 1;
      e1, e2 := Sym(Unit(c)), Sym(Unit(c));
    }

    /** expr_eliminate_eq */
    method EliminateEq(ep1: Expr, ep2: Expr) returns (e1: Expr, e2: Expr)
      modifies this
      ensures (e1, e2) == ElimEq(ep1, ep2)
      ensures transCount >= old(transCount)
      decreases Size(ep1) + Size(ep2), 2
    {
      e1, e2 := ep1, ep2;
      if e1.Bin? {
        e1, e2 := EliminateEqWalk(e1.conn, e1, e2);
      }
      if !SameType(e1, e2) && e2.Bin? {
        e1, e2 := EliminateEqWalk(e2.conn, e1, e2);
      }
      e1, e2 := ElimYn(e1), ElimYn(e2);
    }

    /** expr_eq; the counter is put back. */
    method Equal(ep1: Expr, ep2: Expr) returns (res: bool)
      modifies this
      ensures res == ExprEq(ep1, ep2)
      ensures transCount == old(transCount)
      decreases Size(ep1) + Size(ep2), 3
    {
      if !SameType(ep1, ep2) {
        return false;
      }
      match ep1
      case Cmp(_, l, r) => return l == ep2.lhs && r == ep2.rhs;
      case Sym(s) => return s == ep2.sym;
      case Not(a) => res := Equal(a, ep2.arg);
      case Bin(_, _, _) =>
        var oldCount := transCount;
        var e1, e2 := EliminateEq(ep1, ep2);
        res := e1.Sym? && e2.Sym? && e1.sym == e2.sym;
        transCount := oldCount;
    }

    /** expr_eliminate_dups1: counts one for every join. */
    method EliminateDupsWalk(c: Conn, ep1: Expr, ep2: Expr) returns (e1: Expr, e2: Expr)
      modifies this
      ensures e1 == DupsWalk(c, ep1, ep2).0 && e2 == DupsWalk(c, ep1, ep2).1
      ensures transCount == old(transCount) + DupsWalk(c, ep1, ep2).2
      decreases Size(ep1) + Size(ep2)
    {
      e1, e2 := ep1, ep2;
      if IsConn(e1, c) {
        var l, r := e1.left, e1.right;
        l, e2 := EliminateDupsWalk(c, l, e2);
        r, e2 := EliminateDupsWalk(c, r, e2);
        e1 := Bin(c, l, r);
        return;
      }
      if IsConn(e2, c) {
        var l, r := e2.left, e2.right;
        e1, l := EliminateDupsWalk(c, e1, l);
        e1, r := EliminateDupsWalk(c, e1, r);
        e2 := Bin(c, l, r);
        return;
      }
      var tmp := Join(c, e1, e2);
      if tmp.Ex? {
        e1, e2 := Sym(Unit(c)), tmp.e;
        transCount := transCount + 1;
      }
    }

    /** expr_eliminate_dups: rounds until the counter stays at zero; it is put back afterwards. */
    method EliminateDups(e0: Expr) returns (e: Expr)
      modifies this
      ensures e == Dups(e0)
      ensures transCount == old(transCount)
      decreases Leaves(e0), Size(e0), RightIsYesNo(e0)
    {
      e := e0;
      var oldCount := transCount;
      while true
        invariant Dups(e) == Dups(e0)
        invariant e == e0 || Below(e, e0)
        decreases Leaves(e), Size(e), RightIsYesNo(e)
      {
        ghost var before := e;
        transCount := 0;
        if e.Bin? {
          var l := EliminateDups(e.left);
          var r := EliminateDups(e.right);
          ghost var l0, r0 := l, r;
          l, r := EliminateDupsWalk(e.conn, l, r);
          e := Bin(e.conn, l, r);
          assert ElimYn(e) == Round(before.conn, l0, r0).0 && transCount == Round(before.conn, l0, r0).1;
          if transCount > 0 {
            RoundDecreases(before, l0, r0);
          }
        }
        e := ElimYn(e);
        if transCount == 0 {
          break;
        }
      }
      ElimYnFacts(e);
      transCount := oldCount;
    }
  }
}
