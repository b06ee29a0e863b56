/**
 Which entries the menu finalizer moves below a symbol, told by the operands of their
 dependencies.
 */
module SubmenuLaws {
  import opened Expr
  import opened Symbols
  import opened ExprEliminate
  import opened ExprDups
  import opened ExprTransform
  import opened ExprLaws

  /** expr_contains_symbol finds exactly the symbols of an expression. */
  lemma {:induction false} ContainsLaw(e: Expr, s: Symbol)
    ensures ContainsSymbol(e, s) <==> s in ExprSymbols(e)
  {
    match e
    case Sym(_) =>
    case Cmp(_, _, _) =>
    case Not(a) => ContainsLaw(a, s);
    case Bin(_, l, r) =>
      ContainsLaw(l, s);
      ContainsLaw(r, s);
  }

  /** The forms of an absolute dependency: s, s=y, s=m and s!=n. */
  predicate Absolute(e: Expr, s: Symbol)
  {
    e == Sym(s) || e == Cmp(Eq, s, SymbolYes) || e == Cmp(Eq, s, SymbolMod) || e == Cmp(Ne, s, SymbolNo)
  }

  /** expr_depends_symbol holds exactly when an operand of the conjunction has such a form. */
  lemma {:induction false} DependsLaw(e: Expr, s: Symbol)
    ensures DependsSymbol(e, s) <==> exists a :: a in Operands(AndOp, e) && Absolute(a, s)
  {
    if IsConn(e, AndOp) {
      DependsLaw(e.left, s);
      DependsLaw(e.right, s);
    } else {
      assert Operands(AndOp, e) == [e] && e in [e];
    }
  }

  /**
   expr_eliminate_eq leaves nothing but y of a conjunction of basic operands exactly when the
   other one has them all, equally often; two single operands it does not compare.
   */
  lemma SupersetExact(dep: Expr, base: Expr)
    requires BasicChain(AndOp, base) && !IsConn(dep, OrOp)
    ensures ElimEq(dep, base).1 == Sym(SymbolYes) <==>
            Others(AndOp, base) <= Others(AndOp, dep) && (base == Sym(SymbolYes) || dep.Bin? || base.Bin?)
  {
    hide ElimLeaves, ElimYn, Folded, BasicChain, ExprEq;
    if dep.Bin? || base.Bin? {
      var r := ElimLeaves(AndOp, dep, base);
      BasicNotOr(base);
      OnePassAnd(dep, base);
      ElimLeavesExact(AndOp, dep, base);
      TakenChains(AndOp, dep, base, r.0, r.1);
      FoldedChain(AndOp, r.1);
      NothingLeft(Others(AndOp, dep), Others(AndOp, base), ElimYn(r.1));
    } else {
      SingleBase(dep, base);
    }
  }

  lemma BasicNotOr(e: Expr)
    requires BasicChain(AndOp, e)
    ensures !IsConn(e, OrOp)
  {
  }

  lemma OnePassAnd(e1: Expr, e2: Expr)
    requires !IsConn(e1, OrOp) && !IsConn(e2, OrOp) && (e1.Bin? || e2.Bin?)
    ensures ElimEqPasses(e1, e2) == ElimLeaves(AndOp, e1, e2)
  {
    ElimLeavesShape(AndOp, e1, e2);
    hide ElimLeaves;
  }

  lemma NothingLeft(m: multiset<Expr>, b: multiset<Expr>, f: Expr)
    requires Folded(AndOp, b - m, f)
    ensures f == Sym(SymbolYes) <==> b <= m
  {
    if b - m == multiset{} {
      forall a ensures b[a] <= m[a] {
        assert (b - m)[a] == 0;
      }
    }
  }

  lemma SingleBase(dep: Expr, base: Expr)
    requires BasicChain(AndOp, base) && !dep.Bin? && !base.Bin?
    ensures ElimEq(dep, base).1 == base && (base == Sym(SymbolYes) ==> Others(AndOp, base) <= Others(AndOp, dep))
  {
    hide ElimLeaves, ExprEq;
  }

  /**
   An entry goes below the symbol exactly when its dependency names the symbol, and either a part
   of it is an absolute dependency, or its simplified form has every part of the simplified
   dependency of the symbol's prompt.
   */
  lemma SubmenuExact(sym: Symbol, basedep: OptExpr, dep: Expr)
    requires BasicChain(AndOp, Simplified(basedep)) && !IsConn(Simplified(Ex(dep)), OrOp)
    ensures var d, b := Simplified(Ex(dep)), Simplified(basedep);
            GoesIntoSubmenu(sym, basedep, Ex(dep)) <==>
            && sym in ExprSymbols(dep)
            && ((exists a :: a in Operands(AndOp, dep) && Absolute(a, sym))
                || (Others(AndOp, b) <= Others(AndOp, d) && (b == Sym(SymbolYes) || d.Bin? || b.Bin?)))
  {
    hide ElimEq, Simplified, Others, BasicChain, Operands, ContainsSymbol, DependsSymbol, ExprSymbols;
    ContainsLaw(dep, sym);
    DependsLaw(dep, sym);
    SupersetExact(Simplified(Ex(dep)), Simplified(basedep));
  }

  // ----- the example beside the test -----

  /** Three different tristate symbols. */
  predicate ThreeTristates(s: Symbol, q: Symbol, r: Symbol)
  {
    s.Named? && q.Named? && r.Named? && s.ty == q.ty == r.ty == Tristate && s != q && s != r && q != r
  }

  function NotN(s: Symbol): Expr { Cmp(Ne, s, SymbolNo) }

  lemma SymbolSimplified(r: Symbol)
    requires r.Type() == Tristate
    ensures Simplified(Ex(Sym(r))) == NotN(r)
  {
  }

  lemma OrTransformed(s: Symbol, q: Symbol)
    requires s.Type() == Tristate && q.Type() == Tristate
    ensures TransCompare(Bin(OrOp, Sym(s), Sym(q)), true, SymbolNo) == Bin(AndOp, Cmp(Eq, s, SymbolNo), Cmp(Eq, q, SymbolNo))
    ensures TransCompare(Bin(OrOp, Sym(s), Sym(q)), false, SymbolNo) == Not(Bin(AndOp, Cmp(Eq, s, SymbolNo), Cmp(Eq, q, SymbolNo)))
    ensures Transform(Not(Bin(AndOp, Cmp(Eq, s, SymbolNo), Cmp(Eq, q, SymbolNo)))) == Bin(OrOp, NotN(s), NotN(q))
  {
    var e := Bin(AndOp, Cmp(Eq, s, SymbolNo), Cmp(Eq, q, SymbolNo));
    assert Transform(e) == e;
    var d := DeMorgan(AndOp, e.left, e.right);
    assert Transform(d) == Bin(OrOp, Transform(d.left), Transform(d.right));
    assert Transform(d.left) == NotN(s) && Transform(d.right) == NotN(q);
  }

  lemma AndTransformed(s: Symbol, q: Symbol, r: Symbol)
    requires s.Type() == Tristate && q.Type() == Tristate && r.Type() == Tristate
    ensures Transform(TransCompare(Bin(AndOp, Bin(OrOp, Sym(s), Sym(q)), Sym(r)), false, SymbolNo)) ==
            Bin(AndOp, Bin(OrOp, NotN(s), NotN(q)), NotN(r))
  {
    OrTransformed(s, q);
    var l, rr := Bin(AndOp, Cmp(Eq, s, SymbolNo), Cmp(Eq, q, SymbolNo)), Cmp(Eq, r, SymbolNo);
    var e := Bin(OrOp, l, rr);
    assert TransCompare(Bin(AndOp, Bin(OrOp, Sym(s), Sym(q)), Sym(r)), false, SymbolNo) == Not(e);
    assert Transform(l) == l && Transform(e) == e;
    var d := DeMorgan(OrOp, l, rr);
    assert Transform(Not(e)) == Transform(d);
    assert Transform(d) == Bin(AndOp, Transform(Not(l)), Transform(Not(rr)));
    assert Transform(Not(rr)) == NotN(r);
  }

  lemma OrKept(s: Symbol, q: Symbol)
    requires s.Named? && q.Named? && s != q
    ensures Dups(Bin(OrOp, NotN(s), NotN(q))) == Bin(OrOp, NotN(s), NotN(q))
  {
    hide ExprEq, Dups;
    BasicEq(NotN(s), NotN(q));
    KeptLeaf(NotN(s));
    KeptLeaf(NotN(q));
    assert DupsWalk(OrOp, NotN(s), NotN(q)) == (NotN(s), NotN(q), 0);
    KeptBin(OrOp, NotN(s), NotN(q));
  }

  lemma AndKept(s: Symbol, q: Symbol, r: Symbol)
    requires ThreeTristates(s, q, r)
    ensures Dups(Bin(AndOp, Bin(OrOp, NotN(s), NotN(q)), NotN(r))) == Bin(AndOp, Bin(OrOp, NotN(s), NotN(q)), NotN(r))
  {
    hide ExprEq, Dups;
    var o := Bin(OrOp, NotN(s), NotN(q));
    BasicEq(o, NotN(r));
    KeptLeaf(NotN(r));
    assert DupsWalk(AndOp, o, NotN(r)) == (o, NotN(r), 0);
    OrKept(s, q);
    KeptBin(AndOp, o, NotN(r));
    assert ElimYn(o) == o && ElimYn(NotN(r)) == NotN(r);
  }

  lemma KeptLeaf(e: Expr)
    requires !e.Bin?
    ensures Dups(e) == e
  {
  }

  lemma KeptBin(c: Conn, l: Expr, r: Expr)
    requires Dups(l) == l && Dups(r) == r && DupsWalk(c, l, r) == (l, r, 0)
    ensures Dups(Bin(c, l, r)) == ElimYn(Bin(c, l, r))
  {
    hide DupsWalk;
  }

  lemma OperandsExample(s: Symbol, q: Symbol, r: Symbol)
    requires ThreeTristates(s, q, r)
    ensures Others(AndOp, NotN(r)) <= Others(AndOp, Bin(AndOp, Bin(OrOp, NotN(s), NotN(q)), NotN(r)))
  {
  }

  lemma OrNoSuperset(s: Symbol, q: Symbol, r: Symbol)
    requires ThreeTristates(s, q, r)
    ensures ElimEq(Bin(OrOp, NotN(s), NotN(q)), NotN(r)).1 != Sym(SymbolYes)
  {
    hide ExprEq;
    BasicEq(NotN(s), NotN(r));
    BasicEq(NotN(q), NotN(r));
    assert ElimLeaves(OrOp, Bin(OrOp, NotN(s), NotN(q)), NotN(r)) == (Bin(OrOp, NotN(s), NotN(q)), NotN(r));
  }

  /** `(sym || Q) && R` goes below `sym` when `sym` depends on R; `sym || Q` does not. */
  lemma SupersetExample(sym: Symbol, q: Symbol, r: Symbol)
    requires ThreeTristates(sym, q, r)
    ensures GoesIntoSubmenu(sym, Ex(Sym(r)), Ex(Bin(AndOp, Bin(OrOp, Sym(sym), Sym(q)), Sym(r))))
    ensures !GoesIntoSubmenu(sym, Ex(Sym(r)), Ex(Bin(OrOp, Sym(sym), Sym(q))))
  {
    hide ExprEq, Dups, Transform, TransCompare, ElimEq, Others;
    var or := Bin(OrOp, Sym(sym), Sym(q));
    assert ContainsSymbol(or, sym);
    SymbolSimplified(r);
    OrTransformed(sym, q);
    OrKept(sym, q);
    AndTransformed(sym, q, r);
    AndKept(sym, q, r);
    SupersetExact(Bin(AndOp, Bin(OrOp, NotN(sym), NotN(q)), NotN(r)), NotN(r));
    OperandsExample(sym, q, r);
    OrNoSuperset(sym, q, r);
  }
}
