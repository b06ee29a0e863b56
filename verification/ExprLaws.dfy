/**
 That the passes over expressions find what they look for: equal operands are told to be
 equal, none is left in common, and none is left twice.
 */
module ExprLaws {
  import opened Expr
  import opened ExprEliminate
  import opened ExprDups

  /** The operands of the and-chain or or-chain that `e` is, from left to right. */
  function Operands(c: Conn, e: Expr): (r: seq<Expr>)
    ensures |r| > 0 && forall k {:trigger r[k]} :: 0 <= k < |r| ==> !IsConn(r[k], c)
  {
    if IsConn(e, c) then Operands(c, e.left) + Operands(c, e.right) else [e]
  }

  /** A symbol, a comparison, or a negated one. */
  predicate Basic(e: Expr)
  {
    e.Sym? || e.Cmp? || (e.Not? && (e.arg.Sym? || e.arg.Cmp?))
  }

  /** Of these, expr_eq calls equal what is the same. */
  lemma BasicEq(e1: Expr, e2: Expr)
    requires Basic(e1) || Basic(e2)
    ensures ExprEq(e1, e2) <==> e1 == e2
  {
  }

  // ----- no operand is left in common -----

  /** Operands that are called equal are the constant y or n. */
  ghost predicate NothingCommon(xs: seq<Expr>, ys: seq<Expr>)
  {
    forall a, b :: a in xs && b in ys && ExprEq(a, b) ==> a == b && IsYesNo(a)
  }

  /** Operands of the result are operands of the input, or the neutral constant. */
  lemma {:induction false} OperandsLeft(c: Conn, e1: Expr, e2: Expr)
    ensures forall a :: a in Operands(c, ElimLeaves(c, e1, e2).0) ==> a in Operands(c, e1) || a == Sym(Unit(c))
    ensures forall b :: b in Operands(c, ElimLeaves(c, e1, e2).1) ==> b in Operands(c, e2) || b == Sym(Unit(c))
    decreases Size(e1) + Size(e2)
  {
    if IsConn(e1, c) {
      OperandsLeft(c, e1.left, e2);
      OperandsLeft(c, e1.right, ElimLeaves(c, e1.left, e2).1);
    } else if IsConn(e2, c) {
      OperandsLeft(c, e1, e2.left);
      OperandsLeft(c, ElimLeaves(c, e1, e2.left).0, e2.right);
    }
  }

  lemma UnitEq(c: Conn, a: Expr)
    ensures ExprEq(a, Sym(Unit(c))) || ExprEq(Sym(Unit(c)), a) ==> a == Sym(Unit(c)) && IsYesNo(a)
  {
  }

  lemma LessCommon(c: Conn, xs: seq<Expr>, ys: seq<Expr>, xs': seq<Expr>, ys': seq<Expr>)
    requires NothingCommon(xs, ys)
    requires forall a :: a in xs' ==> a in xs || a == Sym(Unit(c))
    requires forall b :: b in ys' ==> b in ys || b == Sym(Unit(c))
    ensures NothingCommon(xs', ys')
  {
    hide ExprEq;
    forall a, b | a in xs' && b in ys' && ExprEq(a, b) ensures a == b && IsYesNo(a) {
      if a == Sym(Unit(c)) {
        UnitEq(c, b);
      } else if b == Sym(Unit(c)) {
        UnitEq(c, a);
      }
    }
  }

  lemma {:induction false} ElimLeavesComplete(c: Conn, e1: Expr, e2: Expr)
    ensures NothingCommon(Operands(c, ElimLeaves(c, e1, e2).0), Operands(c, ElimLeaves(c, e1, e2).1))
    decreases Size(e1) + Size(e2)
  {
    hide ExprEq, NothingCommon;
    var (r1, r2) := ElimLeaves(c, e1, e2);
    if IsConn(e1, c) {
      var (l, e2l) := ElimLeaves(c, e1.left, e2);
      var (r, e2r) := ElimLeaves(c, e1.right, e2l);
      ElimLeavesComplete(c, e1.left, e2);
      ElimLeavesComplete(c, e1.right, e2l);
      OperandsLeft(c, e1.right, e2l);
      LessCommon(c, Operands(c, l), Operands(c, e2l), Operands(c, l), Operands(c, e2r));
      CommonLeft(Operands(c, l), Operands(c, r), Operands(c, e2r));
    } else if IsConn(e2, c) {
      var (e1l, l) := ElimLeaves(c, e1, e2.left);
      var (e1r, r) := ElimLeaves(c, e1l, e2.right);
      ElimLeavesComplete(c, e1, e2.left);
      ElimLeavesComplete(c, e1l, e2.right);
      OperandsLeft(c, e1l, e2.right);
      LessCommon(c, Operands(c, e1l), Operands(c, l), Operands(c, e1r), Operands(c, l));
      CommonRight(Operands(c, e1r), Operands(c, l), Operands(c, r));
    } else {
      LeavesComplete(c, e1, e2);
    }
  }

  lemma CommonLeft(xs: seq<Expr>, ys: seq<Expr>, cs: seq<Expr>)
    requires NothingCommon(xs, cs) && NothingCommon(ys, cs)
    ensures NothingCommon(xs + ys, cs)
  {
    hide ExprEq;
  }

  lemma CommonRight(xs: seq<Expr>, ys: seq<Expr>, cs: seq<Expr>)
    requires NothingCommon(xs, ys) && NothingCommon(xs, cs)
    ensures NothingCommon(xs, ys + cs)
  {
    hide ExprEq;
  }

  lemma LeavesComplete(c: Conn, e1: Expr, e2: Expr)
    requires !IsConn(e1, c) && !IsConn(e2, c)
    ensures NothingCommon(Operands(c, ElimLeaves(c, e1, e2).0), Operands(c, ElimLeaves(c, e1, e2).1))
  {
  }

  /** So no symbol, comparison or negated one, other than y and n, is left in both chains. */
  lemma ElimLeavesDisjoint(c: Conn, e1: Expr, e2: Expr, a: Expr)
    requires Basic(a) && !IsYesNo(a)
    ensures var (r1, r2) := ElimLeaves(c, e1, e2); !(a in Operands(c, r1) && a in Operands(c, r2))
  {
    hide ExprEq;
    ElimLeavesComplete(c, e1, e2);
    BasicEq(a, a);
  }

  // ----- chains of basic operands are compared as multisets -----

  /** The operands other than the neutral constant, with how often they occur. */
  function Others(c: Conn, e: Expr): multiset<Expr>
  {
    if IsConn(e, c) then Others(c, e.left) + Others(c, e.right)
    else if e == Sym(Unit(c)) then multiset{} else multiset{e}
  }

  /** All operands are basic, and none is the absorbing constant. */
  predicate BasicChain(c: Conn, e: Expr)
  {
    if IsConn(e, c) then BasicChain(c, e.left) && BasicChain(c, e.right)
    else Basic(e) && (IsYesNo(e) ==> e == Sym(Unit(c)))
  }

  /** `r1` and `r2` are what is left of `e1` and `e2` without the operands that both have, counted one by one. */
  ghost predicate TakenOut(c: Conn, e1: Expr, e2: Expr, r1: Expr, r2: Expr)
  {
    && (BasicChain(c, e1) ==> BasicChain(c, r1)) && BasicChain(c, r2)
    && Others(c, r1) == Others(c, e1) - Others(c, e2)
    && Others(c, r2) == Others(c, e2) - Others(c, e1)
  }

  /** The walk takes out what the chains have in common, as often as both have it, if one has basic operands only. */
  lemma {:induction false} ElimLeavesExact(c: Conn, e1: Expr, e2: Expr)
    requires BasicChain(c, e2)
    ensures TakenOut(c, e1, e2, ElimLeaves(c, e1, e2).0, ElimLeaves(c, e1, e2).1)
    decreases Size(e1) + Size(e2)
  {
    hide ExprEq, TakenOut, Others, ElimYn;
    if IsConn(e1, c) {
      var (l, e2l) := ElimLeaves(c, e1.left, e2);
      var (r, e2r) := ElimLeaves(c, e1.right, e2l);
      ElimLeavesExact(c, e1.left, e2);
      TakenChains(c, e1.left, e2, l, e2l);
      ElimLeavesExact(c, e1.right, e2l);
      TakenLeft(c, e1, e2, l, e2l, r, e2r);
    } else if IsConn(e2, c) {
      var (e1l, l) := ElimLeaves(c, e1, e2.left);
      var (e1r, r) := ElimLeaves(c, e1l, e2.right);
      ElimLeavesExact(c, e1, e2.left);
      TakenChains(c, e1, e2.left, e1l, l);
      ElimLeavesExact(c, e1l, e2.right);
      TakenRight(c, e1, e2, e1l, l, e1r, r);
    } else {
      TakenPair(c, e1, e2);
    }
  }

  lemma TakenChains(c: Conn, e1: Expr, e2: Expr, r1: Expr, r2: Expr)
    requires TakenOut(c, e1, e2, r1, r2)
    ensures (BasicChain(c, e1) ==> BasicChain(c, r1)) && BasicChain(c, r2)
  {
  }

  lemma TakenLeft(c: Conn, e1: Expr, e2: Expr, l: Expr, e2l: Expr, r: Expr, e2r: Expr)
    requires IsConn(e1, c) && TakenOut(c, e1.left, e2, l, e2l) && TakenOut(c, e1.right, e2l, r, e2r)
    ensures TakenOut(c, e1, e2, Bin(c, l, r), e2r)
  {
    TakeTwice(Others(c, e1.left), Others(c, e1.right), Others(c, e2));
  }

  lemma TakenRight(c: Conn, e1: Expr, e2: Expr, e1l: Expr, l: Expr, e1r: Expr, r: Expr)
    requires IsConn(e2, c) && TakenOut(c, e1, e2.left, e1l, l) && TakenOut(c, e1l, e2.right, e1r, r)
    ensures TakenOut(c, e1, e2, e1r, Bin(c, l, r))
  {
    TakeTwice(Others(c, e2.left), Others(c, e2.right), Others(c, e1));
  }

  lemma TakenPair(c: Conn, e1: Expr, e2: Expr)
    requires BasicChain(c, e2) && !IsConn(e1, c) && !IsConn(e2, c)
    ensures TakenOut(c, e1, e2, ElimLeaves(c, e1, e2).0, ElimLeaves(c, e1, e2).1)
  {
    hide ElimLeaves, ExprEq, ElimYn, Others, BasicChain;
    BasicPair(c, e1, e2);
    if e1 == e2 {
      UnitChain(c);
      NothingOver(Others(c, e1));
    } else {
      OthersLeaf(c, e1);
      OthersLeaf(c, e2);
      Apart(e1, e2, Others(c, e1), Others(c, e2));
    }
  }

  lemma NothingOver(m: multiset<Expr>)
    ensures m - m == multiset{}
  {
  }

  lemma Apart(a: Expr, b: Expr, ma: multiset<Expr>, mb: multiset<Expr>)
    requires a != b && (ma == multiset{} || ma == multiset{a}) && (mb == multiset{} || mb == multiset{b})
    ensures ma - mb == ma && mb - ma == mb
  {
  }

  lemma UnitChain(c: Conn)
    ensures BasicChain(c, Sym(Unit(c))) && Others(c, Sym(Unit(c))) == multiset{}
  {
  }

  lemma OthersLeaf(c: Conn, e: Expr)
    requires !IsConn(e, c)
    ensures Others(c, e) == if e == Sym(Unit(c)) then multiset{} else multiset{e}
  {
  }

  /** A pair of equal operands becomes a pair of neutral constants. */
  lemma BasicPair(c: Conn, e1: Expr, e2: Expr)
    requires BasicChain(c, e2) && !IsConn(e1, c) && !IsConn(e2, c)
    ensures ElimLeaves(c, e1, e2) == if e1 == e2 then (Sym(Unit(c)), Sym(Unit(c))) else (e1, e2)
  {
    hide ExprEq, ElimYn;
    BasicEq(e1, e2);
  }

  lemma TakeTwice(l: multiset<Expr>, r: multiset<Expr>, m: multiset<Expr>)
    ensures (l - m) + (r - (m - l)) == (l + r) - m && (m - l) - r == m - (l + r)
  {
  }

  /** The walk leaves chains chains and other expressions others. */
  lemma {:induction false} ElimLeavesShape(c: Conn, e1: Expr, e2: Expr)
    ensures IsConn(ElimLeaves(c, e1, e2).0, c) == IsConn(e1, c) && IsConn(ElimLeaves(c, e1, e2).1, c) == IsConn(e2, c)
    ensures (ElimLeaves(c, e1, e2).0.Bin? ==> e1.Bin?) && (ElimLeaves(c, e1, e2).1.Bin? ==> e2.Bin?)
    decreases Size(e1) + Size(e2)
  {
    hide ExprEq, ElimYn;
    if IsConn(e1, c) {
      ElimLeavesShape(c, e1.left, e2);
      ElimLeavesShape(c, e1.right, ElimLeaves(c, e1.left, e2).1);
    } else if IsConn(e2, c) {
      ElimLeavesShape(c, e1, e2.left);
      ElimLeavesShape(c, ElimLeaves(c, e1, e2.left).0, e2.right);
    }
  }

  /** What folding constants makes of a chain of the operands `m`. */
  ghost predicate Folded(c: Conn, m: multiset<Expr>, r: Expr)
  {
    if m == multiset{} then r == Sym(Unit(c))
    else if m == multiset{r} then Basic(r) && !IsYesNo(r)
    else r.Bin? && |m| > 1
  }

  /** Folding constants leaves the neutral constant, the one other operand, or a chain. */
  lemma {:induction false} FoldedChain(c: Conn, e: Expr)
    requires BasicChain(c, e)
    ensures Folded(c, Others(c, e), ElimYn(e))
  {
    hide Folded;
    if IsConn(e, c) {
      FoldedChain(c, e.left);
      FoldedChain(c, e.right);
      FoldedPair(c, e.left, e.right);
    } else {
      FoldedLeaf(c, e);
    }
  }

  lemma FoldedLeaf(c: Conn, e: Expr)
    requires BasicChain(c, e) && !IsConn(e, c)
    ensures Folded(c, Others(c, e), ElimYn(e))
  {
  }

  lemma FoldedPair(c: Conn, l: Expr, r: Expr)
    requires Folded(c, Others(c, l), ElimYn(l)) && Folded(c, Others(c, r), ElimYn(r))
    ensures Folded(c, Others(c, Bin(c, l, r)), ElimYn(Bin(c, l, r)))
  {
    hide Others, ElimYn;
    OthersBin(c, l, r);
    ElimYnBin(c, l, r);
    FoldedSum(c, Others(c, l), ElimYn(l), Others(c, r), ElimYn(r), Bin(c, l, r));
  }

  lemma OthersBin(c: Conn, l: Expr, r: Expr)
    ensures Others(c, Bin(c, l, r)) == Others(c, l) + Others(c, r)
  {
  }

  lemma ElimYnBin(c: Conn, l: Expr, r: Expr)
    requires Folded(c, Others(c, l), ElimYn(l)) && Folded(c, Others(c, r), ElimYn(r))
    ensures ElimYn(Bin(c, l, r)) ==
            if ElimYn(l) == Sym(Unit(c)) then ElimYn(r) else if ElimYn(r) == Sym(Unit(c)) then ElimYn(l) else Bin(c, l, r)
  {
    hide Others;
  }

  lemma FoldedSum(c: Conn, ml: multiset<Expr>, fl: Expr, mr: multiset<Expr>, fr: Expr, e: Expr)
    requires Folded(c, ml, fl) && Folded(c, mr, fr) && e.Bin?
    ensures Folded(c, ml + mr, if fl == Sym(Unit(c)) then fr else if fr == Sym(Unit(c)) then fl else e)
  {
    if fl == Sym(Unit(c)) {
      assert ml == multiset{} && ml + mr == mr;
    } else if fr == Sym(Unit(c)) {
      assert mr == multiset{} && ml + mr == ml;
    } else {
      assert ml != multiset{} && mr != multiset{};
      assert |ml + mr| == |ml| + |mr|;
    }
  }

  /** Two chains of basic operands are called equal exactly when they have the same operands, equally often. */
  lemma ChainEqExact(c: Conn, e1: Expr, e2: Expr)
    requires IsConn(e1, c) && IsConn(e2, c) && BasicChain(c, e1) && BasicChain(c, e2)
    ensures ExprEq(e1, e2) <==> Others(c, e1) == Others(c, e2)
  {
    var r := ElimLeaves(c, e1, e2);
    ElimLeavesExact(c, e1, e2);
    TakenChains(c, e1, e2, r.0, r.1);
    OnePass(c, e1, e2);
    hide ElimLeaves, ExprEq, ElimYn, BasicChain, Folded;
    FoldedChain(c, r.0);
    FoldedChain(c, r.1);
    SameWhenNothingLeft(c, Others(c, e1), Others(c, e2), ElimYn(r.0), ElimYn(r.1));
  }

  /** On two chains of one kind expr_eliminate_eq makes one pass. */
  lemma OnePass(c: Conn, e1: Expr, e2: Expr)
    requires IsConn(e1, c) && IsConn(e2, c)
    ensures var (r1, r2) := ElimLeaves(c, e1, e2);
            ExprEq(e1, e2) <==> ElimYn(r1).Sym? && ElimYn(r1) == ElimYn(r2)
  {
    ElimLeavesShape(c, e1, e2);
    var (r1, r2) := ElimLeaves(c, e1, e2);
    hide ElimLeaves, ElimYn;
    assert ElimEqPasses(e1, e2) == (r1, r2);
  }

  lemma SameWhenNothingLeft(c: Conn, m1: multiset<Expr>, m2: multiset<Expr>, f1: Expr, f2: Expr)
    requires Folded(c, m1 - m2, f1) && Folded(c, m2 - m1, f2)
    ensures (f1.Sym? && f1 == f2) <==> m1 == m2
  {
    Differ(m1, m2);
  }

  lemma Differ(m1: multiset<Expr>, m2: multiset<Expr>)
    ensures m1 - m2 == multiset{} && m2 - m1 == multiset{} <==> m1 == m2
    ensures forall a :: !(a in m1 - m2 && a in m2 - m1)
  {
    if m1 - m2 == multiset{} && m2 - m1 == multiset{} {
      forall a ensures m1[a] == m2[a] {
        assert (m1 - m2)[a] == 0 && (m2 - m1)[a] == 0;
      }
    }
  }

  /** A repeated operand makes a difference, although every operand of one equals some operand of the other. */
  lemma RepeatedOperand(a: Symbol, b: Symbol)
    requires a.Named? && b.Named? && a != b
    ensures !ExprEq(Bin(OrOp, Bin(OrOp, Sym(a), Sym(a)), Sym(b)), Bin(OrOp, Sym(a), Sym(b)))
  {
    hide ExprEq;
    var l := Bin(OrOp, Sym(a), Sym(a));
    assert Others(OrOp, l) == multiset{Sym(a), Sym(a)} && BasicChain(OrOp, l);
    var e1, e2 := Bin(OrOp, l, Sym(b)), Bin(OrOp, Sym(a), Sym(b));
    ChainEqExact(OrOp, e1, e2);
    assert Others(OrOp, e1)[Sym(a)] == 2 && Others(OrOp, e2)[Sym(a)] == 1;
  }

  /** The operands that are counted are those of the chain other than the neutral constant. */
  lemma OthersAre(c: Conn, e: Expr, a: Expr)
    requires a != Sym(Unit(c))
    ensures a in Others(c, e) <==> a in Operands(c, e)
  {
    if IsConn(e, c) {
      OthersAre(c, e.left, a);
      OthersAre(c, e.right, a);
    }
  }

  // ----- no operand is left twice -----

  /** A walk that joins nothing has compared all operands of one side with all of the other. */
  lemma {:induction false} WalkComplete(c: Conn, e1: Expr, e2: Expr)
    requires DupsWalk(c, e1, e2).2 == 0
    ensures forall a, b :: a in Operands(c, e1) && b in Operands(c, e2) ==> Join(c, a, b).Null?
    decreases Size(e1) + Size(e2)
  {
    hide Join, ExprEq;
    if IsConn(e1, c) {
      DupsWalkIdle(c, e1.left, e2);
      WalkComplete(c, e1.left, e2);
      WalkComplete(c, e1.right, e2);
    } else if IsConn(e2, c) {
      DupsWalkIdle(c, e1, e2.left);
      WalkComplete(c, e1, e2.left);
      WalkComplete(c, e1, e2.right);
    }
  }

  /** At every connective, no operand on the left can be joined with one on the right. */
  ghost predicate Joined(e: Expr)
  {
    e.Bin? ==>
      && (forall a, b :: a in Operands(e.conn, e.left) && b in Operands(e.conn, e.right) ==> Join(e.conn, a, b).Null?)
      && Joined(e.left) && Joined(e.right)
  }

  lemma {:induction false} DupsJoined(e: Expr)
    ensures Joined(Dups(e))
    decreases Leaves(e), Size(e), RightIsYesNo(e)
  {
    hide DupsWalk, Join;
    if e.Bin? {
      var l, r := Dups(e.left), Dups(e.right);
      var (e', n) := Round(e.conn, l, r);
      DupsJoined(e.left);
      DupsJoined(e.right);
      if n == 0 {
        RoundStops(e.conn, l, r);
        WalkComplete(e.conn, l, r);
      } else {
        RoundDecreases(e, l, r);
        DupsJoined(e');
      }
    }
  }

  /** Two different places of one chain do not hold operands that can be joined. */
  lemma {:induction false} ChainJoined(c: Conn, e: Expr, i: nat, j: nat)
    requires Joined(e) && i < j < |Operands(c, e)|
    ensures Join(c, Operands(c, e)[i], Operands(c, e)[j]).Null?
  {
    hide Join;
    var n := |Operands(c, e.left)|;
    if j < n {
      ChainJoined(c, e.left, i, j);
    } else if i >= n {
      ChainJoined(c, e.right, i - n, j - n);
    } else {
      assert Operands(c, e)[i] == Operands(c, e.left)[i] && Operands(c, e)[j] == Operands(c, e.right)[j - n];
    }
  }

  /** `d` is `e`, or an operand of a chain of it, or an operand of a chain of one, and so on. */
  predicate Within(d: Expr, e: Expr)
  {
    d == e || (e.Bin? && (Within(d, e.left) || Within(d, e.right)))
  }

  lemma {:induction false} WithinJoined(d: Expr, e: Expr)
    requires Joined(e) && Within(d, e)
    ensures Joined(d)
  {
    hide Join;
    if d != e {
      if Within(d, e.left) {
        WithinJoined(d, e.left);
      } else {
        WithinJoined(d, e.right);
      }
    }
  }

  /**
   After expr_eliminate_dups no chain, however deep in the expression, holds the same symbol,
   comparison or negated one in two places.
   */
  lemma DupsNoRepeats(e: Expr, c: Conn, d: Expr, i: nat, j: nat)
    requires Within(d, Dups(e)) && i < j < |Operands(c, d)| && Basic(Operands(c, d)[i])
    ensures Operands(c, d)[i] != Operands(c, d)[j]
  {
    hide Joined, Dups;
    DupsJoined(e);
    WithinJoined(d, Dups(e));
    ChainJoined(c, d, i, j);
    BasicEq(Operands(c, d)[i], Operands(c, d)[j]);
  }

  // ----- the join rules are used -----

  /** What becomes of two comparisons of one and the same tristate symbol. */
  lemma OrRulesFire(s: Symbol)
    requires s.Type() == Tristate
    ensures Join(OrOp, Cmp(Eq, s, SymbolYes), Cmp(Eq, s, SymbolMod)) == Ex(Cmp(Ne, s, SymbolNo))
    ensures Join(OrOp, Cmp(Eq, s, SymbolYes), Cmp(Eq, s, SymbolNo)) == Ex(Cmp(Ne, s, SymbolMod))
    ensures Join(OrOp, Cmp(Eq, s, SymbolMod), Cmp(Eq, s, SymbolNo)) == Ex(Cmp(Ne, s, SymbolYes))
  {
  }

  lemma AndRulesFire(s: Symbol)
    requires s.Type() == Tristate
    ensures Join(AndOp, Cmp(Ne, s, SymbolYes), Cmp(Ne, s, SymbolNo)) == Ex(Cmp(Eq, s, SymbolMod))
    ensures Join(AndOp, Cmp(Ne, s, SymbolYes), Cmp(Ne, s, SymbolMod)) == Ex(Cmp(Eq, s, SymbolNo))
    ensures Join(AndOp, Cmp(Eq, s, SymbolYes), Cmp(Ne, s, SymbolNo)) == Ex(Cmp(Eq, s, SymbolYes))
    ensures Join(AndOp, Cmp(Eq, s, SymbolYes), Cmp(Ne, s, SymbolYes)) == Ex(Sym(SymbolNo))
  {
  }

  /** And of a comparison with the symbol itself, be it bool or tristate. */
  lemma SymbolRulesFire(s: Symbol)
    requires s.Type() == Tristate || s.Type() == Boolean
    ensures Join(AndOp, Sym(s), Cmp(Eq, s, SymbolYes)) == Ex(Cmp(Eq, s, SymbolYes))
    ensures Join(AndOp, Sym(s), Cmp(Ne, s, SymbolNo)) == Ex(Sym(s))
    ensures Join(AndOp, Sym(s), Cmp(Ne, s, SymbolMod)) == Ex(Cmp(Eq, s, SymbolYes))
  {
  }

  /** A bool symbol or its negation. */
  lemma BoolRuleFires(s: Symbol)
    requires s.Type() == Boolean
    ensures Join(OrOp, Sym(s), Not(Sym(s))) == Ex(Sym(SymbolYes)) && Join(OrOp, Not(Sym(s)), Sym(s)) == Ex(Sym(SymbolYes))
  {
  }
}
