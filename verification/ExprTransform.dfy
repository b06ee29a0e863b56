/**
 Negation pushing and explicit comparisons (expr_transform, expr_trans_compare,
 expr_contains_symbol, expr_depends_symbol) and the submenu test built on them.
 */
module ExprTransform {
  import opened Expr
  import opened ExprEliminate
  import opened ExprDups

  // ----- expr_transform -----

  /** Twice as heavy below a NOT, so that De Morgan's rules lose weight. */
  function Weight(e: Expr): (n: nat)
    ensures n >= 1
  {
    match e
    case Sym(_) => 1
    case Cmp(_, _, _) => 3
    case Not(a) => 1 + 2 * Weight(a)
    case Bin(_, l, r) => 2 + Weight(l) + Weight(r)
  }

  function Opposite(op: CmpOp): CmpOp
  {
    match op
    case Eq => Ne case Ne => Eq
    case Le => Gt case Gt => Le
    case Ge => Lt case Lt => Ge
  }

  /** A comparison of a bool symbol with a constant needs no comparison. */
  function TransformCmp(op: CmpOp, l: Symbol, r: Symbol): (t: Expr)
    ensures Weight(t) <= 3
  {
    if l.Type() != Boolean then Cmp(op, l, r)
    else if op == Eq && r == SymbolNo then Not(Sym(l))
    else if op == Eq && r == SymbolMod then Sym(SymbolNo)
    else if op == Eq && r == SymbolYes then Sym(l)
    else if op == Ne && r == SymbolNo then Sym(l)
    else if op == Ne && r == SymbolMod then Sym(SymbolYes)
    else if op == Ne && r == SymbolYes then Not(Sym(l))
    else Cmp(op, l, r)
  }

  function NegateSymbol(s: Symbol): Expr
  {
    match s
    case SymbolYes => Sym(SymbolNo)
    case SymbolMod => Sym(SymbolMod)
    case SymbolNo => Sym(SymbolYes)
    case Named(_, _, _) => Not(Sym(s))
  }

  /** !(l c r), with the NOT pushed below the dual connective. */
  function DeMorgan(c: Conn, l: Expr, r: Expr): Expr { Bin(Other(c), Not(l), Not(r)) }

  lemma DeMorganLighter(c: Conn, l: Expr, r: Expr)
    ensures Weight(DeMorgan(c, l, r)) < 1 + 2 * Weight(Bin(c, l, r))
  {
    assert Weight(Not(l)) == 1 + 2 * Weight(l) && Weight(Not(r)) == 1 + 2 * Weight(r);
  }

  lemma DeMorganValue(c: Conn, l: Expr, r: Expr, env: Env)
    ensures Value(DeMorgan(c, l, r), env) == 2 - Value(Bin(c, l, r), env)
  {
    assert Value(Not(l), env) == 2 - Value(l, env) && Value(Not(r), env) == 2 - Value(r, env);
  }

  /** expr_transform; the result of De Morgan's rules is transformed again. */
  function Transform(e: Expr): (t: Expr)
    ensures Weight(t) <= Weight(e)
    decreases Weight(e)
  {
    match e
    case Sym(_) => e
    case Cmp(op, l, r) => TransformCmp(op, l, r)
    case Bin(c, l, r) => Bin(c, Transform(l), Transform(r))
    case Not(a0) =>
      match Transform(a0)
      case Not(b) => b
      case Cmp(op, l, r) => Cmp(Opposite(op), l, r)
      case Bin(c, l, r) => DeMorganLighter(c, l, r); Transform(DeMorgan(c, l, r))
      case Sym(s) => NegateSymbol(s)
  }

  /** What expr_transform leaves: NOT stands only over symbols other than y, m, n. */
  predicate Normal(e: Expr)
  {
    match e
    case Sym(_) => true
    case Cmp(op, l, r) => !(l.Type() == Boolean && (op == Eq || op == Ne) && IsTriConst(r))
    case Not(a) => a.Sym? && a.sym.Named?
    case Bin(_, l, r) => Normal(l) && Normal(r)
  }

  lemma {:induction false} TransformNormal(e: Expr)
    ensures Normal(Transform(e))
    decreases Weight(e)
  {
    match e
    case Sym(_) =>
    case Cmp(_, l, _) => assert l.Type() == Boolean ==> l.Named?;
    case Bin(_, l, r) =>
      TransformNormal(l);
      TransformNormal(r);
    case Not(a0) =>
      TransformNormal(a0);
      var a := Transform(a0);
      if a.Bin? {
        DeMorganLighter(a.conn, a.left, a.right);
        TransformNormal(DeMorgan(a.conn, a.left, a.right));
      }
  }

  lemma {:induction false} NormalFixed(e: Expr)
    requires Normal(e)
    ensures Transform(e) == e
  {
    if e.Bin? {
      NormalFixed(e.left);
      NormalFixed(e.right);
    }
  }

  lemma TransformIdempotent(e: Expr)
    ensures Transform(Transform(e)) == Transform(e)
  {
    TransformNormal(e);
    NormalFixed(Transform(e));
  }

  lemma TransformCmpSound(op: CmpOp, l: Symbol, r: Symbol, env: Env)
    requires ValidEnv(env) && BoolsNotMod(env)
    ensures Value(TransformCmp(op, l, r), env) == Value(Cmp(op, l, r), env)
  {
    if l.Type() == Boolean {
      EqualityValues(l, env);
    }
  }

  lemma {:induction false} TransformSound(e: Expr, env: Env)
    requires ValidEnv(env) && BoolsNotMod(env)
    ensures Value(Transform(e), env) == Value(e, env)
    decreases Weight(e)
  {
    match e
    case Sym(_) =>
    case Cmp(op, l, r) => TransformCmpSound(op, l, r, env);
    case Bin(_, l, r) =>
      TransformSound(l, env);
      TransformSound(r, env);
    case Not(a0) =>
      TransformSound(a0, env);
      var a := Transform(a0);
      if a.Bin? {
        DeMorganLighter(a.conn, a.left, a.right);
        DeMorganValue(a.conn, a.left, a.right, env);
        TransformSound(DeMorgan(a.conn, a.left, a.right), env);
      }
  }

  lemma {:induction false} TransformPlain(e: Expr)
    requires PlainEqualities(e)
    ensures PlainEqualities(Transform(e))
    decreases Weight(e)
  {
    match e
    case Sym(_) =>
    case Cmp(_, _, _) =>
    case Bin(_, l, r) =>
      TransformPlain(l);
      TransformPlain(r);
    case Not(a0) =>
      TransformPlain(a0);
      var a := Transform(a0);
      if a.Bin? {
        DeMorganLighter(a.conn, a.left, a.right);
        TransformPlain(DeMorgan(a.conn, a.left, a.right));
      }
  }

  // ----- expr_transform as it is written -----

  /**
   expr_transform with the rule for `A!=y` as it is written: it builds NOT from the symbol
   pointer, which is no expression. Null stands for a result that contains such a node.
   */
  function WrittenTransform(e: Expr): (t: OptExpr)
    ensures t.Ex? ==> t.e == Transform(e)
    decreases Weight(e)
  {
    match e
    case Sym(_) => Ex(e)
    case Cmp(op, l, r) => if l.Type() == Boolean && op == Ne && r == SymbolYes then Null else Ex(TransformCmp(op, l, r))
    case Bin(c, l, r) =>
      var l', r' := WrittenTransform(l), WrittenTransform(r);
      if l'.Null? || r'.Null? then Null else Ex(Bin(c, l'.e, r'.e))
    case Not(a0) =>
      match WrittenTransform(a0)
      case Null => Null
      case Ex(Not(b)) => Ex(b)
      case Ex(Cmp(op, l, r)) => Ex(Cmp(Opposite(op), l, r))
      case Ex(Bin(c, l, r)) => DeMorganLighter(c, l, r); WrittenTransform(DeMorgan(c, l, r))
      case Ex(Sym(s)) => Ex(NegateSymbol(s))
  }

  /** Does a comparison `A!=y` of a bool symbol occur in `e`? */
  predicate HasBoolNeYes(e: Expr)
  {
    match e
    case Sym(_) => false
    case Cmp(op, l, r) => l.Type() == Boolean && op == Ne && r == SymbolYes
    case Not(a) => HasBoolNeYes(a)
    case Bin(_, l, r) => HasBoolNeYes(l) || HasBoolNeYes(r)
  }

  lemma {:induction false} NormalHasNone(e: Expr)
    requires Normal(e)
    ensures !HasBoolNeYes(e)
  {
    if e.Bin? {
      NormalHasNone(e.left);
      NormalHasNone(e.right);
    }
  }

  /** The code builds a malformed node exactly when the expression contains `A!=y` for a bool symbol. */
  lemma {:induction false} WrittenTransformExact(e: Expr)
    ensures WrittenTransform(e) == if HasBoolNeYes(e) then Null else Ex(Transform(e))
    decreases Weight(e)
  {
    match e
    case Sym(_) =>
    case Cmp(_, _, _) =>
    case Bin(_, l, r) =>
      WrittenTransformExact(l);
      WrittenTransformExact(r);
    case Not(a0) =>
      WrittenTransformExact(a0);
      var a := Transform(a0);
      if a.Bin? {
        TransformNormal(a0);
        NormalHasNone(a);
        DeMorganLighter(a.conn, a.left, a.right);
        WrittenTransformExact(DeMorgan(a.conn, a.left, a.right));
      }
  }

  /** For all other expressions the code keeps the value, and its result is normal and not changed again. */
  lemma WrittenTransformSound(e: Expr, env: Env)
    requires ValidEnv(env) && BoolsNotMod(env)
    ensures WrittenTransform(e).Ex? <==> !HasBoolNeYes(e)
    ensures WrittenTransform(e).Ex? ==>
              var t := WrittenTransform(e).e;
              Value(t, env) == Value(e, env) && Normal(t) && WrittenTransform(t) == Ex(t)
  {
    WrittenTransformExact(e);
    TransformSound(e, env);
    TransformNormal(e);
    NormalHasNone(Transform(e));
    TransformIdempotent(e);
    WrittenTransformExact(Transform(e));
  }

  /** The input: the test that a bool symbol is not y. */
  lemma WrittenTransformFails(name: string)
    ensures WrittenTransform(Cmp(Ne, Named(name, Boolean, false), SymbolYes)) == Null
    ensures Transform(Cmp(Ne, Named(name, Boolean, false), SymbolYes)) == Not(Sym(Named(name, Boolean, false)))
  {
    WrittenTransformExact(Cmp(Ne, Named(name, Boolean, false), SymbolYes));
  }

  // ----- expr_trans_compare -----

  /** expr_trans_compare for `type` E_EQUAL (`eq`) or E_UNEQUAL and `sym` among y, m, n. */
  function TransCompare(e: Expr, eq: bool, sym: Symbol): Expr
    requires IsTriConst(sym)
  {
    match e
    case Bin(c, l, r) =>
      var l', r' := TransCompare(l, true, sym), TransCompare(r, true, sym);
      var b := if sym == SymbolYes then Bin(c, l', r')
               else if sym == SymbolNo then Bin(Other(c), l', r')
               else e;
      if eq then b else Not(b)
    case Not(a) => TransCompare(a, !eq, sym)
    case Cmp(_, _, _) =>
      if sym == SymbolMod then Sym(if eq then SymbolNo else SymbolYes)
      else if eq == (sym == SymbolYes) then e
      else Not(e)
    case Sym(s) => Cmp(if eq then Eq else Ne, s, sym)
  }

  /** The comparison that expr_trans_compare is meant to spell out. */
  function Compared(e: Expr, eq: bool, sym: Symbol, env: Env): Tri
    requires IsTriConst(sym)
  {
    FromBool((Value(e, env) == ConstTri(sym)) == eq)
  }

  ghost predicate Exact(e: Expr, eq: bool, sym: Symbol, env: Env)
    requires IsTriConst(sym)
  {
    Value(TransCompare(e, eq, sym), env) == Compared(e, eq, sym, env)
  }

  /** Does the text of an int, hex, string or undefined symbol compare equal to a tristate? */
  predicate ReadsAs(val: string, ty: SymbolType, t: Tri)
  {
    match ParseString(val, ty)
    case Text => val == TriString(t)
    case Signed(n) => n == t
    case Unsigned(n) => n == t
  }

  lemma ComparesAs(s: Symbol, c: Symbol, env: Env)
    requires ValidEnv(env) && !IsLogical(s) && IsTriConst(c)
    ensures CompareSymbols(s, c, env) == 0 <==> ReadsAs(env(s).val, s.Type(), ConstTri(c))
  {
    StrCmpZero(env(s).val, TriString(ConstTri(c)));
    assert TriString(ConstTri(c))[0] == (if c == SymbolYes then 'y' else if c == SymbolMod then 'm' else 'n');
    hide ParseNumber, StrCmp;
  }

  /**
   Can the leaf `s` be compared with `c`? Symbols that are not bool or tristate are n, so
   their text must read as n when they are compared with n, and not as y when compared with y.
   */
  predicate GoodLeaf(s: Symbol, c: Symbol, env: Env)
    requires IsTriConst(c)
  {
    IsLogical(s) || ReadsAs(env(s).val, s.Type(), ConstTri(c)) == (c == SymbolNo)
  }

  predicate GoodLeaves(e: Expr, c: Symbol, env: Env)
    requires IsTriConst(c)
  {
    match e
    case Sym(s) => GoodLeaf(s, c, env)
    case Cmp(_, _, _) => true
    case Not(a) => GoodLeaves(a, c, env)
    case Bin(_, l, r) => GoodLeaves(l, c, env) && GoodLeaves(r, c, env)
  }

  /** A leaf is compared right exactly when it is a good one. */
  lemma TransCompareLeaf(s: Symbol, eq: bool, c: Symbol, env: Env)
    requires ValidEnv(env) && IsTriConst(c)
    ensures Exact(Sym(s), eq, c, env) <==> GoodLeaf(s, c, env)
  {
    hide CompareSymbols, ReadsAs;
    if IsLogical(s) {
      CompareWithConst(s, c, env);
    } else {
      ComparesAs(s, c, env);
    }
  }

  /** For a symbol without a type, its name decides: `FOO` is not n when compared by name, but `0` is. */
  lemma TransCompareUndefined(s: Symbol, eq: bool, env: Env)
    requires ValidEnv(env) && s.Type() == Unknown
    ensures Exact(Sym(s), eq, SymbolNo, env) <==> ReadsAs(s.Name(), Unknown, NO)
    ensures Exact(Sym(s), eq, SymbolYes, env) <==> !ReadsAs(s.Name(), Unknown, YES)
    ensures s.Name() == "0" ==> Exact(Sym(s), eq, SymbolNo, env)
    ensures s.Name() == "FOO" || s.Name() == "5" ==> !Exact(Sym(s), eq, SymbolNo, env)
  {
    TransCompareLeaf(s, eq, SymbolNo, env);
    TransCompareLeaf(s, eq, SymbolYes, env);
    assert Magnitude("0", 8, 0) == 0 && ParseString("0", Unknown) == Signed(0);
    assert Magnitude("5", 10, 0) == 5 && ParseString("5", Unknown) == Signed(5);
    assert DigitValue("FOO"[0]) == 15 && ParseString("FOO", Unknown) == Text;
  }

  /** A type does not help: an int symbol with the value 7 is not n either, when compared by its text. */
  lemma TransCompareTyped(s: Symbol, eq: bool, env: Env)
    requires ValidEnv(env) && s.Type() == Int && env(s).val == "7"
    ensures !Exact(Sym(s), eq, SymbolNo, env)
  {
    TransCompareLeaf(s, eq, SymbolNo, env);
    assert Magnitude("7", 10, 0) == 7 && ParseString("7", Int) == Signed(7);
  }

  /** No NOT is applied to m. */
  predicate NoNotOfMod(e: Expr, env: Env)
  {
    match e
    case Sym(_) => true
    case Cmp(_, _, _) => true
    case Not(a) => Value(a, env) != MOD && NoNotOfMod(a, env)
    case Bin(_, l, r) => NoNotOfMod(l, env) && NoNotOfMod(r, env)
  }

  lemma {:induction false} TransCompareExact(e: Expr, eq: bool, sym: Symbol, env: Env)
    requires ValidEnv(env) && (sym == SymbolYes || sym == SymbolNo)
    requires GoodLeaves(e, sym, env) && NoNotOfMod(e, env)
    ensures Exact(e, eq, sym, env)
  {
    hide GoodLeaf, CompareSymbols, ReadsAs;
    match e
    case Sym(s) => TransCompareLeaf(s, eq, sym, env);
    case Cmp(_, _, _) =>
    case Not(a) => TransCompareExact(a, !eq, sym, env);
    case Bin(_, l, r) =>
      TransCompareExact(l, true, sym, env);
      TransCompareExact(r, true, sym, env);
      TransCompareBin(e.conn, l, r, eq, sym, env);
  }

  lemma TransCompareBin(c: Conn, l: Expr, r: Expr, eq: bool, sym: Symbol, env: Env)
    requires (sym == SymbolYes || sym == SymbolNo) && Exact(l, true, sym, env) && Exact(r, true, sym, env)
    ensures Exact(Bin(c, l, r), eq, sym, env)
  {
    hide CompareSymbols;
    var l', r' := TransCompare(l, true, sym), TransCompare(r, true, sym);
    var b := Bin(if sym == SymbolYes then c else Other(c), l', r');
    assert TransCompare(Bin(c, l, r), eq, sym) == if eq then b else Not(b);
    hide TransCompare;
    assert Value(b, env) == Combine(b.conn, Value(l', env), Value(r', env));
    assert Value(Bin(c, l, r), env) == Combine(c, Value(l, env), Value(r, env));
  }

  /** Below a NOT the comparison is right exactly when the operand is not m. */
  lemma TransCompareNot(a: Expr, eq: bool, sym: Symbol, env: Env)
    requires ValidEnv(env) && (sym == SymbolYes || sym == SymbolNo)
    requires GoodLeaves(a, sym, env) && NoNotOfMod(a, env)
    ensures Exact(Not(a), eq, sym, env) <==> Value(a, env) != MOD
  {
    TransCompareExact(a, !eq, sym, env);
  }

  lemma {:induction false} StrCmpZero(a: string, b: string)
    ensures StrCmp(a, b) == 0 <==> a == b
  {
    if a != [] && b != [] && a[0] == b[0] {
      StrCmpZero(a[1..], b[1..]);
      assert a == [a[0]] + a[1..] && b == [b[0]] + b[1..];
    }
  }

  lemma {:induction false} TransComparePlain(e: Expr, eq: bool, sym: Symbol)
    requires PlainEqualities(e) && IsTriConst(sym)
    ensures PlainEqualities(TransCompare(e, eq, sym))
  {
    match e
    case Sym(_) =>
    case Cmp(_, _, _) =>
    case Not(a) => TransComparePlain(a, !eq, sym);
    case Bin(_, l, r) =>
      TransComparePlain(l, true, sym);
      TransComparePlain(r, true, sym);
  }

  /** Explicit comparisons with n bring in no `A!=y`. */
  lemma {:induction false} TransCompareNeYes(e: Expr, eq: bool)
    ensures HasBoolNeYes(TransCompare(e, eq, SymbolNo)) <==> HasBoolNeYes(e)
  {
    match e
    case Sym(_) =>
    case Cmp(_, _, _) =>
    case Not(a) => TransCompareNeYes(a, !eq);
    case Bin(_, l, r) =>
      TransCompareNeYes(l, true);
      TransCompareNeYes(r, true);
  }

  // ----- dependencies on a symbol -----

  /** expr_contains_symbol */
  predicate ContainsSymbol(e: Expr, s: Symbol)
  {
    match e
    case Sym(t) => t == s
    case Cmp(_, l, r) => l == s || r == s
    case Not(a) => ContainsSymbol(a, s)
    case Bin(_, l, r) => ContainsSymbol(l, s) || ContainsSymbol(r, s)
  }

  /** expr_depends_symbol */
  predicate DependsSymbol(e: Expr, s: Symbol)
  {
    match e
    case Sym(t) => t == s
    case Cmp(Eq, l, r) => l == s && (r == SymbolYes || r == SymbolMod)
    case Cmp(Ne, l, r) => l == s && r == SymbolNo
    case Bin(AndOp, l, r) => DependsSymbol(l, s) || DependsSymbol(r, s)
    case _ => false
  }

  /** An absolute dependency on `s` cannot be met while `s` is n. */
  lemma {:induction false} DependsSymbolSound(e: Expr, s: Symbol, env: Env)
    requires ValidEnv(env) && IsLogical(s) && DependsSymbol(e, s)
    ensures Value(e, env) != NO ==> env(s).tri != NO
  {
    match e
    case Sym(_) =>
    case Cmp(_, _, _) => EqualityValues(s, env);
    case Bin(_, l, r) =>
      if DependsSymbol(l, s) {
        DependsSymbolSound(l, s, env);
      } else {
        DependsSymbolSound(r, s, env);
      }
  }

  /** The comparisons of a symbol that count as dependencies on it. */
  predicate DependsForm(op: CmpOp, c: Symbol)
  {
    (op == Eq && (c == SymbolYes || c == SymbolMod)) || (op == Ne && c == SymbolNo)
  }

  /** Does the comparison of a symbol with the text `val` hold? */
  predicate TextHolds(op: CmpOp, val: string, ty: SymbolType, c: Symbol)
    requires DependsForm(op, c)
  {
    ReadsAs(val, ty, ConstTri(c)) == (op == Eq)
  }

  lemma FormHolds(s: Symbol, op: CmpOp, c: Symbol, env: Env)
    requires ValidEnv(env) && !IsLogical(s) && DependsForm(op, c)
    ensures Value(Cmp(op, s, c), env) != NO <==> TextHolds(op, env(s).val, s.Type(), c)
  {
    hide CompareSymbols, ReadsAs;
    ComparesAs(s, c, env);
  }

  /** A value of an int, hex or string symbol for which a comparison holds. */
  function HoldingText(ty: SymbolType, c: Symbol): string
  {
    if ty == Str then if c == SymbolMod then "m" else "y" else if c == SymbolMod then "1" else "2"
  }

  lemma HoldingTextHolds(op: CmpOp, ty: SymbolType, c: Symbol)
    requires DependsForm(op, c) && (ty == Int || ty == Hex || ty == Str)
    ensures TextHolds(op, HoldingText(ty, c), ty, c)
  {
    assert SkipSpace("2") == "2" && Magnitude("", 10, 2) == 2 && Magnitude("", 16, 2) == 2;
    assert SkipSpace("1") == "1" && Magnitude("", 10, 1) == 1 && Magnitude("", 16, 1) == 1;
    assert ParseString("2", Int) == Signed(2) && ParseString("2", Hex) == Unsigned(2);
    assert ParseString("1", Int) == Signed(1) && ParseString("1", Hex) == Unsigned(1);
    assert ParseString("y", Str) == Text && ParseString("m", Str) == Text;
    assert TriString(NO)[0] == 'n';
  }

  /** An assignment that gives `s` the text `val`. */
  ghost function EnvWith(s: Symbol, val: string): Env
  {
    (t: Symbol) =>
      if t == s then SymbolValue(NO, val)
      else if IsTriConst(t) then SymbolValue(ConstTri(t), t.Name())
      else SymbolValue(NO, t.Name())
  }

  /**
   A comparison with `s` that counts as a dependency on `s` implies s != n in all
   assignments exactly when `s` is bool or tristate, or has no type and a name for which
   the comparison never holds.
   */
  lemma DependsSymbolExact(s: Symbol, op: CmpOp, c: Symbol)
    requires DependsForm(op, c)
    ensures DependsSymbol(Cmp(op, s, c), s)
    ensures (forall env: Env :: ValidEnv(env) && Value(Cmp(op, s, c), env) != NO ==> env(s).tri != NO)
       <==> IsLogical(s) || (s.Type() == Unknown && !TextHolds(op, s.Name(), Unknown, c))
  {
    hide TextHolds, Value;
    if IsLogical(s) {
      forall env: Env | ValidEnv(env) && Value(Cmp(op, s, c), env) != NO ensures env(s).tri != NO {
        DependsSymbolSound(Cmp(op, s, c), s, env);
      }
    } else {
      var val := if s.Type() == Unknown then s.Name() else HoldingText(s.Type(), c);
      var env0 := EnvWith(s, val);
      assert ValidEnv(env0);
      FormHolds(s, op, c, env0);
      if s.Type() == Unknown {
        forall env: Env | ValidEnv(env)
          ensures Value(Cmp(op, s, c), env) != NO <==> TextHolds(op, s.Name(), Unknown, c)
        {
          FormHolds(s, op, c, env);
        }
      } else {
        HoldingTextHolds(op, s.Type(), c);
      }
    }
  }

  // ----- the submenu test of _menu_finalize -----

  /** `dep` rewritten to `dep != n` and simplified. */
  function Simplified(e: OptExpr): Expr
  {
    var cmp := match e case Null => Not(Sym(SymbolNo)) case Ex(x) => TransCompare(x, false, SymbolNo);
    Dups(Transform(cmp))
  }

  /** Does an entry with dependency `dep` go into the submenu of `sym`, whose prompt depends on `basedep`? */
  predicate GoesIntoSubmenu(sym: Symbol, basedep: OptExpr, dep: OptExpr)
  {
    && dep.Ex? && ContainsSymbol(dep.e, sym)
    && (DependsSymbol(dep.e, sym) || ElimEq(Simplified(dep), Simplified(basedep)).1 == Sym(SymbolYes))
  }

  ghost predicate WellBehaved(e: OptExpr, env: Env)
  {
    e.Ex? ==>
      && GoodLeaves(e.e, SymbolNo, env) && NoNotOfMod(e.e, env)
      && DupsOk(Transform(TransCompare(e.e, false, SymbolNo)))
  }

  /** Joins are right when tristate symbols are compared with y, m, n or text that denotes no tristate. */
  lemma PlainBehaves(e: Expr)
    requires PlainEqualities(e)
    ensures DupsOk(Transform(TransCompare(e, false, SymbolNo)))
  {
    TransComparePlain(e, false, SymbolNo);
    TransformPlain(TransCompare(e, false, SymbolNo));
    DupsPlain(Transform(TransCompare(e, false, SymbolNo)));
  }

  /** The test is the one of the code when no bool symbol is compared by `A!=y`. */
  lemma SimplifiedWritten(e: OptExpr)
    requires e.Ex? ==> !HasBoolNeYes(e.e)
    ensures var cmp := match e case Null => Not(Sym(SymbolNo)) case Ex(x) => TransCompare(x, false, SymbolNo);
            WrittenTransform(cmp).Ex? && Simplified(e) == Dups(WrittenTransform(cmp).e)
  {
    if e.Ex? {
      TransCompareNeYes(e.e, false);
    }
    WrittenTransformExact(match e case Null => Not(Sym(SymbolNo)) case Ex(x) => TransCompare(x, false, SymbolNo));
  }

  lemma SimplifiedSound(e: OptExpr, env: Env)
    requires ValidEnv(env) && BoolsNotMod(env) && WellBehaved(e, env)
    ensures Value(Simplified(e), env) == FromBool(OptValue(e, env) != NO)
  {
    var cmp := match e case Null => Not(Sym(SymbolNo)) case Ex(x) => TransCompare(x, false, SymbolNo);
    if e.Ex? {
      TransCompareExact(e.e, false, SymbolNo, env);
    }
    TransformSound(cmp, env);
    DupsSound(Transform(cmp), env);
  }

  /**
   An entry is moved below a symbol only if it is reachable only when the symbol
   is set, or only when the symbol's own prompt is.
   */
  lemma SubmenuTestSound(sym: Symbol, basedep: OptExpr, dep: OptExpr, env: Env)
    requires ValidEnv(env) && BoolsNotMod(env)
    requires WellBehaved(basedep, env) && WellBehaved(dep, env)
    requires GoesIntoSubmenu(sym, basedep, dep) && OptValue(dep, env) != NO
    ensures DependsSymbol(dep.e, sym) && IsLogical(sym) ==> env(sym).tri != NO
    ensures !DependsSymbol(dep.e, sym) ==> OptValue(basedep, env) != NO
  {
    if DependsSymbol(dep.e, sym) {
      if IsLogical(sym) {
        DependsSymbolSound(dep.e, sym, env);
      }
    } else {
      SimplifiedSound(dep, env);
      SimplifiedSound(basedep, env);
      ElimEqSuperset(Simplified(dep), Simplified(basedep), env);
    }
  }
}
