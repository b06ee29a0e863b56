/**
 What the value of an expression is: and, or and NOT in the order n, m, y, and comparisons of
 tristates, numbers and texts.
 */
module ValueLaws {
  import opened Expr
  import opened Numerals

  /** An and-expression is as strong as both operands, an or-expression as one of them; NOT turns the order round. */
  lemma ConnectiveLaw(l: Expr, r: Expr, env: Env, t: Tri)
    ensures Value(Bin(AndOp, l, r), env) >= t <==> Value(l, env) >= t && Value(r, env) >= t
    ensures Value(Bin(OrOp, l, r), env) >= t <==> Value(l, env) >= t || Value(r, env) >= t
    ensures Value(Not(l), env) >= t <==> Value(l, env) <= 2 - t
  {
  }

  /** The six comparisons of `l` and `r` are those of the numbers `a` and `b`. */
  ghost predicate ComparedAs(l: Symbol, r: Symbol, env: Env, a: int, b: int)
  {
    && (Value(Cmp(Eq, l, r), env) == if a == b then YES else NO) && (Value(Cmp(Ne, l, r), env) == if a == b then NO else YES)
    && (Value(Cmp(Lt, l, r), env) == if a < b then YES else NO) && (Value(Cmp(Ge, l, r), env) == if a < b then NO else YES)
    && (Value(Cmp(Gt, l, r), env) == if b < a then YES else NO) && (Value(Cmp(Le, l, r), env) == if b < a then NO else YES)
  }

  /** Bool and tristate symbols are compared by their value, n before m before y. */
  lemma TristateCompareLaw(l: Symbol, r: Symbol, env: Env)
    requires IsLogical(l) && IsLogical(r)
    ensures ComparedAs(l, r, env, env(l).tri, env(r).tri)
  {
    TristateText(env(l).tri);
    TristateText(env(r).tri);
    hide TriString;
    assert CompareSymbols(l, r, env) == Sign(env(l).tri, env(r).tri);
  }

  lemma TristateText(t: Tri)
    ensures ParseString(TriString(t), Boolean) == ParseString(TriString(t), Tristate) == Signed(t)
  {
    assert TriString(t)[0] == (if t == NO then 'n' else if t == MOD then 'm' else 'y');
  }

  lemma {:induction false} MagnitudeOf(n: nat, base: nat, t: string)
    requires 2 <= base <= 16
    ensures Magnitude(Numeral(n, base) + t, base, 0) == Magnitude(t, base, n)
    decreases n
  {
    hide Magnitude, Numeral;
    DivMod(n, base);
    NumeralIs(n, base);
    if n < base {
      MagnitudeStep(n, base, t, 0);
    } else {
      var q, d := n / base, n % base;
      var u := [DigitChar(d)] + t;
      assert Numeral(n, base) + t == Numeral(q, base) + u;
      MagnitudeOf(q, base, u);
      MagnitudeStep(d, base, t, q);
    }
  }

  lemma MagnitudeStep(d: nat, base: nat, t: string, acc: nat)
    requires d < base <= 16
    ensures Magnitude([DigitChar(d)] + t, base, acc) == Magnitude(t, base, acc * base + d)
  {
    var u := [DigitChar(d)] + t;
    assert u[1..] == t && DigitValue(u[0]) == d;
  }

  lemma DecimalParsed(n: nat)
    ensures Magnitude(Decimal(n), 10, 0) == n
  {
    MagnitudeOf(n, 10, "");
    assert Numeral(n, 10) + "" == Numeral(n, 10);
  }

  predicate InLong(n: int) { -0x8000_0000_0000_0000 <= n < 0x8000_0000_0000_0000 }

  lemma IntParsed(n: int)
    ensures ParseString(IntText(n), Int) == if InLong(n) then Signed(n) else Text
  {
    var m := if n < 0 then -n else n;
    DecimalParsed(m);
    hide Magnitude, Decimal;
    if n < 0 {
      assert IntText(n)[1..] == Decimal(m);
    }
  }

  /** Int symbols are compared by the numbers that their values denote. */
  lemma IntCompareLaw(l: Symbol, r: Symbol, env: Env, a: int, b: int)
    requires l.Type() == Int && r.Type() == Int && InLong(a) && InLong(b)
    requires env(l).val == IntText(a) && env(r).val == IntText(b)
    ensures ComparedAs(l, r, env, a, b)
  {
    IntParsed(a);
    IntParsed(b);
    hide ParseString, IntText, StrCmp;
    assert CompareSymbols(l, r, env) == Sign(a, b);
  }

  lemma HexParsed(n: nat)
    ensures ParseString(HexText(n), Hex) == if n < 0x1_0000_0000_0000_0000 then Unsigned(n) else Text
  {
    MagnitudeOf(n, 16, "");
    var d := Numeral(n, 16);
    assert d + "" == d && HexText(n)[2..] == d && HexText(n)[2] == d[0];
    assert DigitValue(d[0]) < 16;
    hide Magnitude, Numeral;
  }

  /** So are hex symbols. */
  lemma HexCompareLaw(l: Symbol, r: Symbol, env: Env, a: nat, b: nat)
    requires l.Type() == Hex && r.Type() == Hex && a < 0x1_0000_0000_0000_0000 && b < 0x1_0000_0000_0000_0000
    requires env(l).val == HexText(a) && env(r).val == HexText(b)
    ensures ComparedAs(l, r, env, a, b)
  {
    HexParsed(a);
    HexParsed(b);
    hide ParseString, HexText, StrCmp;
    assert CompareSymbols(l, r, env) == Sign(a, b);
  }

  /** The order of a dictionary: at the first difference, the smaller character or the end comes first. */
  ghost predicate Precedes(a: string, b: string)
  {
    exists k: nat :: PrecedesAt(a, b, k)
  }

  predicate PrecedesAt(a: string, b: string, k: nat)
  {
    k <= |a| && k < |b| && a[..k] == b[..k] && (k == |a| || a[k] < b[k])
  }

  lemma {:induction false} StrCmpLaw(a: string, b: string)
    ensures StrCmp(a, b) == 0 <==> a == b
    ensures StrCmp(a, b) < 0 <==> Precedes(a, b)
    ensures StrCmp(a, b) > 0 <==> Precedes(b, a)
  {
    if a == [] || b == [] {
      if a == [] && b != [] {
        assert PrecedesAt(a, b, 0);
      } else if b == [] && a != [] {
        assert PrecedesAt(b, a, 0);
      }
    } else if a[0] != b[0] {
      HeadsDiffer(a, b);
    } else {
      StrCmpLaw(a[1..], b[1..]);
      PrecedesTail(a, b);
      PrecedesTail(b, a);
      assert a == [a[0]] + a[1..] && b == [b[0]] + b[1..];
    }
  }

  lemma HeadsDiffer(a: string, b: string)
    requires a != [] && b != [] && a[0] != b[0]
    ensures (Precedes(a, b) <==> a[0] < b[0]) && (Precedes(b, a) <==> b[0] < a[0])
  {
    assert a[0] < b[0] ==> PrecedesAt(a, b, 0);
    assert b[0] < a[0] ==> PrecedesAt(b, a, 0);
    forall k: nat | k <= |a| && k <= |b| && a[..k] == b[..k] ensures k == 0 {
      SameHead(a, b, k);
    }
  }

  lemma SameHead(a: string, b: string, k: nat)
    requires k <= |a| && k <= |b| && a[..k] == b[..k]
    ensures k > 0 ==> a[0] == b[0]
  {
    if k > 0 {
      assert a[..k][0] == a[0] && b[..k][0] == b[0];
    }
  }

  lemma PrecedesTail(a: string, b: string)
    requires a != [] && b != [] && a[0] == b[0]
    ensures Precedes(a, b) <==> Precedes(a[1..], b[1..])
  {
    if k: nat :| PrecedesAt(a, b, k) {
      assert k > 0;
      assert a[1..][..k - 1] == a[..k][1..] && b[1..][..k - 1] == b[..k][1..];
      assert PrecedesAt(a[1..], b[1..], k - 1);
    }
    if k: nat :| PrecedesAt(a[1..], b[1..], k) {
      assert a[..k + 1] == [a[0]] + a[1..][..k] && b[..k + 1] == [b[0]] + b[1..][..k];
      assert PrecedesAt(a, b, k + 1);
    }
  }

  /** String symbols are compared as texts. */
  lemma StringCompareLaw(l: Symbol, r: Symbol, env: Env)
    requires l.Type() == Str && r.Type() == Str
    ensures var a, b := env(l).val, env(r).val;
            ComparedAs(l, r, env, 0, if Precedes(a, b) then 1 else if a == b then 0 else -1)
  {
    StrCmpLaw(env(l).val, env(r).val);
  }
}
