/**
 The Kconfig expression language: symbols, three-valued expressions and the
 value of an expression in an assignment of values to symbols.
 */
module Expr {

  /** A tristate: 0 is `n`, 1 is `m`, 2 is `y`. */
  type Tri = t: int | 0 <= t <= 2

  const NO: Tri := 0
  const MOD: Tri := 1
  const YES: Tri := 2

  function Min(a: Tri, b: Tri): Tri { if a < b then a else b }

  function Max(a: Tri, b: Tri): Tri { if a > b then a else b }

  datatype SymbolType = Unknown | Boolean | Tristate | Int | Hex | Str

  /** The three constants, and symbols made by name; `quoted` ones are constant text. */
  datatype Symbol = SymbolYes | SymbolMod | SymbolNo | Named(name: string, ty: SymbolType, quoted: bool)
  {
    function Type(): SymbolType { if Named? then ty else Tristate }

    predicate IsConst() { !Named? || quoted }

    function Name(): string
    {
      match this case SymbolYes => "y" case SymbolMod => "m" case SymbolNo => "n" case Named(n, _, _) => n
    }
  }

  predicate IsLogical(s: Symbol) { s.Type() == Boolean || s.Type() == Tristate }

  datatype Conn = OrOp | AndOp

  datatype CmpOp = Eq | Ne | Lt | Le | Gt | Ge

  /** `e->left`/`e->right` hold symbols below a comparison and expressions elsewhere. */
  datatype Expr =
    | Sym(sym: Symbol)
    | Not(arg: Expr)
    | Bin(conn: Conn, left: Expr, right: Expr)
    | Cmp(op: CmpOp, lhs: Symbol, rhs: Symbol)

  predicate IsYesNo(e: Expr) { e == Sym(SymbolYes) || e == Sym(SymbolNo) }

  /** The neutral operand of a connective. */
  function Unit(c: Conn): Symbol { if c == OrOp then SymbolNo else SymbolYes }

  function Combine(c: Conn, a: Tri, b: Tri): Tri { if c == OrOp then Max(a, b) else Min(a, b) }

  function Other(c: Conn): Conn { if c == OrOp then AndOp else OrOp }

  // ----- values of symbols -----

  /** `curr`: the tristate and the string value of a symbol. */
  datatype SymbolValue = SymbolValue(tri: Tri, val: string)

  type Env = Symbol -> SymbolValue

  function TriString(t: Tri): string { if t == NO then "n" else if t == MOD then "m" else "y" }

  /** sym_get_string_value */
  function StringValue(s: Symbol, v: SymbolValue): string
  {
    if IsLogical(s) then TriString(v.tri) else v.val
  }

  /**
   What every computed assignment satisfies: the three constants have their
   value, an undefined symbol stands for its own name, and only bool and
   tristate symbols have a tristate other than n.
   */
  ghost predicate ValidEnv(env: Env)
  {
    && env(SymbolYes).tri == YES && env(SymbolMod).tri == MOD && env(SymbolNo).tri == NO
    && (forall s: Symbol :: s.Type() == Unknown ==> env(s).val == s.Name())
    && (forall s: Symbol :: !IsLogical(s) ==> env(s).tri == NO)
  }

  ghost predicate BoolsNotMod(env: Env)
  {
    forall s: Symbol :: s.Type() == Boolean ==> env(s).tri != MOD
  }

  // ----- strtoll, strtoull and strcmp -----

  predicate IsDigit(c: char) { '0' <= c <= '9' }

  function DigitValue(c: char): int
  {
    if IsDigit(c) then c as int - '0' as int
    else if 'a' <= c <= 'z' then c as int - 'a' as int + 10
    else if 'A' <= c <= 'Z' then c as int - 'A' as int + 10
    else 99
  }

  function SkipSpace(s: string): string
  {
    if s != [] && (s[0] == ' ' || 9 <= s[0] as int <= 13) then SkipSpace(s[1..]) else s
  }

  /** The number denoted by `s`, if every character of `s` is a digit. */
  function Magnitude(s: string, base: nat, acc: nat): (r: int)
    ensures r >= -1
  {
    if s == [] then acc
    else if DigitValue(s[0]) < base then Magnitude(s[1..], base, acc * base + DigitValue(s[0]))
    else -1
  }

  datatype Parsed = Text | Signed(s: int) | Unsigned(u: nat)

  const TWO63: nat := 0x8000_0000_0000_0000
  const TWO64: nat := 0x1_0000_0000_0000_0000

  /**
   strtoll/strtoull followed by the test that the whole string was used
   (`!errno && !*tail && tail > str && isxdigit(tail[-1])`).
   */
  function ParseNumber(str: string, base0: nat, signed: bool): Parsed
  {
    var s := SkipSpace(str);
    var neg := s != [] && s[0] == '-';
    var t := if s != [] && (s[0] == '-' || s[0] == '+') then s[1..] else s;
    var hexPrefix := |t| > 2 && t[0] == '0' && (t[1] == 'x' || t[1] == 'X') && DigitValue(t[2]) < 16;
    var base := if base0 != 0 then base0
                else if hexPrefix then 16
                else if t != [] && t[0] == '0' then 8 else 10;
    var digits := if base == 16 && hexPrefix then t[2..] else t;
    if digits == [] then Text else
    var m := Magnitude(digits, base, 0);
    if m < 0 then Text
    else if signed then
      (if neg && m <= TWO63 then Signed(-m) else if !neg && m < TWO63 then Signed(m) else Text)
    else
      (if m >= TWO64 then Text else Unsigned(if neg then (TWO64 - m) % TWO64 else m))
  }

  /** expr_parse_string */
  function ParseString(str: string, ty: SymbolType): Parsed
  {
    match ty
    case Boolean | Tristate => Signed(if str == "n" then 0 else if str == "m" then 1 else if str == "y" then 2 else -1)
    case Int => ParseNumber(str, 10, true)
    case Hex => ParseNumber(str, 16, false)
    case _ => ParseNumber(str, 0, true)
  }

  function Sign(a: int, b: int): int { if a < b then -1 else if a > b then 1 else 0 }

  function StrCmp(a: string, b: string): int
  {
    if a == [] || b == [] then Sign(|a|, |b|)
    else if a[0] != b[0] then Sign(a[0] as int, b[0] as int)
    else StrCmp(a[1..], b[1..])
  }

  /** The bits of a parsed number, read as an unsigned 64-bit value. */
  function AsUnsigned(p: Parsed): int
  {
    match p case Text => 0 case Signed(s) => if s < 0 then s + TWO64 else s case Unsigned(u) => u
  }

  /** The sign of the comparison in __expr_calc_value. */
  function CompareStrings(str1: string, ty1: SymbolType, str2: string, ty2: SymbolType): int
  {
    if ty1 == Str && ty2 == Str then StrCmp(str1, str2) else
    var p1, p2 := ParseString(str1, ty1), ParseString(str2, ty2);
    if p1.Text? || p2.Text? then StrCmp(str1, str2)
    else if p1.Unsigned? || p2.Unsigned? then Sign(AsUnsigned(p1), AsUnsigned(p2))
    else Sign(p1.s, p2.s)
  }

  function CompareSymbols(l: Symbol, r: Symbol, env: Env): int
  {
    CompareStrings(StringValue(l, env(l)), l.Type(), StringValue(r, env(r)), r.Type())
  }

  predicate Holds(op: CmpOp, res: int)
  {
    match op
    case Eq => res == 0
    case Ne => res != 0
    case Lt => res < 0
    case Le => res <= 0
    case Gt => res > 0
    case Ge => res >= 0
  }

  function FromBool(b: bool): Tri { if b then YES else NO }

  /** expr_calc_value, without its cache. */
  function Value(e: Expr, env: Env): Tri
  {
    match e
    case Sym(s) => env(s).tri
    case Not(a) => 2 - Value(a, env)
    case Bin(c, l, r) => Combine(c, Value(l, env), Value(r, env))
    case Cmp(op, l, r) => FromBool(Holds(op, CompareSymbols(l, r, env)))
  }

  /** NULL stands for y. */
  datatype OptExpr = Null | Ex(e: Expr)

  function OptValue(e: OptExpr, env: Env): Tri
  {
    match e case Null => YES case Ex(x) => Value(x, env)
  }

  function Size(e: Expr): (n: nat)
    ensures n >= 1
  {
    match e
    case Sym(_) => 1
    case Cmp(_, _, _) => 1
    case Not(a) => 1 + Size(a)
    case Bin(_, l, r) => 1 + Size(l) + Size(r)
  }

  // ----- comparisons with the constants y, m and n -----

  predicate IsTriConst(s: Symbol) { !s.Named? }

  function ConstTri(s: Symbol): Tri
    requires IsTriConst(s)
  {
    if s == SymbolYes then YES else if s == SymbolMod then MOD else NO
  }

  lemma CompareWithConst(l: Symbol, r: Symbol, env: Env)
    requires ValidEnv(env) && IsLogical(l) && IsTriConst(r)
    ensures CompareSymbols(l, r, env) == Sign(env(l).tri, ConstTri(r))
  {
    var t := env(l).tri;
    assert TriString(t)[0] == (if t == NO then 'n' else if t == MOD then 'm' else 'y');
    var u := env(r).tri;
    assert TriString(u)[0] == (if u == NO then 'n' else if u == MOD then 'm' else 'y');
  }
}
