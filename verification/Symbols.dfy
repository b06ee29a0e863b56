/**
 Symbol declarations, the dependency graph that the recursion check walks, and
 paths and cycles in it.
 */
module Symbols {
  import opened Expr
  import opened Graphs

  datatype PropertyType = Prompt | Comment | Menu | Default | Select | Imply | Range

  /** `struct property`; `hasText` is `text != NULL`. */
  datatype Property = Property(ty: PropertyType, hasText: bool, visible: OptExpr, expr: OptExpr)

  /** The part of `struct symbol` that is fixed once the Kconfig files are read. */
  datatype Decl = Decl(props: seq<Property>, dirDep: OptExpr, revDep: OptExpr, implied: OptExpr)

  type Decls = map<Symbol, Decl>

  const NO_DECL := Decl([], Null, Null, Null)

  function DeclOf(d: Decls, s: Symbol): Decl { if s in d then d[s] else NO_DECL }

  /** The symbols of an expression, in the order in which they are visited. */
  function ExprSymbols(e: Expr): seq<Symbol>
  {
    match e
    case Sym(s) => [s]
    case Not(a) => ExprSymbols(a)
    case Bin(_, l, r) => ExprSymbols(l) + ExprSymbols(r)
    case Cmp(_, l, r) => [l, r]
  }

  function OptSymbols(e: OptExpr): seq<Symbol>
  {
    match e case Null => [] case Ex(x) => ExprSymbols(x)
  }

  /** Selects and implies do not count; the value of a default does. */
  function PropertySymbols(p: Property): seq<Symbol>
  {
    if p.ty == Select || p.ty == Imply then []
    else OptSymbols(p.visible) + (if p.ty == Default then OptSymbols(p.expr) else [])
  }

  function PropertiesSymbols(ps: seq<Property>): seq<Symbol>
  {
    if ps == [] then [] else PropertiesSymbols(ps[..|ps| - 1]) + PropertySymbols(ps[|ps| - 1])
  }

  function DeclSymbols(decl: Decl): seq<Symbol>
  {
    OptSymbols(decl.dirDep) + OptSymbols(decl.revDep) + OptSymbols(decl.implied) + PropertiesSymbols(decl.props)
  }

  /** Everything sym_check_sym_deps follows from `s`. */
  function Deps(d: Decls, s: Symbol): seq<Symbol> { DeclSymbols(DeclOf(d, s)) }

  lemma DeclSymbolsMembers(decl: Decl)
    ensures forall t :: t in DeclSymbols(decl) <==>
              || t in OptSymbols(decl.dirDep) || t in OptSymbols(decl.revDep)
              || t in OptSymbols(decl.implied) || t in PropertiesSymbols(decl.props)
  {
  }

  lemma PropertiesStep(ps: seq<Property>, i: nat)
    requires i < |ps|
    ensures PropertiesSymbols(ps[..i + 1]) == PropertiesSymbols(ps[..i]) + PropertySymbols(ps[i])
  {
    assert ps[..i + 1][..i] == ps[..i];
  }

  lemma {:induction false} PropertyInProperties(ps: seq<Property>, i: nat)
    requires i < |ps|
    ensures forall t :: t in PropertySymbols(ps[i]) ==> t in PropertiesSymbols(ps)
    decreases |ps|
  {
    if i < |ps| - 1 {
      PropertyInProperties(ps[..|ps| - 1], i);
    }
  }

  /** The graph that the recursion check walks. */
  function DepGraph(d: Decls): Graph { s => Deps(d, s) }
}
