/**
 The search for recursive dependencies (sym_check_deps and its helpers) for
 symbols outside choices.
 */
module DepCheck {
  import opened Expr
  import opened Graphs
  import opened Symbols

  datatype Found = Fine | Recursive(sym: Symbol)

  /** Every symbol mentioned is declared. */
  ghost predicate Closed(d: Decls)
  {
    forall s, t :: s in d && t in Deps(d, s) ==> t in d
  }

  class Checker {
    const decls: Decls
    ghost const graph: Graph

    var check: set<Symbol>     // SYMBOL_CHECK
    var checked: set<Symbol>   // SYMBOL_CHECKED
    var depStack: seq<Symbol>  // from the bottom up to check_top

    // symbols whose check is complete, in the order of completion
    ghost var finished: seq<Symbol>

    constructor (d: Decls)
      requires Closed(d)
      ensures decls == d && graph == DepGraph(d) && check == {} && checked == {} && depStack == [] && finished == []
      ensures StackOk() && FinishedOk()
    {
      decls, graph := d, DepGraph(d);
      check, checked, depStack, finished := {}, {}, [], [];
    }

    /** The dependencies of `s`, all of them declared. */
    ghost predicate DepsOk(s: Symbol)
    {
      s in decls ==> graph(s) == Deps(decls, s) && forall t :: t in graph(s) ==> t in decls
    }

    /** The stack is a path through the symbols marked CHECK. */
    ghost predicate StackOk()
      reads this
    {
      && (forall s {:trigger DepsOk(s)} :: DepsOk(s))
      && check <= checked <= decls.Keys
      && (forall x :: x in check <==> x in depStack)
      && (depStack != [] ==> IsPath(graph, depStack))
    }

    /** As long as no recursion was found, the finished symbols are in topological order. */
    ghost predicate FinishedOk()
      reads this
    {
      && Topological(graph, finished)
      && (forall x :: x in finished <==> x in checked && x !in check)
    }

    ghost predicate AllFinished(ts: seq<Symbol>)
      reads this
    {
      forall t :: t in ts ==> t in checked && t !in check
    }

    /** What every helper keeps while it works on the symbol at the top of the stack. */
    twostate predicate Kept()
      reads this
    {
      && StackOk() && depStack == old(depStack) && check == old(check)
      && old(checked) <= checked && old(finished) <= finished
    }

    /** Outcome `r` of checking `ts` on behalf of `s`. */
    twostate predicate Outcome(r: Found, s: Symbol, ts: seq<Symbol>)
      reads this
    {
      && (r.Recursive? ==> OnCycle(graph, r.sym) && Reaches(graph, s, r.sym))
      && (old(FinishedOk()) && r.Fine? ==> FinishedOk() && AllFinished(ts))
    }

    function Top(): Symbol
      requires depStack != []
      reads this
    {
      depStack[|depStack| - 1]
    }

    ghost predicate TopDependsOn(ts: seq<Symbol>)
      requires depStack != []
      reads this
    {
      forall t :: t in ts ==> t in graph(Top())
    }

    /** sym_check_deps */
    method CheckDeps(s: Symbol) returns (r: Found)
      requires StackOk() && s in decls
      requires depStack != [] ==> TopDependsOn([s])
      modifies this
      ensures Kept() && s in checked && Outcome(r, s, [s])
      decreases decls.Keys - checked, 0, 0
    {
      ReachesSelf(graph, s);
      if s in check {
        assert s in [s];
        BackEdgeCycle(graph, depStack, s);
        return Recursive(s);
      }
      if s in checked {
        return Fine;
      }
      assert depStack != [] ==> s in [s];
      check, checked := check + {s}, checked + {s};
      r := CheckSymDeps(s);
      check := check - {s};
      if r.Fine? {
        if old(FinishedOk()) {
          TopologicalExtend(graph, finished, s);
        }
        finished := finished + [s];
      }
    }

    /** sym_check_sym_deps */
    method CheckSymDeps(s: Symbol) returns (r: Found)
      requires (forall x {:trigger DepsOk(x)} :: DepsOk(x)) && check <= checked <= decls.Keys && s in check
      requires forall x :: x in check <==> x in depStack || x == s
      requires depStack != [] ==> IsPath(graph, depStack) && s in graph(Top())
      modifies this
      ensures depStack == old(depStack) && check == old(check)
      ensures old(checked) <= checked <= decls.Keys && old(finished) <= finished
      ensures Outcome(r, s, graph(s))
      decreases decls.Keys - checked, 2, 0
    {
      var below := depStack;
      depStack := depStack + [s];
      if below != [] {
        PathExtend(graph, below, s);
      }
      assert DepsOk(s);
      r := CheckDecl(decls[s]);
      depStack := below;
    }

    /** The dependencies of the symbol on top of the stack, in the order of sym_check_sym_deps. */
    method CheckDecl(decl: Decl) returns (r: Found)
      requires StackOk() && depStack != [] && TopDependsOn(DeclSymbols(decl))
      modifies this
      ensures Kept() && Outcome(r, old(Top()), DeclSymbols(decl))
      decreases decls.Keys - checked, 1, 3, 0
    {
      DeclSymbolsMembers(decl);
      r := CheckOptDeps(decl.dirDep);
      if r.Recursive? {
        return;
      }
      r := CheckOptDeps(decl.revDep);
      if r.Recursive? {
        return;
      }
      r := CheckOptDeps(decl.implied);
      if r.Recursive? {
        return;
      }
      r := CheckProperties(decl.props);
    }

    /** The loop over all properties in sym_check_sym_deps. */
    method CheckProperties(props: seq<Property>) returns (r: Found)
      requires StackOk() && depStack != [] && TopDependsOn(PropertiesSymbols(props))
      modifies this
      ensures Kept() && Outcome(r, old(Top()), PropertiesSymbols(props))
      decreases decls.Keys - checked, 1, 2, 0
    {
      hide PropertySymbols, Topological, IsPath, Reaches, OnCycle;
      r := Fine;
      var i := 0;
      while r.Fine? && i < |props|
        invariant 0 <= i <= |props|
        invariant Kept() && Outcome(r, old(Top()), PropertiesSymbols(props[..i]))
        decreases |props| - i
      {
        PropertyInProperties(props, i);
        PropertiesStep(props, i);
        r := CheckProperty(props[i]);
        i := i + 1;
      }
      assert props[..|props|] == props;
    }

    /** One property: its condition, and its value if it is a default. */
    method CheckProperty(p: Property) returns (r: Found)
      requires StackOk() && depStack != [] && TopDependsOn(PropertySymbols(p))
      modifies this
      ensures Kept() && Outcome(r, old(Top()), PropertySymbols(p))
      decreases decls.Keys - checked, 1, 1, 0
    {
      if p.ty == Select || p.ty == Imply {
        return Fine;
      }
      r := CheckOptDeps(p.visible);
      if r.Fine? && p.ty == Default {
        r := CheckOptDeps(p.expr);
      }
    }

    /** sym_check_expr_deps on an expression that may be NULL. */
    method CheckOptDeps(e: OptExpr) returns (r: Found)
      requires StackOk() && depStack != [] && TopDependsOn(OptSymbols(e))
      modifies this
      ensures Kept() && Outcome(r, old(Top()), OptSymbols(e))
      decreases decls.Keys - checked, 1, 0, if e.Ex? then 1 + Size(e.e) else 0
    {
      match e
      case Null => r := Fine;
      case Ex(x) => r := CheckExprDeps(x);
    }

    /** sym_check_expr_deps */
    method CheckExprDeps(e: Expr) returns (r: Found)
      requires StackOk() && depStack != [] && TopDependsOn(ExprSymbols(e))
      modifies this
      ensures Kept() && Outcome(r, old(Top()), ExprSymbols(e))
      decreases decls.Keys - checked, 1, 0, Size(e)
    {
      match e
      case Bin(_, left, right) =>
        r := CheckExprDeps(left);
        if r.Fine? {
          r := CheckExprDeps(right);
        }
      case Not(a) => r := CheckExprDeps(a);
      case Cmp(_, left, right) =>
        r := CheckOneDep(left);
        if r.Fine? {
          r := CheckOneDep(right);
        }
      case Sym(s) => r := CheckOneDep(s);
    }

    /** sym_check_deps on a symbol that the top of the stack depends on. */
    method CheckOneDep(s: Symbol) returns (r: Found)
      requires StackOk() && depStack != [] && s in graph(Top())
      modifies this
      ensures Kept() && Outcome(r, old(Top()), [s])
      decreases decls.Keys - checked, 0, 1
    {
      assert Top() in check && DepsOk(Top());
      r := CheckDeps(s);
      if r.Recursive? {
        DependsReaches(graph, old(Top()), s, r.sym);
      }
    }
  }

  /** No symbol that an entry depends on, directly or not, depends on itself. */
  ghost predicate AcyclicFrom(g: Graph, entries: seq<Symbol>)
  {
    forall s, t :: s in entries && Reaches(g, s, t) ==> !OnCycle(g, t)
  }

  /** Only symbols with a menu entry depend on anything. */
  ghost predicate EntriesCover(g: Graph, entries: seq<Symbol>)
  {
    forall s :: g(s) != [] ==> s in entries
  }

  lemma {:induction false} PathStart(g: Graph, p: seq<Symbol>)
    requires IsPath(g, p) && |p| >= 2
    ensures p[1] in g(p[0])
    decreases |p|
  {
    if |p| > 2 {
      PathStart(g, p[..|p| - 1]);
    }
  }

  lemma CoveredAcyclic(g: Graph, entries: seq<Symbol>)
    requires EntriesCover(g, entries)
    ensures AcyclicFrom(g, entries) <==> Acyclic(g)
  {
    if s :| AcyclicFrom(g, entries) && OnCycle(g, s) {
      var c :| IsPath(g, c) && |c| >= 2 && c[0] == s && Last(c) == s;
      PathStart(g, c);
      ReachesSelf(g, s);
      assert false;
    }
  }

  /**
   The loop of conf_parse over all menu entries: it counts an error exactly when
   some entry reaches a cycle, and hands out a topological order when there is none.
   */
  method CheckAll(decls: Decls, entries: seq<Symbol>) returns (errors: nat, ghost order: seq<Symbol>)
    requires Closed(decls) && forall s :: s in entries ==> s in decls
    ensures errors == 0 <==> AcyclicFrom(DepGraph(decls), entries)
    ensures errors == 0 ==> Topological(DepGraph(decls), order)
    ensures errors == 0 ==> (forall s :: s in entries ==> s in order) && (forall s :: s in order ==> s in decls)
    ensures EntriesCover(DepGraph(decls), entries) ==> (errors == 0 <==> Acyclic(DepGraph(decls)))
  {
    var c := new Checker(decls);
    errors := 0;
    for i := 0 to |entries|
      invariant c.StackOk() && c.depStack == [] && c.decls == decls && c.graph == DepGraph(decls)
      invariant errors == 0 ==> c.FinishedOk() && forall k :: 0 <= k < i ==> entries[k] in c.finished
      invariant errors > 0 ==> !AcyclicFrom(DepGraph(decls), entries)
    {
      var r := c.CheckDeps(entries[i]);
      if r.Recursive? {
        errors := errors + 1;
      }
    }
    order := c.finished;
    if errors == 0 {
      forall s, t | s in entries && Reaches(c.graph, s, t) ensures !OnCycle(c.graph, t) {
        TopologicalReach(c.graph, order, s, t);
        TopologicalNoCycle(c.graph, order, t);
      }
    }
    if EntriesCover(DepGraph(decls), entries) {
      CoveredAcyclic(c.graph, entries);
    }
  }
}
