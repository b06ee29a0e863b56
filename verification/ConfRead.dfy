/** The recursion check followed by the evaluation of all symbols. */
module ConfRead {
  import opened Expr
  import opened Symbols
  import opened SymbolSpec
  import opened SymbolSolve
  import opened Graphs
  import opened DepCheck
  import opened SymbolEval

  /**
   Values are computed only if no symbol depends on itself; they are then the one
   and only solution, in whatever order the symbols are listed.
   */
  method ReadConfig(c: Config, symbols: seq<Symbol>) returns (errors: nat, values: map<Symbol, SymbolValue>)
    requires Closed(c.decls) && WellFormed(c.decls)
    requires forall s :: s in symbols <==> s in c.decls
    ensures errors == 0 <==> Acyclic(DepGraph(c.decls))
    ensures errors == 0 ==> exists env: Env :: IsSolution(c, env)
    ensures errors == 0 ==>
              forall env: Env, s :: IsSolution(c, env) && s in c.decls ==> s in values && values[s] == env(s)
  {
    hide SolvesAt, IsSolution, Computed, Topological, WellFormed;
    values := map[];
    ghost var order;
    errors, order := CheckAll(c.decls, symbols);
    Covered(c.decls, symbols);
    if errors == 0 {
      values := Evaluate(c, symbols, order);
      SolutionExists(c, order);
    }
  }

  lemma Covered(d: Decls, symbols: seq<Symbol>)
    requires forall s :: s in symbols <==> s in d
    ensures EntriesCover(DepGraph(d), symbols)
  {
    hide IsPath;
  }

  /** The values of all symbols; `order` lists every symbol behind those that it depends on. */
  method Evaluate(c: Config, symbols: seq<Symbol>, ghost order: seq<Symbol>) returns (values: map<Symbol, SymbolValue>)
    requires WellFormed(c.decls) && Topological(DepGraph(c.decls), order)
    requires forall s :: s in order <==> s in c.decls
    requires forall s :: s in symbols <==> s in c.decls
    ensures forall env: Env, s :: IsSolution(c, env) && s in c.decls ==> s in values && values[s] == env(s)
  {
    hide SolvesAt, IsSolution, Computed, Topological, WellFormed;
    var ev := new Evaluator(c.decls, c.modulesVal, c.user, order);
    ev.CalcAll(symbols);
    values := map s | s in c.decls :: ev.state[s].value;
    ev.SolvedNow();
    forall env: Env, s | IsSolution(c, env) && s in c.decls ensures values[s] == env(s) {
      SolutionUnique(c, order, env, ev.sol);
      assert env(s) == ev.sol(s);
    }
  }
}
