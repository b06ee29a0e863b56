/**
 Macro expansion (preprocess.c): variables, user-defined functions, built-in functions
 and the environment, with a counter for every variable that is being expanded.
 */
module Macros {
  import Expr

  datatype Flavor = Simple | Recursive

  datatype Variable = Variable(name: string, value: string, flavor: Flavor)

  /** A built-in function that is missing, that returns a text, or that stops with an error. */
  datatype Builtin = Missing | Returns(text: string) | Fails

  datatype OptText = NoText | Text(text: string)

  /** What is fixed during an expansion; built-in functions and the environment are left open. */
  datatype Context = Context(vars: seq<Variable>, builtin: (string, seq<string>) -> Builtin, env: string -> OptText)

  /** pperror ends the program. */
  datatype Attempt<T> = Ok(value: T) | Error

  const MAX_ARGS: nat := 16
  const MAX_DEPTH: nat := 1000

  // ----- the counters -----

  /** How often variables can still be entered. */
  function Budget(counts: seq<nat>): nat
  {
    if counts == [] then 0
    else (if counts[0] <= MAX_DEPTH + 1 then MAX_DEPTH + 1 - counts[0] else 0) + Budget(counts[1..])
  }

  function Entered(counts: seq<nat>, i: nat): seq<nat>
    requires i < |counts|
  {
    counts[i := counts[i] + 1]
  }

  lemma {:induction false} EnteredBudget(counts: seq<nat>, i: nat)
    requires i < |counts| && counts[i] <= MAX_DEPTH
    ensures Budget(Entered(counts, i)) < Budget(counts)
  {
    if i > 0 {
      EnteredBudget(counts[1..], i - 1);
      assert Entered(counts, i)[1..] == Entered(counts[1..], i - 1);
    } else {
      assert Entered(counts, i)[1..] == counts[1..];
    }
  }

  /** variable_lookup; the number of variables if there is none of that name. */
  function Lookup(vars: seq<Variable>, name: string): (i: nat)
    ensures i <= |vars| && (i < |vars| ==> vars[i].name == name) && forall j :: 0 <= j < i ==> vars[j].name != name
  {
    if vars == [] || vars[0].name == name then 0 else 1 + Lookup(vars[1..], name)
  }

  // ----- clauses -----

  /** How a parenthesis changes the nesting. */
  function Nest(c: char): int { if c == '(' then 1 else if c == ')' then -1 else 0 }

  /** The place of the parenthesis that closes the text `s`, or its length if there is none. */
  function Closing(s: string, nest: nat): (q: nat)
    ensures q <= |s| && (q < |s| ==> s[q] == ')')
  {
    if s == "" then 0
    else if s[0] == ')' && nest == 0 then 0
    else 1 + Closing(s[1..], nest + Nest(s[0]))
  }

  /** The pieces of a clause, where `piece` is what was read of the current one. */
  function Split(s: string, nest: int, piece: string): (r: seq<string>)
    ensures r != []
  {
    if s == "" then [piece]
    else if nest == 0 && s[0] == ',' then [piece] + Split(s[1..], 0, "")
    else Split(s[1..], nest + Nest(s[0]), piece + [s[0]])
  }

  function Join(pieces: seq<string>): string
    requires pieces != []
  {
    if |pieces| == 1 then pieces[0] else pieces[0] + "," + Join(pieces[1..])
  }

  function Depth(s: string): int
  {
    if s == "" then 0 else Depth(s[..|s| - 1]) + Nest(s[|s| - 1])
  }

  /** Every comma of a piece is inside parentheses, and the piece ends outside of them. */
  predicate CommasInside(piece: string)
  {
    forall i :: 0 <= i < |piece| && piece[i] == ',' ==> Depth(piece[..i]) != 0
  }

  /** The pieces, joined by commas, are the clause. */
  lemma {:induction false} SplitJoin(s: string, nest: int, piece: string)
    ensures Join(Split(s, nest, piece)) == piece + s
    decreases |s|
  {
    if s != "" {
      if nest == 0 && s[0] == ',' {
        SplitJoin(s[1..], 0, "");
        assert Split(s, nest, piece)[1..] == Split(s[1..], 0, "");
        assert piece + "," + s[1..] == piece + s;
      } else {
        SplitJoin(s[1..], nest + Nest(s[0]), piece + [s[0]]);
        assert piece + [s[0]] + s[1..] == piece + s;
      }
    }
  }

  lemma DepthAppend(s: string, c: char)
    ensures Depth(s + [c]) == Depth(s) + Nest(c)
  {
    assert (s + [c])[..|s|] == s;
  }

  ghost predicate SplitOutside(pieces: seq<string>)
  {
    && (forall k :: 0 <= k < |pieces| ==> CommasInside(pieces[k]))
    && forall k :: 0 <= k < |pieces| - 1 ==> Depth(pieces[k]) == 0
  }

  lemma SplitOutsideCons(piece: string, pieces: seq<string>)
    requires CommasInside(piece) && Depth(piece) == 0 && SplitOutside(pieces)
    ensures SplitOutside([piece] + pieces)
  {
    hide CommasInside, Depth;
    var all := [piece] + pieces;
    forall k | 0 <= k < |all| ensures CommasInside(all[k]) && (k < |all| - 1 ==> Depth(all[k]) == 0) {
      assert k > 0 ==> all[k] == pieces[k - 1];
    }
  }

  lemma CommasStep(piece: string, c: char)
    requires CommasInside(piece) && (c == ',' ==> Depth(piece) != 0)
    ensures CommasInside(piece + [c]) && Depth(piece + [c]) == Depth(piece) + Nest(c)
  {
    var p := piece + [c];
    DepthAppend(piece, c);
    forall i | 0 <= i < |p| && p[i] == ',' ensures Depth(p[..i]) != 0 {
      assert p[..i] == piece[..i];
    }
  }

  /** Clauses are split at commas outside parentheses only, and at all of them. */
  lemma {:induction false} SplitAtDepthZero(s: string, nest: int, piece: string)
    requires nest == Depth(piece) && CommasInside(piece)
    ensures SplitOutside(Split(s, nest, piece))
    decreases |s|
  {
    hide CommasInside, Depth;
    if s == "" {
      assert SplitOutside([piece]);
    } else if nest == 0 && s[0] == ',' {
      EmptyPiece();
      SplitAtDepthZero(s[1..], 0, "");
      SplitOutsideCons(piece, Split(s[1..], 0, ""));
    } else {
      CommasStep(piece, s[0]);
      SplitAtDepthZero(s[1..], nest + Nest(s[0]), piece + [s[0]]);
    }
  }

  lemma EmptyPiece()
    ensures CommasInside("") && Depth("") == 0
  {
  }

  lemma {:induction false} PiecesShort(s: string, nest: int, piece: string)
    ensures forall k {:trigger Split(s, nest, piece)[k]} :: 0 <= k < |Split(s, nest, piece)| ==> |Split(s, nest, piece)[k]| <= |piece| + |s|
    decreases |s|
  {
    if s != "" {
      if nest == 0 && s[0] == ',' {
        PiecesShort(s[1..], 0, "");
      } else {
        PiecesShort(s[1..], nest + Nest(s[0]), piece + [s[0]]);
      }
    }
  }

  // strtoul of the whole clause

  const ULONG: nat := 0x1_0000_0000_0000_0000

  function Digits(s: string, acc: nat): OptNumber
  {
    if s == "" then Number(acc) else if Expr.IsDigit(s[0]) then Digits(s[1..], acc * 10 + (s[0] - '0') as nat) else NoNumber
  }

  datatype OptNumber = NoNumber | Number(n: nat)

  predicate IsBlank(c: char) { c == ' ' || '\t' <= c <= '\r' }

  /** The number of the argument that a clause names, 0 if it is not a number. */
  function ArgNumber(s: string): nat
  {
    if s != "" && IsBlank(s[0]) then ArgNumber(s[1..])
    else
      var negative := s != "" && s[0] == '-';
      var t := if s != "" && (s[0] == '-' || s[0] == '+') then s[1..] else s;
      if t == "" then 0
      else
        match Digits(t, 0)
        case NoNumber => 0
        case Number(n) => if n >= ULONG then ULONG - 1 else if negative then (ULONG - n) % ULONG else n
  }

  // ----- expansion -----

  predicate IsEndOfToken(c: char)
  {
    !('a' <= c <= 'z' || 'A' <= c <= 'Z' || Expr.IsDigit(c) || c == '_' || c == '-')
  }

  /** The expansion of a text, and what is left of it. */
  datatype Expansion = Expansion(text: string, rest: string)

  function Prepend(p: string, r: Attempt<Expansion>): Attempt<Expansion>
  {
    match r
    case Error => Error
    case Ok(x) => Ok(Expansion(p + x.text, x.rest))
  }

  /** __expand_string: to the end of the text, or for a token to the first character after it. */
  function ExpandFrom(c: Context, counts: seq<nat>, s: string, token: bool, args: seq<string>): (r: Attempt<Expansion>)
    requires |counts| == |c.vars|
    ensures r.Ok? ==> |r.value.rest| <= |s| && (!token ==> r.value.rest == "")
    decreases Budget(counts), |s|, 0, 0
  {
    if s == "" then Ok(Expansion("", ""))
    else if s[0] == '$' then
      match Dollar(c, counts, s[1..], args)
      case Error => Error
      case Ok(x) => Prepend(x.text, ExpandFrom(c, counts, x.rest, token, args))
    else if token && IsEndOfToken(s[0]) then Ok(Expansion("", s))
    else Prepend([s[0]], ExpandFrom(c, counts, s[1..], token, args))
  }

  /** expand_dollar_with_args: what follows a dollar sign. */
  function Dollar(c: Context, counts: seq<nat>, s: string, args: seq<string>): (r: Attempt<Expansion>)
    requires |counts| == |c.vars|
    ensures r.Ok? ==> |r.value.rest| <= |s| && r.value.rest == s[|s| - |r.value.rest|..]
    decreases Budget(counts), |s|, 0, 0
  {
    if s == "" || s[0] != '(' then Ok(Expansion("$", s))
    else
      var q := Closing(s[1..], 0);
      if q == |s| - 1 then Error
      else
        match Clause(c, counts, s[1..][..q], args)
        case Error => Error
        case Ok(x) => Ok(Expansion(x, s[1..][q + 1..]))
  }

  /** eval_clause */
  function Clause(c: Context, counts: seq<nat>, s: string, args: seq<string>): Attempt<string>
    requires |counts| == |c.vars|
    decreases Budget(counts), |s|, 2, 0
  {
    var n := ArgNumber(s);
    if 0 < n <= |args| then Ok(args[n - 1])
    else
      var pieces := Split(s, 0, "");
      PiecesShort(s, 0, "");
      if |pieces| > MAX_ARGS then Error
      else
        match ExpandAll(c, counts, pieces, args, |s|)
        case Error => Error
        case Ok(texts) => Called(c, counts, texts[0], texts[1..])
  }

  /** The expansions of several texts that are at most `len` long. */
  function ExpandAll(c: Context, counts: seq<nat>, texts: seq<string>, args: seq<string>, len: nat): (r: Attempt<seq<string>>)
    requires |counts| == |c.vars| && forall k {:trigger texts[k]} :: 0 <= k < |texts| ==> |texts[k]| <= len
    ensures r.Ok? ==> |r.value| == |texts|
    decreases Budget(counts), len, 1, |texts|
  {
    if texts == [] then Ok([])
    else
      match ExpandFrom(c, counts, texts[0], false, args)
      case Error => Error
      case Ok(x) =>
        match ExpandAll(c, counts, texts[1..], args, len)
        case Error => Error
        case Ok(xs) => Ok([x.text] + xs)
  }

  /** The value of a name with arguments: a variable, a built-in function, the environment, or nothing. */
  function Called(c: Context, counts: seq<nat>, name: string, args: seq<string>): Attempt<string>
    requires |counts| == |c.vars|
    decreases Budget(counts), 0, 1, 0
  {
    var i := Lookup(c.vars, name);
    if i < |c.vars| then VariableExpand(c, counts, i, args)
    else
      match c.builtin(name, args)
      case Returns(x) => Ok(x)
      case Fails => Error
      case Missing =>
        if args != [] || name == "" then Ok("")
        else match c.env(name) case Text(x) => Ok(x) case NoText => Ok("")
  }

  /** variable_expand */
  function VariableExpand(c: Context, counts: seq<nat>, i: nat, args: seq<string>): Attempt<string>
    requires |counts| == |c.vars| && i < |c.vars|
    decreases Budget(counts), 0, 0, 0
  {
    if args == [] && counts[i] > 0 then Error
    else if counts[i] > MAX_DEPTH then Error
    else if c.vars[i].flavor == Simple then Ok(c.vars[i].value)
    else
      EnteredBudget(counts, i);
      match ExpandFrom(c, Entered(counts, i), c.vars[i].value, false, args)
      case Error => Error
      case Ok(x) => Ok(x.text)
  }

  // ----- the counters only stop an expansion -----

  ghost predicate Lower(counts': seq<nat>, counts: seq<nat>)
  {
    |counts'| == |counts| && forall i :: 0 <= i < |counts| ==> counts'[i] <= counts[i]
  }

  /** With lower counters, an expansion that succeeds gives the same text. */
  lemma {:induction false} LowerCounters(c: Context, counts: seq<nat>, counts': seq<nat>, s: string, token: bool, args: seq<string>)
    requires |counts| == |c.vars| && Lower(counts', counts) && ExpandFrom(c, counts, s, token, args).Ok?
    ensures ExpandFrom(c, counts', s, token, args) == ExpandFrom(c, counts, s, token, args)
    decreases Budget(counts), |s|, 0, 0
  {
    if s != "" {
      if s[0] == '$' {
        LowerDollar(c, counts, counts', s[1..], args);
        LowerCounters(c, counts, counts', Dollar(c, counts, s[1..], args).value.rest, token, args);
      } else if !(token && IsEndOfToken(s[0])) {
        LowerCounters(c, counts, counts', s[1..], token, args);
      }
    }
  }

  lemma {:induction false} LowerDollar(c: Context, counts: seq<nat>, counts': seq<nat>, s: string, args: seq<string>)
    requires |counts| == |c.vars| && Lower(counts', counts) && Dollar(c, counts, s, args).Ok?
    ensures Dollar(c, counts', s, args) == Dollar(c, counts, s, args)
    decreases Budget(counts), |s|, 0, 0
  {
    if s != "" && s[0] == '(' {
      LowerClause(c, counts, counts', s[1..][..Closing(s[1..], 0)], args);
    }
  }

  lemma {:induction false} LowerClause(c: Context, counts: seq<nat>, counts': seq<nat>, s: string, args: seq<string>)
    requires |counts| == |c.vars| && Lower(counts', counts) && Clause(c, counts, s, args).Ok?
    ensures Clause(c, counts', s, args) == Clause(c, counts, s, args)
    decreases Budget(counts), |s|, 2, 0
  {
    if !(0 < ArgNumber(s) <= |args|) {
      var pieces := Split(s, 0, "");
      PiecesShort(s, 0, "");
      LowerAll(c, counts, counts', pieces, args, |s|);
      var texts := ExpandAll(c, counts, pieces, args, |s|).value;
      LowerCalled(c, counts, counts', texts[0], texts[1..]);
    }
  }

  lemma {:induction false} LowerAll(c: Context, counts: seq<nat>, counts': seq<nat>, texts: seq<string>, args: seq<string>, len: nat)
    requires |counts| == |c.vars| && Lower(counts', counts)
    requires forall k {:trigger texts[k]} :: 0 <= k < |texts| ==> |texts[k]| <= len
    requires ExpandAll(c, counts, texts, args, len).Ok?
    ensures ExpandAll(c, counts', texts, args, len) == ExpandAll(c, counts, texts, args, len)
    decreases Budget(counts), len, 1, |texts|
  {
    if texts != [] {
      LowerCounters(c, counts, counts', texts[0], false, args);
      LowerAll(c, counts, counts', texts[1..], args, len);
    }
  }

  lemma {:induction false} LowerCalled(c: Context, counts: seq<nat>, counts': seq<nat>, name: string, args: seq<string>)
    requires |counts| == |c.vars| && Lower(counts', counts) && Called(c, counts, name, args).Ok?
    ensures Called(c, counts', name, args) == Called(c, counts, name, args)
    decreases Budget(counts), 0, 1, 0
  {
    var i := Lookup(c.vars, name);
    if i < |c.vars| && c.vars[i].flavor == Recursive {
      EnteredBudget(counts, i);
      LowerCounters(c, Entered(counts, i), Entered(counts', i), c.vars[i].value, false, args);
    }
  }

  // ----- expansion piece by piece -----

  lemma {:induction false} ClosingAppend(s: string, t: string, nest: nat)
    requires Closing(s, nest) < |s|
    ensures Closing(s + t, nest) == Closing(s, nest)
  {
    if !(s[0] == ')' && nest == 0) {
      ClosingAppend(s[1..], t, nest + Nest(s[0]));
      assert (s + t)[1..] == s[1..] + t;
    }
  }

  /**
   The expansion of a text that does not end in a dollar sign does not depend on what
   follows it: the two are expanded one after the other.
   */
  lemma {:induction false} ExpandAppend(c: Context, counts: seq<nat>, s: string, t: string, args: seq<string>)
    requires |counts| == |c.vars| && ExpandFrom(c, counts, s, false, args).Ok? && (s != "" ==> s[|s| - 1] != '$')
    ensures ExpandFrom(c, counts, s + t, false, args) ==
            Prepend(ExpandFrom(c, counts, s, false, args).value.text, ExpandFrom(c, counts, t, false, args))
    decreases |s|
  {
    if s == "" {
      assert s + t == t;
      PrependEmpty(ExpandFrom(c, counts, t, false, args));
    } else {
      assert (s + t)[1..] == s[1..] + t;
      if s[0] == '$' {
        DollarAppend(c, counts, s[1..], t, args);
        var x := Dollar(c, counts, s[1..], args).value;
        ExpandAppend(c, counts, x.rest, t, args);
        PrependTwice(x.text, ExpandFrom(c, counts, x.rest, false, args).value.text, ExpandFrom(c, counts, t, false, args));
      } else {
        ExpandAppend(c, counts, s[1..], t, args);
        PrependTwice([s[0]], ExpandFrom(c, counts, s[1..], false, args).value.text, ExpandFrom(c, counts, t, false, args));
      }
    }
  }

  lemma DollarAppend(c: Context, counts: seq<nat>, s: string, t: string, args: seq<string>)
    requires |counts| == |c.vars| && s != "" && Dollar(c, counts, s, args).Ok?
    ensures var x := Dollar(c, counts, s, args).value;
            Dollar(c, counts, s + t, args) == Ok(Expansion(x.text, x.rest + t))
  {
    if s[0] == '(' {
      var q := Closing(s[1..], 0);
      ClosingAppend(s[1..], t, 0);
      assert (s + t)[1..] == s[1..] + t;
      assert (s[1..] + t)[..q] == s[1..][..q] && (s[1..] + t)[q + 1..] == s[1..][q + 1..] + t;
    }
  }

  lemma PrependEmpty(r: Attempt<Expansion>)
    ensures Prepend("", r) == r
  {
    if r.Ok? {
      assert "" + r.value.text == r.value.text;
    }
  }

  lemma PrependDone(p: string, rest: string)
    ensures Prepend(p, Ok(Expansion("", rest))) == Ok(Expansion(p, rest)) && Prepend(p, Error) == Error
  {
    assert p + "" == p;
  }

  lemma PrependTwice(p: string, q: string, r: Attempt<Expansion>)
    ensures Prepend(p, Prepend(q, r)) == Prepend(p + q, r)
  {
    if r.Ok? {
      assert p + (q + r.value.text) == p + q + r.value.text;
    }
  }

  // ----- the loops and the counters in place -----

  /** The pieces found so far, and the rest of the clause. */
  lemma SplitStep(s: string, nest: int, prev: nat, p: nat)
    requires prev <= p < |s|
    ensures nest == 0 && s[p] == ',' ==> Split(s[p..], nest, s[prev..p]) == [s[prev..p]] + Split(s[p + 1..], 0, s[p + 1..p + 1])
    ensures !(nest == 0 && s[p] == ',') ==> Split(s[p..], nest, s[prev..p]) == Split(s[p + 1..], nest + Nest(s[p]), s[prev..p + 1])
  {
    assert s[p..][0] == s[p] && s[p..][1..] == s[p + 1..] && s[prev..p] + [s[p]] == s[prev..p + 1];
    assert s[p + 1..p + 1] == "";
  }

  /** The loop of eval_clause that splits a clause. */
  method SplitClause(s: string) returns (r: Attempt<seq<string>>)
    ensures r == if |Split(s, 0, "")| > MAX_ARGS then Error else Ok(Split(s, 0, ""))
  {
    hide Split;
    var pieces: seq<string> := [];
    var prev, p, nest := 0, 0, 0;
    assert s[0..] == s && s[0..0] == "";
    while p < |s|
      invariant prev <= p <= |s| && |pieces| <= MAX_ARGS
      invariant Split(s, 0, "") == pieces + Split(s[p..], nest, s[prev..p])
    {
      SplitStep(s, nest, prev, p);
      if nest == 0 && s[p] == ',' {
        if |pieces| >= MAX_ARGS {
          return Error;
        }
        pieces := pieces + [s[prev..p]];
        prev := p + 1;
      } else if s[p] == '(' {
        nest := nest + 1;
      } else if s[p] == ')' {
        nest := nest - 1;
      }
      p := p + 1;
    }
    SplitEnd(s[p..], nest, s[prev..p]);
    if |pieces| >= MAX_ARGS {
      return Error;
    }
    r := Ok(pieces + [s[prev..p]]);
  }

  lemma SplitEnd(s: string, nest: int, piece: string)
    requires s == ""
    ensures Split(s, nest, piece) == [piece]
  {
  }

  /** The loop of expand_dollar_with_args that looks for the closing parenthesis. */
  method FindClosing(s: string) returns (q: nat)
    ensures q == Closing(s, 0)
  {
    q := 0;
    var nest: nat := 0;
    while q < |s|
      invariant q <= |s| && Closing(s, 0) == q + Closing(s[q..], nest)
    {
      if s[q] == '(' {
        nest := nest + 1;
      } else if s[q] == ')' {
        if nest == 0 {
          break;
        }
        nest := nest - 1;
      }
      q := q + 1;
    }
  }

  class Expander {
    const c: Context
    var counts: seq<nat>

    constructor (c: Context)
      ensures this.c == c && counts == seq(|c.vars|, _ => 0)
    {
      this.c := c;
      counts := seq(|c.vars|, _ => 0);
    }

    /** __expand_string: an expansion that succeeds leaves all counters as they were. */
    method ExpandString(s: string, token: bool, args: seq<string>) returns (r: Attempt<Expansion>)
      requires |counts| == |c.vars|
      modifies this
      ensures r == ExpandFrom(c, old(counts), s, token, args) && (r.Ok? ==> counts == old(counts))
      decreases Budget(counts), |s|, 0, 1
    {
      hide ExpandFrom, Dollar, Prepend, Budget;
      var start, p, out := 0, 0, "";
      PrependEmpty(ExpandFrom(c, counts, s, token, args));
      assert s[0..] == s && out + s[0..0] == "";
      while true
        invariant 0 <= start <= p <= |s| && counts == old(counts)
        invariant ExpandFrom(c, counts, s, token, args) == Prepend(out + s[start..p], ExpandFrom(c, counts, s[p..], token, args))
        decreases |s| - p
      {
        ExpandStep(c, counts, s, p, token, args);
        if p < |s| && s[p] == '$' {
          var x := ExpandDollar(s[p + 1..], args);
          if x.Error? {
            PrependDone(out + s[start..p], s);
            return Error;
          }
          PrependTwice(out + s[start..p], x.value.text, ExpandFrom(c, counts, x.value.rest, token, args));
          out := out + s[start..p] + x.value.text;
          p := |s| - |x.value.rest|;
          start := p;
          assert s[p..] == x.value.rest && out + s[p..p] == out;
        } else if p == |s| || (token && IsEndOfToken(s[p])) {
          break;
        } else {
          PrependTwice(out + s[start..p], [s[p]], ExpandFrom(c, counts, s[p + 1..], token, args));
          assert out + s[start..p] + [s[p]] == out + s[start..p + 1];
          p := p + 1;
        }
      }
      PrependDone(out + s[start..p], s[p..]);
      r := Ok(Expansion(out + s[start..p], s[p..]));
    }

    /** expand_dollar_with_args */
    method ExpandDollar(s: string, args: seq<string>) returns (r: Attempt<Expansion>)
      requires |counts| == |c.vars|
      modifies this
      ensures r == Dollar(c, old(counts), s, args) && (r.Ok? ==> counts == old(counts))
      decreases Budget(counts), |s|, 0, 1
    {
      if s == "" || s[0] != '(' {
        return Ok(Expansion("$", s));
      }
      var q := FindClosing(s[1..]);
      if q == |s| - 1 {
        return Error;
      }
      var x := EvalClause(s[1..][..q], args);
      r := if x.Ok? then Ok(Expansion(x.value, s[1..][q + 1..])) else Error;
    }

    /** eval_clause */
    method EvalClause(s: string, args: seq<string>) returns (r: Attempt<string>)
      requires |counts| == |c.vars|
      modifies this
      ensures r == Clause(c, old(counts), s, args) && (r.Ok? ==> counts == old(counts))
      decreases Budget(counts), |s|, 2, 1
    {
      var n := ArgNumber(s);
      if 0 < n <= |args| {
        return Ok(args[n - 1]);
      }
      var pieces := SplitClause(s);
      if pieces.Error? {
        return Error;
      }
      PiecesShort(s, 0, "");
      var texts := ExpandPieces(pieces.value, args, |s|);
      if texts.Error? {
        return Error;
      }
      r := Call(texts.value[0], texts.value[1..]);
    }

    /** The loop of eval_clause over the name and the arguments. */
    method ExpandPieces(pieces: seq<string>, args: seq<string>, ghost len: nat) returns (r: Attempt<seq<string>>)
      requires |counts| == |c.vars| && forall k {:trigger pieces[k]} :: 0 <= k < |pieces| ==> |pieces[k]| <= len
      modifies this
      ensures r == ExpandAll(c, old(counts), pieces, args, len) && (r.Ok? ==> counts == old(counts))
      decreases Budget(counts), len, 1, 1
    {
      var texts: seq<string> := [];
      var i := 0;
      assert pieces[0..] == pieces;
      AfterAll([], ExpandAll(c, counts, pieces, args, len));
      while i < |pieces|
        invariant i <= |pieces| && counts == old(counts) && |texts| == i
        invariant ExpandAll(c, counts, pieces, args, len) == After(texts, ExpandAll(c, counts, pieces[i..], args, len))
      {
        var x := ExpandString(pieces[i], false, args);
        assert pieces[i..][0] == pieces[i] && pieces[i..][1..] == pieces[i + 1..];
        if x.Error? {
          return Error;
        }
        AfterTwice(texts, x.value.text, ExpandAll(c, counts, pieces[i + 1..], args, len));
        texts := texts + [x.value.text];
        i := i + 1;
      }
      assert texts + [] == texts;
      r := Ok(texts);
    }

    /** The search for a value: variables, built-in functions, the environment. */
    method Call(name: string, args: seq<string>) returns (r: Attempt<string>)
      requires |counts| == |c.vars|
      modifies this
      ensures r == Called(c, old(counts), name, args) && (r.Ok? ==> counts == old(counts))
      decreases Budget(counts), 0, 1, 1
    {
      var i := Lookup(c.vars, name);
      if i < |c.vars| {
        r := ExpandVariable(i, args);
        return;
      }
      match c.builtin(name, args) {
        case Returns(x) => return Ok(x);
        case Fails => return Error;
        case Missing =>
      }
      if args != [] || name == "" {
        return Ok("");
      }
      var e := c.env(name);
      r := Ok(if e.Text? then e.text else "");
    }

    /** variable_expand */
    method ExpandVariable(i: nat, args: seq<string>) returns (r: Attempt<string>)
      requires |counts| == |c.vars| && i < |c.vars|
      modifies this
      ensures r == VariableExpand(c, old(counts), i, args) && (r.Ok? ==> counts == old(counts))
      decreases Budget(counts), 0, 0, 1
    {
      if args == [] && counts[i] > 0 {
        return Error;
      }
      if counts[i] > MAX_DEPTH {
        return Error;
      }
      EnteredBudget(counts, i);
      counts := counts[i := counts[i] + 1];
      if c.vars[i].flavor == Recursive {
        var x := ExpandString(c.vars[i].value, false, args);
        if x.Error? {
          return Error;
        }
        r := Ok(x.value.text);
      } else {
        r := Ok(c.vars[i].value);
      }
      counts := counts[i := counts[i] - 1];
      assert counts == old(counts);
    }
  }

  function After(texts: seq<string>, r: Attempt<seq<string>>): Attempt<seq<string>>
  {
    match r case Error => Error case Ok(xs) => Ok(texts + xs)
  }

  lemma AfterAll(texts: seq<string>, r: Attempt<seq<string>>)
    requires texts == []
    ensures After(texts, r) == r
  {
    if r.Ok? {
      assert texts + r.value == r.value;
    }
  }

  lemma AfterTwice(texts: seq<string>, x: string, r: Attempt<seq<string>>)
    ensures After(texts, After([x], r)) == After(texts + [x], r)
  {
    if r.Ok? {
      assert texts + ([x] + r.value) == texts + [x] + r.value;
    }
  }

  /** One step of the loop in __expand_string. */
  lemma ExpandStep(c: Context, counts: seq<nat>, s: string, p: nat, token: bool, args: seq<string>)
    requires |counts| == |c.vars| && p <= |s|
    ensures p == |s| ==> ExpandFrom(c, counts, s[p..], token, args) == Ok(Expansion("", ""))
    ensures p < |s| && s[p] == '$' ==>
              ExpandFrom(c, counts, s[p..], token, args) ==
              match Dollar(c, counts, s[p + 1..], args)
              case Error => Error
              case Ok(x) => Prepend(x.text, ExpandFrom(c, counts, x.rest, token, args))
    ensures p < |s| && s[p] != '$' ==>
              ExpandFrom(c, counts, s[p..], token, args) ==
              if token && IsEndOfToken(s[p]) then Ok(Expansion("", s[p..]))
              else Prepend([s[p]], ExpandFrom(c, counts, s[p + 1..], token, args))
  {
    if p < |s| {
      assert s[p..][0] == s[p] && s[p..][1..] == s[p + 1..];
    }
  }
}
