/**
 What a reference `$(...)` stands for: an argument of the surrounding call, a variable, a
 built-in function or the environment, in this order.
 */
module MacroLaws {
  import opened Macros
  import opened Numerals

  // ----- the argument that a number names -----

  lemma {:induction false} DigitsOf(n: nat, t: string)
    ensures Digits(Decimal(n) + t, 0) == Digits(t, n)
    decreases n
  {
    if n < 10 {
      assert (Decimal(n) + t)[1..] == t;
    } else {
      var u := [DigitChar(n % 10)] + t;
      assert Decimal(n) + t == Decimal(n / 10) + u;
      DigitsOf(n / 10, u);
      assert u[1..] == t;
    }
  }

  lemma DecimalNumber(n: nat)
    requires n < ULONG
    ensures ArgNumber(Decimal(n)) == n
  {
    DigitsOf(n, "");
    assert Decimal(n) + "" == Decimal(n);
  }

  // ----- pieces of a clause -----

  /** Parentheses match, starting inside `nest` of them, and all commas are inside. */
  predicate Balanced(s: string, nest: nat)
  {
    if s == "" then nest == 0
    else if s[0] == '(' then Balanced(s[1..], nest + 1)
    else if s[0] == ')' then nest > 0 && Balanced(s[1..], nest - 1)
    else (s[0] == ',' ==> nest > 0) && Balanced(s[1..], nest)
  }

  /** Text without a special character. */
  predicate Plain(s: string)
  {
    forall i :: 0 <= i < |s| ==> s[i] != '$' && s[i] != ',' && s[i] != '(' && s[i] != ')'
  }

  lemma {:induction false} PlainBalanced(s: string)
    requires Plain(s)
    ensures Balanced(s, 0)
  {
    if s != "" {
      PlainBalanced(s[1..]);
    }
  }

  lemma {:induction false} ClosingAfter(s: string, t: string, nest: nat)
    requires Balanced(s, nest)
    ensures Closing(s + t, nest) == |s| + Closing(t, 0)
  {
    if s == "" {
      assert s + t == t;
    } else {
      assert (s + t)[1..] == s[1..] + t;
      ClosingAfter(s[1..], t, nest + Nest(s[0]));
    }
  }

  lemma {:induction false} SplitAfter(s: string, t: string, nest: nat, piece: string)
    requires Balanced(s, nest)
    ensures Split(s + t, nest, piece) == Split(t, 0, piece + s)
    decreases |s|
  {
    if s == "" {
      assert s + t == t && piece + s == piece;
    } else {
      assert (s + t)[1..] == s[1..] + t;
      assert piece + [s[0]] + s[1..] == piece + s;
      SplitAfter(s[1..], t, nest + Nest(s[0]), piece + [s[0]]);
    }
  }

  lemma {:induction false} SplitJoined(pieces: seq<string>)
    requires pieces != [] && forall k :: 0 <= k < |pieces| ==> Balanced(pieces[k], 0)
    ensures Split(Join(pieces), 0, "") == pieces
  {
    hide Balanced;
    var s := pieces[0];
    assert "" + s == s;
    if |pieces| == 1 {
      SplitAfter(s, "", 0, "");
      assert s + "" == s;
    } else {
      var t := "," + Join(pieces[1..]);
      SplitAfter(s, t, 0, "");
      SplitJoined(pieces[1..]);
      assert t[1..] == Join(pieces[1..]) && s + "," + Join(pieces[1..]) == s + t;
    }
  }

  lemma {:induction false} ClosingJoined(pieces: seq<string>, t: string)
    requires pieces != [] && forall k :: 0 <= k < |pieces| ==> Balanced(pieces[k], 0)
    ensures Closing(Join(pieces) + t, 0) == |Join(pieces)| + Closing(t, 0)
  {
    hide Balanced, Closing;
    var s := pieces[0];
    if |pieces| == 1 {
      ClosingAfter(s, t, 0);
    } else {
      var r := Join(pieces[1..]);
      ClosingJoined(pieces[1..], t);
      ClosingAfter(s, "," + (r + t), 0);
      ClosingComma(r + t);
      assert s + "," + r + t == s + ("," + (r + t));
    }
  }

  lemma ClosingComma(t: string)
    ensures Closing("," + t, 0) == 1 + Closing(t, 0)
  {
    assert ("," + t)[1..] == t;
  }

  // ----- references -----

  function Reference(clause: string): string { "$(" + clause + ")" }

  lemma ReferenceExpands(c: Context, counts: seq<nat>, clause: string, outer: seq<string>)
    requires |counts| == |c.vars| && Closing(clause + ")", 0) == |clause|
    ensures ExpandFrom(c, counts, Reference(clause), false, outer) ==
            match Clause(c, counts, clause, outer) case Error => Error case Ok(x) => Ok(Expansion(x, ""))
  {
    hide Clause, Closing;
    var s := Reference(clause)[1..];
    assert s[1..] == clause + ")" && s[1..][..|clause|] == clause && s[1..][|clause| + 1..] == "";
    var x := Clause(c, counts, clause, outer);
    assert Dollar(c, counts, s, outer) == match x case Error => Error case Ok(y) => Ok(Expansion(y, ""));
    if x.Ok? {
      PrependDone(x.value, "");
    }
  }

  /** Inside a call, `$(k)` is the k-th argument, counted from one. */
  lemma ArgumentLaw(c: Context, counts: seq<nat>, args: seq<string>, k: nat)
    requires |counts| == |c.vars| && 1 <= k <= |args| < ULONG
    ensures ExpandFrom(c, counts, "$(" + Decimal(k) + ")", false, args) == Ok(Expansion(args[k - 1], ""))
  {
    hide ExpandFrom, Split, ExpandAll, Called;
    PlainBalanced(Decimal(k));
    ClosingAfter(Decimal(k), ")", 0);
    DecimalNumber(k);
    ReferenceExpands(c, counts, Decimal(k), args);
  }

  /** Each text is the expansion of the piece at its place. */
  ghost predicate Expanded(c: Context, counts: seq<nat>, pieces: seq<string>, texts: seq<string>, outer: seq<string>)
    requires |counts| == |c.vars|
  {
    && |texts| == |pieces|
    && forall k {:trigger pieces[k]} :: 0 <= k < |pieces| ==>
         ExpandFrom(c, counts, pieces[k], false, outer) == Ok(Expansion(texts[k], ""))
  }

  lemma {:induction false} AllExpanded(c: Context, counts: seq<nat>, pieces: seq<string>, texts: seq<string>, outer: seq<string>, len: nat)
    requires |counts| == |c.vars| && Expanded(c, counts, pieces, texts, outer)
    requires forall k {:trigger pieces[k]} :: 0 <= k < |pieces| ==> |pieces[k]| <= len
    ensures ExpandAll(c, counts, pieces, outer, len) == Ok(texts)
    decreases |pieces|
  {
    hide ExpandFrom;
    if pieces != [] {
      assert Expanded(c, counts, pieces[1..], texts[1..], outer);
      AllExpanded(c, counts, pieces[1..], texts[1..], outer, len);
      assert [texts[0]] + texts[1..] == texts;
    } else {
      assert texts == [];
    }
  }

  /** The pieces of a call: name and arguments, no more than fit, and no number of an argument of the call around it. */
  ghost predicate IsCall(pieces: seq<string>, outer: seq<string>)
  {
    && 1 <= |pieces| <= 16 && (forall k :: 0 <= k < |pieces| ==> Balanced(pieces[k], 0))
    && (outer == [] || pieces[0] == "" || (!Expr.IsDigit(pieces[0][0]) && !IsBlank(pieces[0][0]) && pieces[0][0] !in "+-"))
  }

  lemma NoNumberThere(pieces: seq<string>, outer: seq<string>)
    requires IsCall(pieces, outer)
    ensures !(0 < ArgNumber(Join(pieces)) <= |outer|)
  {
    hide Balanced;
    var s := Join(pieces);
    if outer != [] && s != "" {
      assert s[0] == if pieces[0] == "" then ',' else pieces[0][0];
    }
  }

  lemma CallExpands(c: Context, counts: seq<nat>, pieces: seq<string>, texts: seq<string>, outer: seq<string>)
    requires |counts| == |c.vars| && IsCall(pieces, outer) && Expanded(c, counts, pieces, texts, outer)
    ensures ExpandFrom(c, counts, Reference(Join(pieces)), false, outer) ==
            match Called(c, counts, texts[0], texts[1..]) case Error => Error case Ok(x) => Ok(Expansion(x, ""))
  {
    hide ExpandFrom, Called, Balanced, Split, Expanded;
    var s := Join(pieces);
    ClosingJoined(pieces, ")");
    SplitJoined(pieces);
    NoNumberThere(pieces, outer);
    ReferenceExpands(c, counts, s, outer);
    PiecesShort(s, 0, "");
    assert "" + s == s;
    AllExpanded(c, counts, pieces, texts, outer, |s|);
  }

  /** The variable of that name that was defined first. */
  predicate IsVariable(vars: seq<Variable>, name: string, i: nat)
  {
    i < |vars| && vars[i].name == name && forall j :: 0 <= j < i ==> vars[j].name != name
  }

  /**
   A call of a variable: a simple one gives its value as it is, a recursive one the expansion
   of its value with the expanded arguments, unless it is being expanded already and has no
   arguments, or is so too deep.
   */
  lemma VariableLaw(c: Context, counts: seq<nat>, pieces: seq<string>, texts: seq<string>, outer: seq<string>, i: nat)
    requires |counts| == |c.vars| && IsCall(pieces, outer) && Expanded(c, counts, pieces, texts, outer)
    requires IsVariable(c.vars, texts[0], i)
    ensures ExpandFrom(c, counts, "$(" + Join(pieces) + ")", false, outer) ==
            if (|texts| == 1 && counts[i] > 0) || counts[i] > 1000 then Error
            else if c.vars[i].flavor == Simple then Ok(Expansion(c.vars[i].value, ""))
            else ExpandFrom(c, counts[i := counts[i] + 1], c.vars[i].value, false, texts[1..])
  {
    hide ExpandFrom, Balanced;
    CallExpands(c, counts, pieces, texts, outer);
    assert Lookup(c.vars, texts[0]) == i;
    var x := ExpandFrom(c, counts[i := counts[i] + 1], c.vars[i].value, false, texts[1..]);
    assert x.Ok? ==> x.value.rest == "";
  }

  /** Where there is no such variable, a built-in function is called, and without arguments the environment is asked. */
  lemma BuiltinLaw(c: Context, counts: seq<nat>, pieces: seq<string>, texts: seq<string>, outer: seq<string>)
    requires |counts| == |c.vars| && IsCall(pieces, outer) && Expanded(c, counts, pieces, texts, outer)
    requires forall j :: 0 <= j < |c.vars| ==> c.vars[j].name != texts[0]
    ensures var r := ExpandFrom(c, counts, "$(" + Join(pieces) + ")", false, outer);
            match c.builtin(texts[0], texts[1..])
            case Returns(x) => r == Ok(Expansion(x, ""))
            case Fails => r == Error
            case Missing =>
              r == Ok(Expansion(if |texts| == 1 && texts[0] != "" && c.env(texts[0]).Text? then c.env(texts[0]).text else "", ""))
  {
    hide ExpandFrom, Balanced;
    CallExpands(c, counts, pieces, texts, outer);
    assert Lookup(c.vars, texts[0]) == |c.vars|;
  }

  /** More than sixteen pieces are too many. */
  lemma TooManyLaw(c: Context, counts: seq<nat>, pieces: seq<string>)
    requires |counts| == |c.vars| && |pieces| > 16 && forall k :: 0 <= k < |pieces| ==> Balanced(pieces[k], 0)
    ensures ExpandFrom(c, counts, "$(" + Join(pieces) + ")", false, []) == Error
  {
    hide ExpandFrom, Balanced, Split, ExpandAll;
    ClosingJoined(pieces, ")");
    SplitJoined(pieces);
    ReferenceExpands(c, counts, Join(pieces), []);
  }

  // ----- plain text and plain calls -----

  lemma {:induction false} PlainExpands(c: Context, counts: seq<nat>, s: string, outer: seq<string>)
    requires |counts| == |c.vars| && forall i :: 0 <= i < |s| ==> s[i] != '$'
    ensures ExpandFrom(c, counts, s, false, outer) == Ok(Expansion(s, ""))
    decreases |s|
  {
    if s != "" {
      PlainExpands(c, counts, s[1..], outer);
      assert [s[0]] + s[1..] == s;
    }
  }

  lemma PlainCall(c: Context, counts: seq<nat>, pieces: seq<string>)
    requires |counts| == |c.vars| && 1 <= |pieces| <= 16 && forall k :: 0 <= k < |pieces| ==> Plain(pieces[k])
    ensures IsCall(pieces, []) && Expanded(c, counts, pieces, pieces, [])
  {
    hide ExpandFrom, Balanced;
    forall k | 0 <= k < |pieces|
      ensures Balanced(pieces[k], 0) && ExpandFrom(c, counts, pieces[k], false, []) == Ok(Expansion(pieces[k], ""))
    {
      PlainBalanced(pieces[k]);
      PlainExpands(c, counts, pieces[k], []);
    }
  }

  /** Calling a recursive variable whose value is `$(k)` gives the k-th of at most fifteen plain arguments. */
  lemma ParameterLaw(c: Context, counts: seq<nat>, name: string, args: seq<string>, i: nat, k: nat)
    requires |counts| == |c.vars| && Plain(name) && |args| <= 15 && forall j :: 0 <= j < |args| ==> Plain(args[j])
    requires IsVariable(c.vars, name, i) && counts[i] <= 1000
    requires 1 <= k <= |args| && c.vars[i].flavor == Recursive && c.vars[i].value == "$(" + Decimal(k) + ")"
    ensures ExpandFrom(c, counts, "$(" + Join([name] + args) + ")", false, []) == Ok(Expansion(args[k - 1], ""))
  {
    hide ExpandFrom, IsCall, Expanded;
    var pieces := [name] + args;
    PlainCall(c, counts, pieces);
    VariableLaw(c, counts, pieces, pieces, [], i);
    assert pieces[1..] == args;
    ArgumentLaw(c, counts[i := counts[i] + 1], args, k);
  }

  /** With `f = $(1)-$(2)`, the call `$(f,x,y)` gives `x-y`. */
  lemma TwoParameters(c: Context, counts: seq<nat>, x: string, y: string, i: nat)
    requires |counts| == |c.vars| && Plain(x) && Plain(y) && IsVariable(c.vars, "f", i) && counts[i] <= 1000
    requires c.vars[i].flavor == Recursive && c.vars[i].value == "$(1)-$(2)"
    ensures ExpandFrom(c, counts, "$(f," + x + "," + y + ")", false, []) == Ok(Expansion(x + "-" + y, ""))
  {
    hide ExpandFrom, IsCall, Expanded;
    var pieces := ["f", x, y];
    PlainCall(c, counts, pieces);
    VariableLaw(c, counts, pieces, pieces, [], i);
    JoinThree("f", x, y);
    assert "$(" + "f" + "," == "$(f,";
    assert pieces[1..] == [x, y];
    BothParameters(c, counts[i := counts[i] + 1], x, y);
  }

  lemma BothParameters(c: Context, counts: seq<nat>, x: string, y: string)
    requires |counts| == |c.vars|
    ensures ExpandFrom(c, counts, "$(1)-$(2)", false, [x, y]) == Ok(Expansion(x + "-" + y, ""))
  {
    hide ExpandFrom;
    ArgumentLaw(c, counts, [x, y], 1);
    ArgumentLaw(c, counts, [x, y], 2);
    assert "$(" + Decimal(1) + ")" == "$(1)" && "$(" + Decimal(2) + ")" == "$(2)";
    PlainExpands(c, counts, "-", [x, y]);
    ExpandAppend(c, counts, "$(1)", "-", [x, y]);
    assert "$(1)" + "-" == "$(1)-";
    ExpandAppend(c, counts, "$(1)-", "$(2)", [x, y]);
    assert "$(1)-$(2)" == "$(1)-" + "$(2)";
  }

  lemma JoinThree(a: string, x: string, y: string)
    ensures "$(" + Join([a, x, y]) + ")" == "$(" + a + "," + x + "," + y + ")"
  {
    assert [a, x, y][1..] == [x, y] && [x, y][1..] == [y];
    assert Join([x, y]) == x + "," + y && Join([a, x, y]) == a + "," + Join([x, y]);
    assert "$(" + (a + "," + (x + "," + y)) + ")" == "$(" + a + "," + x + "," + y + ")";
  }

  // ----- dollar signs and tokens -----

  /** A dollar sign that no parenthesis follows stands for itself. */
  lemma DollarLaw(c: Context, counts: seq<nat>, s: string, token: bool, outer: seq<string>)
    requires |counts| == |c.vars| && (s == "" || s[0] != '(')
    ensures ExpandFrom(c, counts, "$" + s, token, outer) ==
            match ExpandFrom(c, counts, s, token, outer)
            case Error => Error
            case Ok(x) => Ok(Expansion("$" + x.text, x.rest))
  {
    assert ("$" + s)[1..] == s;
    assert Dollar(c, counts, s, outer) == Ok(Expansion("$", s));
  }

  /** A reference without its closing parenthesis is an error. */
  lemma UnclosedLaw(c: Context, counts: seq<nat>, s: string, token: bool, outer: seq<string>)
    requires |counts| == |c.vars| && Plain(s)
    ensures ExpandFrom(c, counts, "$(" + s, token, outer) == Error
  {
    PlainBalanced(s);
    ClosingAfter(s, "", 0);
    assert s + "" == s && ("$(" + s)[1..] == "(" + s && ("(" + s)[1..] == s;
    hide Clause;
    assert Dollar(c, counts, "(" + s, outer) == Error;
  }

  predicate IsTokenChar(c: char) { 'a' <= c <= 'z' || 'A' <= c <= 'Z' || '0' <= c <= '9' || c == '_' || c == '-' }

  /** A token ends at the first character that is not a letter, a digit, `_`, `-` or `$`. */
  lemma {:induction false} TokenLaw(c: Context, counts: seq<nat>, s: string, rest: string)
    requires |counts| == |c.vars| && forall i :: 0 <= i < |s| ==> IsTokenChar(s[i])
    requires rest == "" || (!IsTokenChar(rest[0]) && rest[0] != '$')
    ensures ExpandFrom(c, counts, s + rest, true, []) == Ok(Expansion(s, rest))
    decreases |s|
  {
    if s == "" {
      assert s + rest == rest;
    } else {
      assert (s + rest)[1..] == s[1..] + rest && [s[0]] + s[1..] == s;
      TokenLaw(c, counts, s[1..], rest);
    }
  }
}
