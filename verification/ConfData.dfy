/**
 Writing symbols to a .config file and reading them back (confdata.c).
 */
module ConfData {
  // ----- quoting -----

  datatype OptString = None | Some(value: string)

  predicate IsSpecial(c: char) { c == '"' || c == '\\' }

  /** A string with a backslash before every quote and backslash. */
  function Escaped(s: string): string
  {
    if s == "" then "" else (if IsSpecial(s[0]) then "\\" + [s[0]] else [s[0]]) + Escaped(s[1..])
  }

  function Quoted(s: string): string { "\"" + Escaped(s) + "\"" }

  /** The text up to the closing quote, without the backslashes; None if there is no closing quote. */
  function Unescaped(s: string): OptString
  {
    if s == "" then None
    else if s[0] == '"' then Some("")
    else if s[0] == '\\' then
      if |s| == 1 then None else Before([s[1]], Unescaped(s[2..]))
    else Before([s[0]], Unescaped(s[1..]))
  }

  function Before(p: string, t: OptString): OptString
  {
    match t
    case None => None
    case Some(v) => Some(p + v)
  }

  /** Reading undoes quoting, whatever follows the closing quote. */
  lemma {:induction false} UnescapeEscaped(s: string, rest: string)
    ensures Unescaped(Escaped(s) + "\"" + rest) == Some(s)
  {
    var t := Escaped(s) + "\"" + rest;
    if s != "" {
      var after := Escaped(s[1..]) + "\"" + rest;
      UnescapeEscaped(s[1..], rest);
      if IsSpecial(s[0]) {
        assert t[2..] == after && t[0] == '\\' && t[1] == s[0];
      } else {
        assert t[1..] == after && t[0] == s[0];
      }
    } else {
      assert t[0] == '"';
    }
  }

  lemma Regroup(a: string, b: string, c: string)
    ensures a + (b + c) == (a + b) + c
  {}

  lemma EscapedFirst(x: char, s: string)
    ensures Escaped([x] + s) == Escaped([x]) + Escaped(s)
  {
    assert ([x] + s)[1..] == s && [x][1..] == "";
  }

  lemma {:induction false} EscapedAppend(s: string, t: string)
    ensures Escaped(s + t) == Escaped(s) + Escaped(t)
  {
    hide IsSpecial;
    if s == "" {
      assert s + t == t;
    } else {
      EscapedAppend(s[1..], t);
      assert (s + t)[1..] == s[1..] + t;
      EscapedFirst(s[0], s[1..]);
      EscapedFirst(s[0], s[1..] + t);
      Regroup(Escaped([s[0]]), Escaped(s[1..]), Escaped(t));
      assert [s[0]] + s[1..] == s && [s[0]] + (s[1..] + t) == s + t;
    }
  }

  lemma {:induction false} EscapedPlain(s: string)
    requires forall i :: 0 <= i < |s| ==> !IsSpecial(s[i])
    ensures Escaped(s) == s
  {
    if s != "" {
      EscapedPlain(s[1..]);
    }
  }

  /** strcspn for quotes and backslashes */
  method SpanPlain(s: string, p: nat) returns (n: nat)
    requires p <= |s|
    ensures p + n <= |s| && (forall i :: p <= i < p + n ==> !IsSpecial(s[i]))
    ensures p + n < |s| ==> IsSpecial(s[p + n])
  {
    n := 0;
    while p + n < |s| && !IsSpecial(s[p + n])
      invariant p + n <= |s| && forall i :: p <= i < p + n ==> !IsSpecial(s[i])
    {
      n := n + 1;
    }
  }

  /** The first loop of escape_string_value: the size of the buffer, with room for the end of the string. */
  method QuotedSize(s: string) returns (len: nat)
    ensures len == |Quoted(s)| + 1
  {
    hide Escaped;
    len := |s| + 2 + 1;
    var p := 0;
    EscapedPlain("");
    while true
      invariant p <= |s| && len == |Escaped(s[..p])| + |s[p..]| + 3
      decreases |s| - p
    {
      var n := SpanPlain(s, p);
      StepEscaped(s, p, n);
      p := p + n;
      if p == |s| {
        break;
      }
      len := len + 1;
      p := p + 1;
    }
    assert s[..|s|] == s;
  }

  /** escape_string_value; `size` is the buffer that it allocates. */
  method EscapeStringValue(s: string) returns (out: string, size: nat)
    ensures out == Quoted(s) && size == |out| + 1
  {
    hide Escaped;
    size := QuotedSize(s);
    out := "\"";
    var p := 0;
    EscapedPlain("");
    assert s[..0] == "";
    while true
      invariant p <= |s| && out == "\"" + Escaped(s[..p])
      decreases |s| - p
    {
      var n := SpanPlain(s, p);
      StepEscaped(s, p, n);
      out := out + s[p..p + n];
      p := p + n;
      if p == |s| {
        break;
      }
      out := out + "\\";
      out := out + [s[p]];
      p := p + 1;
    }
    assert s[..|s|] == s;
    out := out + "\"";
  }

  /** A run of plain characters, and the special one after it. */
  lemma StepEscaped(s: string, p: nat, n: nat)
    requires p + n <= |s| && forall i :: p <= i < p + n ==> !IsSpecial(s[i])
    requires p + n < |s| ==> IsSpecial(s[p + n])
    ensures Escaped(s[..p + n]) == Escaped(s[..p]) + s[p..p + n]
    ensures p + n < |s| ==> Escaped(s[..p + n + 1]) == Escaped(s[..p + n]) + "\\" + [s[p + n]]
  {
    assert s[..p + n] == s[..p] + s[p..p + n];
    EscapedAppend(s[..p], s[p..p + n]);
    EscapedPlain(s[p..p + n]);
    if p + n < |s| {
      assert s[..p + n + 1] == s[..p + n] + [s[p + n]];
      EscapedAppend(s[..p + n], [s[p + n]]);
      assert [s[p + n]][1..] == "";
    }
  }

  const NUL: char := '\0'

  /** The characters behind position `k` move down by one. */
  method CloseGap(a: array<char>, k: nat, last: nat)
    requires k < last < a.Length
    modifies a
    ensures a[..k] == old(a[..k]) && a[k..last] == old(a[k + 1..last + 1]) && a[last..] == old(a[last..])
  {
    forall i | k <= i < last {
      a[i] := a[i + 1];
    }
  }

  /**
   The loop of conf_set_sym_val that takes the backslashes out of a string in place. The
   string is a[p..e], ended by NUL; on success its beginning is the unquoted string.
   */
  method UnescapeInPlace(a: array<char>, p: nat, e: nat) returns (ok: bool, ghost end: nat)
    requires p <= e < a.Length && a[e] == NUL && NUL !in a[p..e]
    modifies a
    ensures a[..p] == old(a[..p])
    ensures ok <==> Unescaped(old(a[p..e])).Some?
    ensures ok ==> p <= end < a.Length && a[p..end] == Unescaped(old(a[p..e])).value && a[end] == NUL && NUL !in a[p..end]
  {
    hide Unescaped;
    ghost var s := a[p..e];
    ghost var done, todo := "", s;
    var p2, last := p, e;
    while true
      invariant p <= p2 <= last + 1 && p <= last <= e && a[last] == NUL
      invariant a[..p] == old(a[..p]) && NUL !in done
      invariant if p2 == last + 1 then Unescaped(s) == None && p2 < a.Length && a[p2] == NUL
                else a[p..p2] == done && a[p2..last] == todo && NUL !in todo && Unescaped(s) == Before(done, Unescaped(todo))
      decreases last + 1 - p2
    {
      if p2 == last + 1 || a[p2] == NUL {
        UnescapedStep(done, todo);
        return false, p;
      }
      label L:
      UnescapedStep(done, todo);
      assert a[p2] == todo[0];
      if a[p2] == '"' {
        a[p2] := NUL;
        assert a[p..p2] == done;
        return true, p2;
      }
      if a[p2] == '\\' {
        CloseGap(a, p2, last);
        assert a[last] == a[last..][0] && a[last - 1] == a[p2..last][last - 1 - p2];
        last := last - 1;
        assert a[..p] == a[..p2][..p] && a[p..p2] == a[..p2][p..] == done && a[p2..last] == todo[1..];
        todo := todo[1..];
      }
      if todo != "" {
        done, todo := done + [todo[0]], todo[1..];
        assert a[p..p2 + 1] == done && a[p2 + 1..last] == todo;
      }
      p2 := p2 + 1;
    }
  }

  lemma UnescapedStep(done: string, todo: string)
    ensures todo == "" || todo == "\\" ==> Unescaped(todo) == None
    ensures todo != "" && todo[0] == '"' ==> Unescaped(todo) == Some("")
    ensures |todo| > 1 && todo[0] == '\\' ==> Before(done, Unescaped(todo)) == Before(done + [todo[1]], Unescaped(todo[2..]))
    ensures todo != "" && !IsSpecial(todo[0]) ==> Before(done, Unescaped(todo)) == Before(done + [todo[0]], Unescaped(todo[1..]))
  {
    hide Before;
    if todo != "" && todo[0] != '"' {
      if todo[0] == '\\' {
        if |todo| > 1 {
          BeforeTwice(done, todo[1], Unescaped(todo[2..]));
        } else {
          BeforeNone(done);
        }
      } else {
        BeforeTwice(done, todo[0], Unescaped(todo[1..]));
      }
    }
  }

  lemma BeforeTwice(p: string, c: char, t: OptString)
    ensures Before(p, Before([c], t)) == Before(p + [c], t)
  {
    if t.Some? {
      assert p + ([c] + t.value) == p + [c] + t.value;
    }
  }

  lemma BeforeNone(p: string)
    ensures Before(p, None) == None
  {
  }
}
