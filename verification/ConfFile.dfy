/**
 Lines and files of .config: what is written for a symbol, and how it is read
 (print_symbol_for_dotconfig, conf_read_simple and conf_set_sym_val).
 */
module ConfFile {
  import opened Expr
  import opened ConfData
  import opened Symbols
  import opened SymbolSpec

  // ----- single lines -----

  const CONFIG: string := "CONFIG_"
  const IS_NOT_SET: string := "is not set"

  /** A symbol that is written: its name, its type and its value. */
  datatype Entry = Entry(name: string, ty: SymbolType, value: SymbolValue)

  /** print_symbol_for_dotconfig; None for symbols without a type. */
  function DotConfigLine(e: Entry): OptString
  {
    match e.ty
    case Unknown => None
    case Str => Some(CONFIG + e.name + "=" + Quoted(e.value.val))
    case Int => Some(CONFIG + e.name + "=" + e.value.val)
    case Hex => Some(CONFIG + e.name + "=" + e.value.val)
    case _ =>
      if e.value.tri == NO then Some("# " + CONFIG + e.name + " " + IS_NOT_SET)
      else Some(CONFIG + e.name + "=" + TriString(e.value.tri))
  }

  /** strchr, and the length of the string if there is no such character. */
  function IndexOf(s: string, c: char): (i: nat)
    ensures i <= |s| && (forall j :: 0 <= j < i ==> s[j] != c) && (i < |s| ==> s[i] == c)
  {
    if s == "" || s[0] == c then 0 else 1 + IndexOf(s[1..], c)
  }

  lemma IndexOfFirst(s: string, c: char, i: nat)
    requires i < |s| && s[i] == c && forall j :: 0 <= j < i ==> s[j] != c
    ensures IndexOf(s, c) == i
  {
  }

  datatype Parsed = Skip | Assign(name: string, val: string)

  /** One line in conf_read_simple, without its end. */
  function ParseLine(line: string): Parsed
  {
    if line == "" then Skip
    else if line[0] == '#' then
      if |line| == 1 || line[1] != ' ' || !(CONFIG <= line[2..]) then Skip
      else
        var rest := line[2 + |CONFIG|..];
        var i := IndexOf(rest, ' ');
        if i == |rest| || rest[i + 1..] != IS_NOT_SET then Skip else Assign(rest[..i], "n")
    else if !(CONFIG <= line) then Skip
    else
      var rest := line[|CONFIG|..];
      var i := IndexOf(rest, '=');
      if i == |rest| then Skip else Assign(rest[..i], rest[i + 1..])
  }

  predicate IsHexDigit(c: char) { IsDigit(c) || 'a' <= c <= 'f' || 'A' <= c <= 'F' }

  predicate AllDigits(s: string) { forall i :: 0 <= i < |s| ==> IsDigit(s[i]) }

  predicate AllHexDigits(s: string) { forall i :: 0 <= i < |s| ==> IsHexDigit(s[i]) }

  /** sym_string_valid for int, hex and string symbols */
  predicate StringValid(ty: SymbolType, s: string)
  {
    match ty
    case Str => true
    case Int =>
      var t := if s != "" && s[0] == '-' then s[1..] else s;
      t != "" && AllDigits(t) && (t[0] == '0' ==> |t| == 1)
    case Hex =>
      var t := if |s| >= 2 && s[0] == '0' && (s[1] == 'x' || s[1] == 'X') then s[2..] else s;
      t != "" && AllHexDigits(t)
    case _ => false
  }

  /** `def[S_DEF_USER]` of a symbol */
  datatype Stored = Logical(tri: Tri) | Textual(val: string)

  datatype SetResult = Accept(stored: Stored) | Reject | NoChange

  /** conf_set_sym_val */
  function SetSymVal(ty: SymbolType, p: string): SetResult
  {
    match ty
    case Unknown => NoChange
    case Str =>
      if p == "" || p[0] != '"' then NoChange
      else (match Unescaped(p[1..]) case None => Reject case Some(v) => Accept(Textual(v)))
    case Int => if StringValid(Int, p) then Accept(Textual(p)) else Reject
    case Hex => if StringValid(Hex, p) then Accept(Textual(p)) else Reject
    case _ =>
      if p != "" && p[0] == 'm' && ty == Tristate then Accept(Logical(MOD))
      else if p != "" && p[0] == 'y' then Accept(Logical(YES))
      else if p != "" && p[0] == 'n' then Accept(Logical(NO))
      else Reject
  }

  /** Is the line of a symbol accepted when it is read? */
  predicate Kept(e: Entry)
  {
    e.ty == Int || e.ty == Hex ==> StringValid(e.ty, e.value.val)
  }

  function StoredOf(e: Entry): Stored
  {
    if e.ty == Boolean || e.ty == Tristate then Logical(e.value.tri) else Textual(e.value.val)
  }

  predicate NameOk(name: string)
  {
    forall i :: 0 <= i < |name| ==> name[i] != ' ' && name[i] != '=' && name[i] != '\n'
  }

  /** A symbol that can have this value: bool symbols are never m. */
  predicate EntryOk(e: Entry)
  {
    NameOk(e.name) && e.ty != Unknown && (e.ty == Boolean ==> e.value.tri != MOD)
  }

  lemma ParseAssignment(name: string, val: string)
    requires NameOk(name)
    ensures ParseLine(CONFIG + name + "=" + val) == Assign(name, val)
  {
    var line := CONFIG + name + "=" + val;
    assert line[0] == 'C' && line[|CONFIG|..] == name + "=" + val;
    IndexOfFirst(name + "=" + val, '=', |name|);
  }

  lemma ParseNotSet(name: string)
    requires NameOk(name)
    ensures ParseLine("# " + CONFIG + name + " " + IS_NOT_SET) == Assign(name, "n")
  {
    hide IndexOf, NameOk;
    var rest := name + " " + IS_NOT_SET;
    NotSetRest(name);
    var line := "# " + CONFIG + rest;
    assert line == "# " + CONFIG + name + " " + IS_NOT_SET;
    assert line[2..] == CONFIG + rest && line[2 + |CONFIG|..] == rest;
  }

  lemma NotSetRest(name: string)
    requires NameOk(name)
    ensures var rest := name + " " + IS_NOT_SET;
            IndexOf(rest, ' ') == |name| && rest[..|name|] == name && rest[|name| + 1..] == IS_NOT_SET
  {
    IndexOfFirst(name + " " + IS_NOT_SET, ' ', |name|);
  }

  /**
   What is read back from the line of a symbol is the value that was written, except
   for an int or hex symbol whose text is not a number: that line is rejected.
   */
  lemma LineRoundTrip(e: Entry)
    requires EntryOk(e)
    ensures DotConfigLine(e).Some? && ParseLine(DotConfigLine(e).value).Assign?
    ensures var p := ParseLine(DotConfigLine(e).value);
            && p.name == e.name
            && SetSymVal(e.ty, p.val) ==
               if Kept(e) then Accept(StoredOf(e)) else Reject
  {
    hide ParseLine, Escaped, Unescaped;
    if (e.ty == Boolean || e.ty == Tristate) && e.value.tri == NO {
      ParseNotSet(e.name);
    } else {
      var val := if e.ty == Str then Quoted(e.value.val)
                 else if e.ty == Int || e.ty == Hex then e.value.val else TriString(e.value.tri);
      ParseAssignment(e.name, val);
      if e.ty == Str {
        UnescapeEscaped(e.value.val, "");
        assert Quoted(e.value.val)[1..] == Escaped(e.value.val) + "\"" + "";
      }
    }
  }

  // ----- whole files -----

  /** A line of the file: one for a symbol, or a heading or an empty line. */
  datatype Item = Setting(entry: Entry) | Remark(text: string)

  /** A line that is not read as a setting. */
  predicate Harmless(text: string)
  {
    text == "" || (text[0] == '#' && (|text| == 1 || text[1] != ' ' || !(CONFIG <= text[2..])))
  }

  function LineOf(i: Item): string
  {
    match i
    case Setting(e) => (match DotConfigLine(e) case Some(l) => l case None => "")
    case Remark(t) => t
  }

  function WriteFile(items: seq<Item>): string
  {
    if items == [] then "" else LineOf(items[0]) + "\n" + WriteFile(items[1..])
  }

  function LinesOf(items: seq<Item>): seq<string>
  {
    if items == [] then [] else [LineOf(items[0])] + LinesOf(items[1..])
  }

  /** getline_stripped */
  function Stripped(line: string): string
  {
    if line != "" && line[|line| - 1] == '\r' then line[..|line| - 1] else line
  }

  function Lines(text: string): seq<string>
    decreases |text|
  {
    if text == "" then []
    else
      var i := IndexOf(text, '\n');
      if i == |text| then [text] else [Stripped(text[..i])] + Lines(text[i + 1..])
  }

  /** The loop of conf_read_simple; `types` are the symbols that exist. */
  function ReadLines(lines: seq<string>, types: map<string, SymbolType>, defs: map<string, Stored>): map<string, Stored>
  {
    if lines == [] then defs
    else
      match ParseLine(lines[0])
      case Skip => ReadLines(lines[1..], types, defs)
      case Assign(name, val) =>
        if name !in types then ReadLines(lines[1..], types, defs)
        else
          match SetSymVal(types[name], val)
          case Accept(x) => ReadLines(lines[1..], types, defs[name := x])
          case _ => ReadLines(lines[1..], types, defs)
  }

  /** conf_read_simple, from no value for any symbol */
  function ReadFile(text: string, types: map<string, SymbolType>): map<string, Stored>
  {
    ReadLines(Lines(text), types, map[])
  }

  predicate PlainLine(l: string) { '\n' !in l && Stripped(l) == l }

  /** An item that is written as one line. */
  predicate ItemOk(i: Item, types: map<string, SymbolType>)
  {
    match i
    case Setting(e) =>
      && EntryOk(e) && e.name in types && types[e.name] == e.ty
      && (e.ty == Str ==> '\n' !in e.value.val)
      && (e.ty == Int || e.ty == Hex ==> '\n' !in e.value.val && '\r' !in e.value.val)
    case Remark(t) => Harmless(t) && PlainLine(t)
  }

  lemma {:induction false} EscapedLine(s: string)
    requires '\n' !in s
    ensures '\n' !in Escaped(s)
  {
    if s != "" {
      EscapedLine(s[1..]);
    }
  }

  lemma AssignmentLine(name: string, val: string)
    requires NameOk(name) && '\n' !in val && (val != "" ==> val[|val| - 1] != '\r')
    ensures PlainLine(CONFIG + name + "=" + val)
  {
    var line := CONFIG + name + "=" + val;
    assert line[|line| - 1] == if val == "" then '=' else val[|val| - 1];
  }

  lemma NotSetLine(name: string)
    requires NameOk(name)
    ensures PlainLine("# " + CONFIG + name + " " + IS_NOT_SET)
  {
    var line := "# " + CONFIG + name + " " + IS_NOT_SET;
    assert line[|line| - 1] == IS_NOT_SET[|IS_NOT_SET| - 1];
  }

  lemma ItemLine(i: Item, types: map<string, SymbolType>)
    requires ItemOk(i, types)
    ensures PlainLine(LineOf(i))
  {
    hide Escaped, NameOk, StringValid, PlainLine;
    if i.Setting? {
      var e := i.entry;
      if (e.ty == Boolean || e.ty == Tristate) && e.value.tri == NO {
        NotSetLine(e.name);
      } else if e.ty == Str {
        EscapedLine(e.value.val);
        AssignmentLine(e.name, Quoted(e.value.val));
      } else if e.ty == Int || e.ty == Hex {
        AssignmentLine(e.name, e.value.val);
      } else {
        AssignmentLine(e.name, TriString(e.value.tri));
      }
    }
  }

  lemma FirstLine(l: string, rest: string)
    requires PlainLine(l)
    ensures Lines(l + "\n" + rest) == [l] + Lines(rest)
  {
    var text := l + "\n" + rest;
    IndexOfFirst(text, '\n', |l|);
    hide IndexOf;
    assert text[..|l|] == l && text[|l| + 1..] == rest;
  }

  lemma {:induction false} LinesOfFile(items: seq<Item>, types: map<string, SymbolType>)
    requires forall k :: 0 <= k < |items| ==> ItemOk(items[k], types)
    ensures Lines(WriteFile(items)) == LinesOf(items)
  {
    if items != [] {
      hide LineOf, ItemOk, Lines, PlainLine;
      ItemLine(items[0], types);
      FirstLine(LineOf(items[0]), WriteFile(items[1..]));
      LinesOfFile(items[1..], types);
    }
  }

  /** What one item adds to the values that were read. */
  function WithItem(i: Item, defs: map<string, Stored>): map<string, Stored>
  {
    if i.Setting? && Kept(i.entry) then defs[i.entry.name := StoredOf(i.entry)] else defs
  }

  /** The values of the symbols that were written, the last one for each name, without lines that are not accepted. */
  function Written(items: seq<Item>, defs: map<string, Stored>): map<string, Stored>
  {
    if items == [] then defs else Written(items[1..], WithItem(items[0], defs))
  }

  lemma {:induction false} ReadBack(items: seq<Item>, types: map<string, SymbolType>, defs: map<string, Stored>)
    requires forall k :: 0 <= k < |items| ==> ItemOk(items[k], types)
    ensures ReadLines(LinesOf(items), types, defs) == Written(items, defs)
  {
    if items != [] {
      assert LinesOf(items)[1..] == LinesOf(items[1..]);
      if items[0].Setting? {
        LineRoundTrip(items[0].entry);
      }
      ReadBack(items[1..], types, WithItem(items[0], defs));
    }
  }

  /** Reading a file that was written gives every symbol the value it had, but for int and hex values that are no numbers. */
  lemma FileRoundTrip(items: seq<Item>, types: map<string, SymbolType>)
    requires forall k :: 0 <= k < |items| ==> ItemOk(items[k], types)
    ensures ReadFile(WriteFile(items), types) == Written(items, map[])
  {
    LinesOfFile(items, types);
    ReadBack(items, types, map[]);
  }

  /** The last line for a symbol wins; with one line for each symbol, that is its value. */
  lemma {:induction false} WrittenValue(items: seq<Item>, defs: map<string, Stored>, k: nat)
    requires k < |items| && items[k].Setting? && Kept(items[k].entry)
    requires forall j :: k < j < |items| && items[j].Setting? ==> items[j].entry.name != items[k].entry.name
    ensures items[k].entry.name in Written(items, defs) && Written(items, defs)[items[k].entry.name] == StoredOf(items[k].entry)
  {
    hide Kept;
    if k > 0 {
      WrittenValue(items[1..], WithItem(items[0], defs), k - 1);
    } else {
      WrittenOthers(items[1..], WithItem(items[0], defs), items[0].entry.name);
    }
  }

  /** A symbol whose lines are not accepted keeps the value it had before. */
  lemma {:induction false} WrittenOthers(items: seq<Item>, defs: map<string, Stored>, name: string)
    requires forall j :: 0 <= j < |items| && items[j].Setting? && Kept(items[j].entry) ==> items[j].entry.name != name
    ensures name in Written(items, defs) <==> name in defs
    ensures name in defs ==> Written(items, defs)[name] == defs[name]
  {
    hide Kept;
    if items != [] {
      WrittenOthers(items[1..], WithItem(items[0], defs), name);
    }
  }

  // ----- how a value that is no number arises -----

  const LIMIT := Named("LIMIT", Int, false)
  const FOO := Named("FOO", Unknown, false)

  /** `config LIMIT`, an int symbol with `default FOO`, where FOO is not defined. */
  const NO_NUMBER := Config(map[LIMIT := Decl([Property(Default, false, Null, Ex(Sym(FOO)))], Null, Null, Null)], map[], YES)

  /** The symbol gets the name as its value, and the line that is written for it is rejected when it is read. */
  lemma DefaultIsNoNumber(env: Env)
    requires IsSolution(NO_NUMBER, env)
    ensures env(LIMIT).val == "FOO" && !Kept(Entry("LIMIT", Int, env(LIMIT)))
  {
    assert SolvesAt(NO_NUMBER, env, LIMIT) && SolvesAt(NO_NUMBER, env, FOO);
    var ps := DeclOf(NO_NUMBER.decls, LIMIT).props;
    assert FirstDefault(ps, env) == Found(ps[0]);
    assert "FOO"[0] == 'F';
  }
}
