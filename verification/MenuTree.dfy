/**
 The menu tree and what _menu_finalize does to its shape: dependent entries become a
 submenu of the symbol before them, and entries without a prompt give up theirs.
 */
module MenuTree {

  type Id = int

  /** A menu entry with the entries below it. */
  datatype Tree = Node(id: Id, kids: seq<Tree>)

  type Forest = seq<Tree>

  /**
   What does not change: whether an entry has a symbol, is a choice or has a prompt
   text, and whether an entry depends on the symbol of another one in the way that puts
   it into its submenu.
   */
  datatype Entries = Entries(hasSym: Id -> bool, isChoice: Id -> bool, hasText: Id -> bool, dependsOn: (Id, Id) -> bool)

  /** All entries, each before those below it. */
  function Preorder(f: Forest): seq<Id>
  {
    if f == [] then [] else [f[0].id] + Preorder(f[0].kids) + Preorder(f[1..])
  }

  lemma PreorderCons(t: Tree, f: Forest)
    ensures Preorder([t] + f) == [t.id] + Preorder(t.kids) + Preorder(f)
  {
    assert ([t] + f)[1..] == f;
  }

  lemma PreorderEmpty()
    ensures Preorder([]) == []
  {
  }

  lemma Assoc(a: seq<Id>, b: seq<Id>, c: seq<Id>)
    ensures a + b + c == a + (b + c)
  {
  }

  lemma {:induction false} PreorderAppend(f: Forest, g: Forest)
    ensures Preorder(f + g) == Preorder(f) + Preorder(g)
  {
    hide Preorder;
    PreorderEmpty();
    if f == [] {
      assert f + g == g && [] + Preorder(g) == Preorder(g);
    } else {
      PreorderAppend(f[1..], g);
      PreorderTail(f, g);
      Assoc([f[0].id] + Preorder(f[0].kids), Preorder(f[1..]), Preorder(g));
    }
  }

  lemma PreorderTail(f: Forest, g: Forest)
    requires f != []
    ensures Preorder(f) == [f[0].id] + Preorder(f[0].kids) + Preorder(f[1..])
    ensures Preorder(f + g) == [f[0].id] + Preorder(f[0].kids) + Preorder(f[1..] + g)
  {
    assert (f + g)[1..] == f[1..] + g;
  }

  // ----- the three loops -----

  lemma Splice(f: Forest)
    requires f != []
    ensures Preorder(f) == [f[0].id] + Preorder(f[0].kids + f[1..])
    ensures Preorder([Node(f[0].id, [])] + (f[0].kids + f[1..])) == Preorder(f)
  {
    hide Preorder;
    PreorderAppend(f[0].kids, f[1..]);
    PreorderCons(Node(f[0].id, []), f[0].kids + f[1..]);
    PreorderEmpty();
    PreorderTail(f, []);
    Assoc([f[0].id], Preorder(f[0].kids), Preorder(f[1..]));
    assert [f[0].id] + [] == [f[0].id];
  }

  /** The flattening loop: entries below one without a prompt text come after it. */
  function Flatten(e: Entries, f: Forest): (r: Forest)
    decreases |Preorder(f)|
  {
    if f == [] then []
    else if f[0].kids != [] && !e.hasText(f[0].id) then
      Splice(f);
      [Node(f[0].id, [])] + Flatten(e, f[0].kids + f[1..])
    else [f[0]] + Flatten(e, f[1..])
  }

  lemma {:induction false} FlattenPreorder(e: Entries, f: Forest)
    ensures Preorder(Flatten(e, f)) == Preorder(f)
    decreases |Preorder(f)|
  {
    hide Preorder;
    if f != [] {
      Splice(f);
      if f[0].kids != [] && !e.hasText(f[0].id) {
        FlattenPreorder(e, f[0].kids + f[1..]);
        PreorderCons(Node(f[0].id, []), Flatten(e, f[0].kids + f[1..]));
        PreorderCons(Node(f[0].id, []), f[0].kids + f[1..]);
      } else {
        PreorderCons(f[0], f[1..]);
        assert [f[0]] + f[1..] == f;
        FlattenSmaller(f);
        FlattenPreorder(e, f[1..]);
        PreorderCons(f[0], Flatten(e, f[1..]));
      }
    }
  }

  lemma FlattenSmaller(f: Forest)
    requires f != []
    ensures |Preorder(f[1..])| < |Preorder(f)| && |Preorder(f[0].kids)| < |Preorder(f)|
  {
  }

  /** The first entry gets other entries below it, which were there or came after it. */
  lemma Regrouped(f: Forest, kids: Forest, rest: Forest)
    requires f != [] && Preorder(kids) + Preorder(rest) == Preorder(f[0].kids) + Preorder(f[1..])
    ensures Preorder([Node(f[0].id, kids)] + rest) == Preorder(f)
  {
    hide Preorder;
    PreorderCons(Node(f[0].id, kids), rest);
    PreorderTail(f, []);
    Assoc([f[0].id], Preorder(kids), Preorder(rest));
    Assoc([f[0].id], Preorder(f[0].kids), Preorder(f[1..]));
  }

  /** _menu_finalize on the first of the entries `f`, which are next to each other. */
  function Finalize(e: Entries, f: Forest, insideChoice: bool): (r: Forest)
    requires f != []
    ensures r != [] && r[0].id == f[0].id && Preorder(r) == Preorder(f)
    decreases |Preorder(f)|, 0
  {
    var p := f[0];
    if p.kids != [] then
      FlattenSmaller(f);
      var kids := FinalizeAll(e, p.kids, e.hasSym(p.id) && e.isChoice(p.id));
      FlattenPreorder(e, kids);
      Regrouped(f, Flatten(e, kids), f[1..]);
      [Node(p.id, Flatten(e, kids))] + f[1..]
    else if !insideChoice && e.hasSym(p.id) then
      FlattenSmaller(f);
      var (kids, rest) := Absorb(e, p.id, f[1..]);
      FlattenPreorder(e, kids);
      PreorderEmpty();
      Regrouped(f, Flatten(e, kids), rest);
      [Node(p.id, Flatten(e, kids))] + rest
    else f
  }

  /** _menu_finalize on all entries of a list, one after the other; some move below others before their turn comes. */
  function FinalizeAll(e: Entries, f: Forest, insideChoice: bool): (r: Forest)
    ensures Preorder(r) == Preorder(f)
    decreases |Preorder(f)|, 1
  {
    if f == [] then []
    else
      var r := Finalize(e, f, insideChoice);
      [r[0]] + FinalizeAll(e, r[1..], insideChoice)
  }

  /** The entries after the symbol `p` that become its submenu, and the others. */
  function Absorb(e: Entries, p: Id, f: Forest): (r: (Forest, Forest))
    ensures Preorder(r.0) + Preorder(r.1) == Preorder(f)
    decreases |Preorder(f)|, 1
  {
    if f == [] || !e.dependsOn(p, f[0].id) then ([], f)
    else
      var r := Finalize(e, f, false);
      var (kids, rest) := Absorb(e, p, r[1..]);
      ([r[0]] + kids, rest)
  }

  // ----- what finalising achieves -----

  /** Every entry with others below it has a prompt text. */
  predicate Prompted(e: Entries, f: Forest)
  {
    f == [] || ((f[0].kids == [] || e.hasText(f[0].id)) && Prompted(e, f[0].kids) && Prompted(e, f[1..]))
  }

  /** So it is below each of the entries `f`. */
  predicate BelowPrompted(e: Entries, f: Forest)
  {
    f == [] || (Prompted(e, f[0].kids) && BelowPrompted(e, f[1..]))
  }

  lemma {:induction false} PromptedBelow(e: Entries, f: Forest, g: Forest)
    requires Prompted(e, f) && BelowPrompted(e, g)
    ensures BelowPrompted(e, f + g)
  {
    if f == [] {
      assert f + g == g;
    } else {
      PromptedBelow(e, f[1..], g);
      assert (f + g)[1..] == f[1..] + g;
    }
  }

  lemma {:induction false} FlattenPrompted(e: Entries, f: Forest)
    requires BelowPrompted(e, f)
    ensures Prompted(e, Flatten(e, f))
    decreases |Preorder(f)|
  {
    if f != [] {
      Splice(f);
      FlattenSmaller(f);
      if f[0].kids != [] && !e.hasText(f[0].id) {
        PromptedBelow(e, f[0].kids, f[1..]);
        FlattenPrompted(e, f[0].kids + f[1..]);
      } else {
        FlattenPrompted(e, f[1..]);
      }
    }
  }

  /** After _menu_finalize everything below the entry is in order. */
  lemma {:induction false} FinalizePrompted(e: Entries, f: Forest, insideChoice: bool)
    requires f != []
    ensures Prompted(e, Finalize(e, f, insideChoice)[0].kids)
    decreases |Preorder(f)|, 0
  {
    hide Flatten;
    var p := f[0];
    FlattenSmaller(f);
    if p.kids != [] {
      FinalizeAllPrompted(e, p.kids, e.hasSym(p.id) && e.isChoice(p.id));
      FlattenPrompted(e, FinalizeAll(e, p.kids, e.hasSym(p.id) && e.isChoice(p.id)));
    } else if !insideChoice && e.hasSym(p.id) {
      AbsorbPrompted(e, p.id, f[1..]);
      FlattenPrompted(e, Absorb(e, p.id, f[1..]).0);
    }
  }

  lemma {:induction false} FinalizeAllPrompted(e: Entries, f: Forest, insideChoice: bool)
    ensures BelowPrompted(e, FinalizeAll(e, f, insideChoice))
    decreases |Preorder(f)|, 1
  {
    if f != [] {
      var r := Finalize(e, f, insideChoice);
      FinalizePrompted(e, f, insideChoice);
      FlattenSmaller(r);
      FinalizeAllPrompted(e, r[1..], insideChoice);
    }
  }

  lemma {:induction false} AbsorbPrompted(e: Entries, p: Id, f: Forest)
    ensures BelowPrompted(e, Absorb(e, p, f).0)
    decreases |Preorder(f)|, 1
  {
    if f != [] && e.dependsOn(p, f[0].id) {
      var r := Finalize(e, f, false);
      FinalizePrompted(e, f, false);
      FlattenSmaller(r);
      AbsorbPrompted(e, p, r[1..]);
    }
  }

  /**
   menu_finalize on the whole tree: the entries stay in the order in which they are
   listed, and below the root every entry with others below it has a prompt text.
   */
  lemma FinalizeTree(e: Entries, root: Tree)
    ensures var r := Finalize(e, [root], false);
            Preorder(r) == Preorder([root]) && r[0].id == root.id && Prompted(e, r[0].kids)
  {
    FinalizePrompted(e, [root], false);
  }
}
