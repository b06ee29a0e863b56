/**
 _menu_finalize in place: entries are linked by `next`, `list` and `parent`, and the
 loops move whole stretches of a list by changing a few of these pointers.
 */
module MenuFinalize {
  import opened MenuTree

  /** The links of `struct menu`. */
  datatype Links = Links(parent: Id, list: Id, next: Id)

  type Memory = seq<Links>

  const NULL: Id := -1

  /** The entries from `h` to before `end` are `f`, all with that parent. */
  ghost predicate IsList(m: Memory, h: Id, f: Forest, parent: Id, end: Id)
    decreases f
  {
    if f == [] then h == end
    else
      && h == f[0].id && 0 <= h < |m| && m[h].parent == parent
      && IsList(m, m[h].list, f[0].kids, h, NULL) && IsList(m, m[h].next, f[1..], parent, end)
  }

  ghost predicate Distinct(ids: seq<Id>)
  {
    forall i, j :: 0 <= i < j < |ids| ==> ids[i] != ids[j]
  }

  ghost predicate SameAt(m: Memory, m': Memory, ids: seq<Id>)
  {
    |m'| == |m| && forall x {:trigger m'[x]} :: x in ids && 0 <= x < |m| ==> m'[x] == m[x]
  }

  /** Only the entries `ids` were written. */
  ghost predicate Only(m: Memory, m': Memory, ids: seq<Id>)
  {
    |m'| == |m| && forall x {:trigger m'[x]} :: x !in ids && 0 <= x < |m| ==> m'[x] == m[x]
  }

  lemma {:induction false} ListFrame(m: Memory, m': Memory, h: Id, f: Forest, parent: Id, end: Id)
    requires IsList(m, h, f, parent, end) && SameAt(m, m', Preorder(f))
    ensures IsList(m', h, f, parent, end)
    decreases f
  {
    if f != [] {
      ListFrame(m, m', m[h].list, f[0].kids, h, NULL);
      ListFrame(m, m', m[h].next, f[1..], parent, end);
    }
  }

  /** A list and the one that follows it. */
  lemma {:induction false} ListAppend(m: Memory, h: Id, f: Forest, mid: Id, g: Forest, parent: Id, end: Id)
    requires IsList(m, h, f, parent, mid) && IsList(m, mid, g, parent, end)
    ensures IsList(m, h, f + g, parent, end)
    decreases f
  {
    if f == [] {
      assert f + g == g;
    } else {
      ListAppend(m, m[h].next, f[1..], mid, g, parent, end);
      assert (f + g)[1..] == f[1..] + g;
    }
  }

  /** The first entry on its own, and the others. */
  lemma ListFirst(m: Memory, h: Id, f: Forest, parent: Id, end: Id)
    requires IsList(m, h, f, parent, end) && f != []
    ensures h == f[0].id && 0 <= h < |m| && IsList(m, h, [f[0]], parent, m[h].next) && IsList(m, m[h].next, f[1..], parent, end)
    ensures h in Preorder(f)
  {
    assert [f[0]][1..] == [];
  }

  lemma ListNull(m: Memory, h: Id, f: Forest, parent: Id)
    requires IsList(m, h, f, parent, NULL)
    ensures h == NULL <==> f == []
  {
  }

  /** Another end for a list: the last entry points there. */
  lemma {:induction false} ListRedirect(m: Memory, m': Memory, h: Id, f: Forest, parent: Id, end: Id, end': Id)
    requires IsList(m, h, f, parent, end) && f != [] && Distinct(Preorder(f)) && |m'| == |m|
    requires 0 <= LastId(f) < |m| && m'[LastId(f)] == m[LastId(f)].(next := end')
    requires forall x :: x in Preorder(f) && x != LastId(f) && 0 <= x < |m| ==> m'[x] == m[x]
    ensures m[LastId(f)].next == end && IsList(m', h, f, parent, end')
    decreases |f|
  {
    LastIn(f);
    PreorderTail(f, []);
    if |f| == 1 {
      KidsApart(f);
      ListFrame(m, m', m[h].list, f[0].kids, h, NULL);
    } else {
      KidsApart(f);
      LastIn(f[1..]);
      ListFrame(m, m', m[h].list, f[0].kids, h, NULL);
      ListRedirect(m, m', m[h].next, f[1..], parent, end, end');
    }
  }

  function LastId(f: Forest): Id
    requires f != []
  {
    f[|f| - 1].id
  }

  lemma {:induction false} LastIn(f: Forest)
    requires f != []
    ensures LastId(f) in Preorder(f)
    decreases |f|
  {
    if |f| > 1 {
      LastIn(f[1..]);
    }
  }

  /** The parts of a list whose entries are distinct are apart from each other. */
  lemma KidsApart(f: Forest)
    requires f != [] && Distinct(Preorder(f))
    ensures Distinct(Preorder(f[0].kids)) && Distinct(Preorder(f[1..]))
    ensures f[0].id !in Preorder(f[0].kids) && f[0].id !in Preorder(f[1..])
    ensures forall x :: x in Preorder(f[0].kids) ==> x in Preorder(f) && x !in Preorder(f[1..])
    ensures forall x :: x in Preorder(f[1..]) ==> x in Preorder(f)
  {
    PreorderTail(f, []);
    hide Preorder;
    ApartParts(f[0].id, Preorder(f[0].kids), Preorder(f[1..]));
  }

  lemma ApartParts(x: Id, a: seq<Id>, b: seq<Id>)
    requires Distinct([x] + a + b)
    ensures Distinct(a) && Distinct(b) && x !in a && x !in b
    ensures forall y :: y in a ==> y !in b
  {
    var all := [x] + a + b;
    forall i | 0 <= i < |a| ensures a[i] == all[1 + i] {
    }
    forall i | 0 <= i < |b| ensures b[i] == all[1 + |a| + i] {
    }
    assert all[0] == x;
  }

  lemma DistinctParts(a: seq<Id>, b: seq<Id>)
    requires Distinct(a + b)
    ensures Distinct(a) && Distinct(b) && forall y :: y in a ==> y !in b
  {
    forall i | 0 <= i < |a| ensures a[i] == (a + b)[i] {
    }
    forall i | 0 <= i < |b| ensures b[i] == (a + b)[|a| + i] {
    }
  }

  // ----- the loops -----

  /** What is finished and what is still to be done, up to the pointer `menu`. */
  ghost predicate Partly(m: Memory, first: Id, done: Forest, menu: Id, todo: Forest, p: Id, q: Id, all: seq<Id>)
  {
    && IsList(m, first, done, p, menu) && IsList(m, menu, todo, q, NULL)
    && Preorder(done) + Preorder(todo) == all && Distinct(all)
  }

  /** One more entry is finished. */
  lemma PartlyNext(m: Memory, first: Id, done: Forest, menu: Id, todo: Forest, p: Id, q: Id, all: seq<Id>)
    requires Partly(m, first, done, menu, todo, p, q, all) && todo != [] && p == q
    ensures 0 <= menu < |m| && Partly(m, first, done + [todo[0]], m[menu].next, todo[1..], p, q, all)
  {
    ListFirst(m, menu, todo, q, NULL);
    ListAppend(m, first, done, menu, [todo[0]], p, m[menu].next);
    MoveOver(done, todo);
  }

  lemma MoveOver(done: Forest, todo: Forest)
    requires todo != []
    ensures Preorder(done + [todo[0]]) + Preorder(todo[1..]) == Preorder(done) + Preorder(todo)
  {
    assert [todo[0]] + todo[1..] == todo && done + [todo[0]] + todo[1..] == done + todo;
    PreorderAppend(done, todo);
    PreorderAppend(done + [todo[0]], todo[1..]);
  }

  /** The rest was rearranged, without a change to what is finished. */
  lemma PartlyAfter(m: Memory, m': Memory, first: Id, done: Forest, menu: Id, todo: Forest, todo': Forest, p: Id, q: Id, all: seq<Id>)
    requires Partly(m, first, done, menu, todo, p, q, all) && Only(m, m', Preorder(todo))
    requires IsList(m', menu, todo', q, NULL) && Preorder(todo') == Preorder(todo)
    ensures Partly(m', first, done, menu, todo', p, q, all)
  {
    DistinctParts(Preorder(done), Preorder(todo));
    hide Preorder;
    ListFrame(m, m', first, done, p, menu);
  }

  ghost predicate Within(part: seq<Id>, ids: seq<Id>)
  {
    forall x :: x in part ==> x in ids
  }

  lemma OnlyTrans(m: Memory, m1: Memory, m2: Memory, ids: seq<Id>, part: seq<Id>)
    requires Only(m, m1, ids) && Only(m1, m2, part) && Within(part, ids)
    ensures Only(m, m2, ids)
  {
  }

  lemma OnlyOut(m: Memory, m': Memory, ids: seq<Id>, x: Id)
    requires Only(m, m', ids) && x !in ids && 0 <= x < |m|
    ensures |m'| == |m| && m'[x] == m[x]
  {
  }

  lemma OnlyRefl(m: Memory, ids: seq<Id>)
    ensures Only(m, m, ids) && Within(ids, ids)
  {
  }

  /** A list of other entries than those that were written. */
  lemma ListOther(m: Memory, m': Memory, h: Id, f: Forest, parent: Id, end: Id, ids: seq<Id>)
    requires IsList(m, h, f, parent, end) && Only(m, m', ids) && forall x :: x in Preorder(f) ==> x !in ids
    ensures IsList(m', h, f, parent, end)
  {
    hide Preorder;
    ListFrame(m, m', h, f, parent, end);
  }

  lemma PartlyParts(m: Memory, first: Id, done: Forest, menu: Id, todo: Forest, p: Id, q: Id, all: seq<Id>)
    requires Partly(m, first, done, menu, todo, p, q, all)
    ensures IsList(m, first, done, p, menu) && IsList(m, menu, todo, q, NULL)
    ensures Distinct(Preorder(done)) && Distinct(Preorder(todo))
    ensures Within(Preorder(done), all) && Within(Preorder(todo), all)
    ensures forall x :: x in Preorder(done) ==> x !in Preorder(todo)
  {
    DistinctParts(Preorder(done), Preorder(todo));
  }

  lemma PartlyIn(done: Forest, todo: Forest, all: seq<Id>)
    requires Preorder(done) + Preorder(todo) == all
    ensures Within(Preorder(todo), all)
  {
  }

  /** The entries of a list get another parent; `last` is the last of them. */
  method Reparent(m: array<Links>, first: Id, p: Id, ghost f: Forest, ghost q: Id) returns (last: Id)
    requires IsList(m[..], first, f, q, NULL) && f != [] && Distinct(Preorder(f))
    modifies m
    ensures IsList(m[..], first, f, p, NULL) && last == LastId(f) && Only(old(m[..]), m[..], Preorder(f))
  {
    hide Preorder, Distinct;
    ghost var m0 := m[..];
    ghost var done, todo: Forest := [], f;
    last := first;
    StartPartly(m[..], first, f, p, q);
    while true
      invariant todo != [] && Partly(m[..], first, done, last, todo, p, q, Preorder(f)) && Only(m0, m[..], Preorder(f))
      invariant done + todo == f
      decreases |todo|
    {
      ghost var m1 := m[..];
      ListFirst(m[..], last, todo, q, NULL);
      m[last] := m[last].(parent := p);
      PartlyReparent(m1, m[..], first, done, last, todo, p, q, Preorder(f));
      ListNull(m[..], m[last].next, todo[1..], q);
      if m[last].next == NULL {
        assert done + [todo[0]] == f;
        break;
      }
      done, todo := done + [todo[0]], todo[1..];
      last := m[last].next;
    }
  }

  lemma StartPartly(m: Memory, first: Id, f: Forest, p: Id, q: Id)
    requires IsList(m, first, f, q, NULL) && Distinct(Preorder(f))
    ensures Partly(m, first, [], first, f, p, q, Preorder(f))
  {
  }

  lemma PartlyReparent(m: Memory, m': Memory, first: Id, done: Forest, menu: Id, todo: Forest, p: Id, q: Id, all: seq<Id>)
    requires Partly(m, first, done, menu, todo, p, q, all) && todo != [] && 0 <= menu < |m|
    requires m' == m[menu := m[menu].(parent := p)]
    ensures Partly(m', first, done + [todo[0]], m'[menu].next, todo[1..], p, q, all) && Only(m, m', all)
  {
    ListFirst(m, menu, todo, q, NULL);
    DistinctParts(Preorder(done), Preorder(todo));
    KidsApart(todo);
    ListFrame(m, m', first, done, p, menu);
    ListFrame(m, m', m[menu].list, todo[0].kids, menu, NULL);
    ListFrame(m, m', m[menu].next, todo[1..], q, NULL);
    assert [todo[0]][1..] == [];
    ListAppend(m', first, done, menu, [todo[0]], p, m'[menu].next);
    MoveOver(done, todo);
    PartlyIn(done, todo, all);
  }

  /** The entries below `menu` come after it. */
  method SpliceKids(m: array<Links>, menu: Id, p: Id, ghost f: Forest)
    requires IsList(m[..], menu, f, p, NULL) && f != [] && f[0].kids != [] && Distinct(Preorder(f)) && 0 <= menu < m.Length
    modifies m
    ensures IsList(m[..], menu, [Node(f[0].id, [])] + (f[0].kids + f[1..]), p, NULL) && Only(old(m[..]), m[..], Preorder(f))
  {
    ghost var m0 := m[..];
    ghost var kids := f[0].kids;
    KidsApart(f);
    PreorderTail(f, []);
    ListFirst(m0, menu, f, p, NULL);
    hide Preorder, Distinct, IsList, Only;
    var last := Reparent(m, m[menu].list, p, kids, menu);
    ghost var m1 := m[..];
    OnlyOut(m0, m1, Preorder(kids), menu);
    ListOther(m0, m1, m1[menu].next, f[1..], p, NULL, Preorder(kids));
    LastIn(kids);
    InList(m1, m1[menu].list, kids, p, NULL, last);
    m[last] := m[last].(next := m[menu].next);
    m[menu] := m[menu].(next := m[menu].list);
    m[menu] := m[menu].(list := NULL);
    Spliced(m0, m1, m[..], menu, last, f, p);
  }

  lemma Spliced(m0: Memory, m1: Memory, m': Memory, menu: Id, last: Id, f: Forest, p: Id)
    requires f != [] && f[0].kids != [] && Distinct(Preorder(f)) && menu == f[0].id && last == LastId(f[0].kids)
    requires 0 <= menu < |m1| && 0 <= last < |m1| && m1[menu].parent == p && Only(m0, m1, Preorder(f[0].kids))
    requires IsList(m1, m1[menu].list, f[0].kids, p, NULL) && IsList(m1, m1[menu].next, f[1..], p, NULL)
    requires m' == m1[last := m1[last].(next := m1[menu].next)][menu := Links(p, NULL, m1[menu].list)]
    ensures IsList(m', menu, [Node(menu, [])] + (f[0].kids + f[1..]), p, NULL) && Only(m0, m', Preorder(f))
  {
    var kids := f[0].kids;
    KidsApart(f);
    LastIn(kids);
    PreorderTail(f, []);
    hide Preorder, Distinct;
    ListRedirect(m1, m', m1[menu].list, kids, p, NULL, m1[menu].next);
    ListFrame(m1, m', m1[menu].next, f[1..], p, NULL);
    ListAppend(m', m1[menu].list, kids, m1[menu].next, f[1..], p, NULL);
    assert ([Node(menu, [])] + (kids + f[1..]))[1..] == kids + f[1..];
  }

  lemma {:induction false} InList(m: Memory, h: Id, f: Forest, parent: Id, end: Id, x: Id)
    requires IsList(m, h, f, parent, end) && x in Preorder(f)
    ensures 0 <= x < |m|
    decreases f
  {
    PreorderTail(f, []);
    if x != f[0].id {
      if x in Preorder(f[0].kids) {
        InList(m, m[h].list, f[0].kids, h, NULL, x);
      } else {
        InList(m, m[h].next, f[1..], parent, end, x);
      }
    }
  }

  /** The body of the last loop of _menu_finalize. */
  method SpliceIfPromptless(m: array<Links>, e: Entries, menu: Id, p: Id, ghost f: Forest) returns (ghost g: Forest)
    requires IsList(m[..], menu, f, p, NULL) && f != [] && Distinct(Preorder(f))
    modifies m
    ensures IsList(m[..], menu, g, p, NULL) && Only(old(m[..]), m[..], Preorder(f))
    ensures g != [] && Preorder(g) == Preorder(f) && Flatten(e, f) == [g[0]] + Flatten(e, g[1..])
  {
    hide Preorder, Distinct;
    ListFirst(m[..], menu, f, p, NULL);
    ListNull(m[..], m[menu].list, f[0].kids, menu);
    if m[menu].list != NULL && !e.hasText(menu) {
      SpliceKids(m, menu, p, f);
      Splice(f);
      FlattenSplice(e, f);
      g := [Node(f[0].id, [])] + (f[0].kids + f[1..]);
    } else {
      FlattenKeep(e, f);
      g := f;
    }
  }

  /** The last loop of _menu_finalize, over the entries below `p`. */
  method FlattenList(m: array<Links>, e: Entries, first: Id, p: Id, ghost f: Forest)
    requires IsList(m[..], first, f, p, NULL) && Distinct(Preorder(f))
    modifies m
    ensures IsList(m[..], first, Flatten(e, f), p, NULL) && Only(old(m[..]), m[..], Preorder(f))
  {
    hide Preorder, Distinct, Only, Partly, IsList, Within, Flatten;
    ghost var m0, all := m[..], Preorder(f);
    ghost var done, todo: Forest := [], f;
    var menu := first;
    StartPartly(m[..], first, f, p, p);
    OnlyRefl(m0, all);
    assert [] + Flatten(e, f) == Flatten(e, f);
    while menu != NULL
      invariant Partly(m[..], first, done, menu, todo, p, p, all) && Only(m0, m[..], all)
      invariant Flatten(e, f) == done + Flatten(e, todo)
      decreases |Preorder(todo)|
    {
      ghost var m1 := m[..];
      PartlyParts(m1, first, done, menu, todo, p, p, all);
      ListNull(m1, menu, todo, p);
      ghost var r := SpliceIfPromptless(m, e, menu, p, todo);
      PartlyAfter(m1, m[..], first, done, menu, todo, r, p, p, all);
      OnlyTrans(m0, m1, m[..], all, Preorder(todo));
      PartlyNext(m[..], first, done, menu, r, p, p, all);
      FlattenSmaller(r);
      assert done + ([r[0]] + Flatten(e, r[1..])) == done + [r[0]] + Flatten(e, r[1..]);
      done, todo := done + [r[0]], r[1..];
      menu := m[menu].next;
    }
    PartlyParts(m[..], first, done, menu, todo, p, p, all);
    FlattenDone(m[..], e, menu, todo, p);
    assert done + [] == done;
  }

  lemma FlattenDone(m: Memory, e: Entries, menu: Id, f: Forest, p: Id)
    requires IsList(m, menu, f, p, NULL) && menu == NULL
    ensures f == [] && Flatten(e, f) == []
  {
  }

  lemma FlattenSplice(e: Entries, f: Forest)
    requires f != [] && f[0].kids != [] && !e.hasText(f[0].id)
    ensures var g := [Node(f[0].id, [])] + (f[0].kids + f[1..]);
            Flatten(e, f) == [g[0]] + Flatten(e, g[1..])
  {
    var g := [Node(f[0].id, [])] + (f[0].kids + f[1..]);
    assert g[1..] == f[0].kids + f[1..];
  }

  lemma FlattenKeep(e: Entries, f: Forest)
    requires f != [] && (f[0].kids == [] || e.hasText(f[0].id))
    ensures Flatten(e, f) == [f[0]] + Flatten(e, f[1..])
  {
  }

  /** The loop that finalises the entries of a list. */
  method FinalizeList(m: array<Links>, e: Entries, first: Id, insideChoice: bool, ghost f: Forest, ghost p: Id)
    requires IsList(m[..], first, f, p, NULL) && Distinct(Preorder(f))
    modifies m
    ensures IsList(m[..], first, FinalizeAll(e, f, insideChoice), p, NULL) && Only(old(m[..]), m[..], Preorder(f))
    decreases |Preorder(f)|, 2
  {
    hide Preorder, Distinct, Only, Partly, IsList, Within, FinalizeAll, MenuTree.Finalize;
    ghost var m0, all := m[..], Preorder(f);
    ghost var done, todo: Forest := [], f;
    var menu := first;
    StartPartly(m[..], first, f, p, p);
    OnlyRefl(m0, all);
    assert [] + FinalizeAll(e, f, insideChoice) == FinalizeAll(e, f, insideChoice);
    while menu != NULL
      invariant Partly(m[..], first, done, menu, todo, p, p, all) && Only(m0, m[..], all)
      invariant Preorder(done) + Preorder(todo) == Preorder(f)
      invariant FinalizeAll(e, f, insideChoice) == done + FinalizeAll(e, todo, insideChoice)
      decreases |Preorder(todo)|
    {
      ghost var m1 := m[..];
      PartlyParts(m1, first, done, menu, todo, p, p, all);
      ListNull(m1, menu, todo, p);
      PreorderLess(f, done, todo);
      ghost var r := MenuTree.Finalize(e, todo, insideChoice);
      Finalize(m, e, menu, insideChoice, todo, p);
      PartlyAfter(m1, m[..], first, done, menu, todo, r, p, p, all);
      OnlyTrans(m0, m1, m[..], all, Preorder(todo));
      PartlyNext(m[..], first, done, menu, r, p, p, all);
      FlattenSmaller(r);
      AllUnfold(e, todo, insideChoice);
      assert done + ([r[0]] + FinalizeAll(e, r[1..], insideChoice)) == done + [r[0]] + FinalizeAll(e, r[1..], insideChoice);
      done, todo := done + [r[0]], r[1..];
      menu := m[menu].next;
    }
    PartlyParts(m[..], first, done, menu, todo, p, p, all);
    AllDone(m[..], e, menu, insideChoice, todo, p);
    assert done + [] == done;
  }

  lemma AllDone(m: Memory, e: Entries, menu: Id, insideChoice: bool, f: Forest, p: Id)
    requires IsList(m, menu, f, p, NULL) && menu == NULL
    ensures f == [] && FinalizeAll(e, f, insideChoice) == []
  {
  }

  lemma PreorderLess(f: Forest, done: Forest, todo: Forest)
    requires Preorder(done) + Preorder(todo) == Preorder(f)
    ensures |Preorder(todo)| <= |Preorder(f)|
  {
  }

  lemma AllUnfold(e: Entries, f: Forest, insideChoice: bool)
    requires f != []
    ensures var r := MenuTree.Finalize(e, f, insideChoice);
            FinalizeAll(e, f, insideChoice) == [r[0]] + FinalizeAll(e, r[1..], insideChoice)
  {
  }

  /** The loop that moves the entries after the symbol `p` into its submenu. */
  method AbsorbSiblings(m: array<Links>, e: Entries, p: Id, ghost s: Forest, ghost q: Id)
    requires 0 <= p < m.Length && IsList(m[..], m[p].next, s, q, NULL) && m[p].list == NULL
    requires Distinct(Preorder(s)) && p !in Preorder(s)
    modifies m
    ensures var (kids, rest) := Absorb(e, p, s);
            && IsList(m[..], m[p].list, kids, p, NULL) && IsList(m[..], m[p].next, rest, q, NULL)
            && m[p].parent == old(m[p].parent) && Only(old(m[..]), m[..], [p] + Preorder(s))
    decreases |Preorder(s)|, 3
  {
    hide Preorder, Distinct, Only, Partly, IsList, Within, Absorb, MenuTree.Finalize;
    ghost var m0, all := m[..], Preorder(s);
    ghost var done, todo: Forest := [], s;
    var last := NULL;
    var menu := m[p].next;
    StartPartly(m[..], menu, s, p, q);
    OnlyRefl(m0, all);
    assert [] + Absorb(e, p, s).0 == Absorb(e, p, s).0;
    while menu != NULL
      invariant Partly(m[..], m0[p].next, done, menu, todo, p, q, all) && Only(m0, m[..], all) && m[p] == m0[p]
      invariant Preorder(done) + Preorder(todo) == Preorder(s)
      invariant Absorb(e, p, s) == (done + Absorb(e, p, todo).0, Absorb(e, p, todo).1)
      invariant last == if done == [] then NULL else LastId(done)
      decreases |Preorder(todo)|
    {
      ghost var m1 := m[..];
      PartlyParts(m1, m0[p].next, done, menu, todo, p, q, all);
      ListNull(m1, menu, todo, q);
      ListFirst(m1, menu, todo, q, NULL);
      if !e.dependsOn(p, menu) {
        break;
      }
      PreorderLess(s, done, todo);
      AbsorbUnfold(e, p, todo);
      ghost var r := MenuTree.Finalize(e, todo, false);
      AbsorbOne(m, e, menu, p, m0, m0[p].next, done, todo, q, all);
      assert done + ([r[0]] + Absorb(e, p, r[1..]).0) == done + [r[0]] + Absorb(e, p, r[1..]).0;
      OnlyOut(m0, m[..], all, p);
      PartlyPreorder(m[..], m0[p].next, done + [r[0]], m[menu].next, r[1..], p, q, all);
      FlattenSmaller(r);
      last := menu;
      menu := m[menu].next;
      done, todo := done + [r[0]], r[1..];
    }
    PartlyParts(m[..], m0[p].next, done, menu, todo, p, q, all);
    AbsorbEnd(m[..], e, p, menu, todo, q);
    assert done + [] == done;
    ghost var m3 := m[..];
    CutOff(m, p, last, m0[p].next, done, menu, todo, q, all);
    OnlyMore(m0, m3, m[..], all, p);
  }

  lemma OnlyMore(m: Memory, m1: Memory, m2: Memory, ids: seq<Id>, p: Id)
    requires Only(m, m1, ids) && Only(m1, m2, [p] + ids)
    ensures Only(m, m2, [p] + ids)
  {
  }

  lemma PartlyPreorder(m: Memory, first: Id, done: Forest, menu: Id, todo: Forest, p: Id, q: Id, all: seq<Id>)
    requires Partly(m, first, done, menu, todo, p, q, all)
    ensures Preorder(done) + Preorder(todo) == all
  {
  }

  /** The body of that loop: the entry `menu` is finalised and gets the parent `p`. */
  method AbsorbOne(m: array<Links>, e: Entries, menu: Id, p: Id, ghost m0: Memory, ghost first: Id,
                   ghost done: Forest, ghost todo: Forest, ghost q: Id, ghost all: seq<Id>)
    requires Partly(m[..], first, done, menu, todo, p, q, all) && todo != [] && Only(m0, m[..], all)
    modifies m
    ensures var r := MenuTree.Finalize(e, todo, false);
            && 0 <= menu < m.Length && menu == r[0].id
            && Partly(m[..], first, done + [r[0]], m[menu].next, r[1..], p, q, all) && Only(m0, m[..], all)
    decreases |Preorder(todo)|, 2
  {
    hide Preorder, Distinct, Only, Partly, IsList, Within, Absorb, MenuTree.Finalize;
    ghost var m1 := m[..];
    PartlyParts(m1, first, done, menu, todo, p, q, all);
    ListFirst(m1, menu, todo, q, NULL);
    ghost var r := MenuTree.Finalize(e, todo, false);
    Finalize(m, e, menu, false, todo, q);
    ghost var m2 := m[..];
    PartlyAfter(m1, m2, first, done, menu, todo, r, p, q, all);
    OnlyTrans(m0, m1, m2, all, Preorder(todo));
    m[menu] := m[menu].(parent := p);
    PartlyReparent(m2, m[..], first, done, menu, r, p, q, all);
    OnlyRefl(m2, all);
    OnlyTrans(m0, m2, m[..], all, all);
  }

  /** The entries from the one after `p` to `last` become the submenu of `p`. */
  method CutOff(m: array<Links>, p: Id, last: Id, ghost first: Id, ghost done: Forest, ghost menu: Id, ghost todo: Forest,
                ghost q: Id, ghost all: seq<Id>)
    requires 0 <= p < m.Length && m[p].next == first && m[p].list == NULL && p !in all
    requires Partly(m[..], first, done, menu, todo, p, q, all) && last == if done == [] then NULL else LastId(done)
    modifies m
    ensures IsList(m[..], m[p].list, done, p, NULL) && IsList(m[..], m[p].next, todo, q, NULL)
    ensures m[p].parent == old(m[p].parent) && Only(old(m[..]), m[..], [p] + all)
  {
    hide Preorder, Distinct;
    ghost var m3 := m[..];
    PartlyParts(m3, first, done, menu, todo, p, q, all);
    LastValid(m3, first, done, p, menu);
    if last != NULL {
      LastIn(done);
      InList(m3, first, done, p, menu, last);
      m[p] := m[p].(list := m[p].next);
      m[p] := m[p].(next := m[last].next);
      m[last] := m[last].(next := NULL);
      ListRedirect(m3, m[..], first, done, p, menu, NULL);
      ListFrame(m3, m[..], menu, todo, q, NULL);
    }
  }

  lemma LastValid(m: Memory, first: Id, f: Forest, p: Id, end: Id)
    requires IsList(m, first, f, p, end)
    ensures f == [] ==> first == end
    ensures f != [] ==> LastId(f) != NULL
  {
    if f != [] {
      LastIn(f);
      InList(m, first, f, p, end, LastId(f));
    }
  }

  lemma AbsorbUnfold(e: Entries, p: Id, f: Forest)
    requires f != [] && e.dependsOn(p, f[0].id)
    ensures var r := MenuTree.Finalize(e, f, false); var (kids, rest) := Absorb(e, p, r[1..]);
            Absorb(e, p, f) == ([r[0]] + kids, rest)
  {
  }

  lemma AbsorbEnd(m: Memory, e: Entries, p: Id, menu: Id, f: Forest, q: Id)
    requires IsList(m, menu, f, q, NULL) && (menu == NULL || !e.dependsOn(p, menu))
    ensures Absorb(e, p, f) == ([], f)
  {
  }

  /** _menu_finalize, on the entry `p` with the entries after it. */
  method Finalize(m: array<Links>, e: Entries, p: Id, insideChoice: bool, ghost f: Forest, ghost q: Id)
    requires IsList(m[..], p, f, q, NULL) && f != [] && Distinct(Preorder(f))
    modifies m
    ensures IsList(m[..], p, MenuTree.Finalize(e, f, insideChoice), q, NULL) && Only(old(m[..]), m[..], Preorder(f))
    decreases |Preorder(f)|, 1
  {
    hide Preorder, Distinct, IsList, Only, Flatten, FinalizeAll, Absorb, MenuTree.Finalize;
    ghost var m0 := m[..];
    EntryOf(m0, p, f, q);
    FlattenSmaller(f);
    ghost var kids, rest := f[0].kids, f[1..];
    if m[p].list != NULL {
      FinalizeList(m, e, m[p].list, e.hasSym(p) && e.isChoice(p), kids, p);
      OnlyOut(m0, m[..], Preorder(kids), p);
      ListOther(m0, m[..], m0[p].next, rest, q, NULL, Preorder(kids));
      OnlyPart(m0, m0, m[..], Preorder(kids), f);
      kids := FinalizeAll(e, kids, e.hasSym(p) && e.isChoice(p));
    } else if !insideChoice && e.hasSym(p) {
      AbsorbSiblings(m, e, p, rest, q);
      AbsorbApart(e, p, rest);
      OnlyPart(m0, m0, m[..], [p] + Preorder(rest), f);
      var (k, r) := Absorb(e, p, rest);
      kids, rest := k, r;
    } else {
      OnlyRefl(m0, Preorder(f));
    }
    ghost var m1 := m[..];
    FlattenList(m, e, m[p].list, p, kids);
    OnlyOut(m1, m[..], Preorder(kids), p);
    ListOther(m1, m[..], m1[p].next, rest, q, NULL, Preorder(kids));
    OnlyPart(m0, m1, m[..], Preorder(kids), f);
    FinalizeIs(e, f, insideChoice);
    Rebuilt(m[..], p, Flatten(e, kids), rest, q);
  }

  lemma EntryOf(m: Memory, p: Id, f: Forest, q: Id)
    requires IsList(m, p, f, q, NULL) && f != [] && Distinct(Preorder(f))
    ensures 0 <= p < |m| && p == f[0].id && m[p].parent == q && p in Preorder(f)
    ensures IsList(m, m[p].list, f[0].kids, p, NULL) && IsList(m, m[p].next, f[1..], q, NULL)
    ensures m[p].list == NULL <==> f[0].kids == []
    ensures Distinct(Preorder(f[0].kids)) && Distinct(Preorder(f[1..]))
    ensures p !in Preorder(f[0].kids) && p !in Preorder(f[1..])
    ensures forall x :: x in Preorder(f[1..]) ==> x !in Preorder(f[0].kids)
    ensures Within(Preorder(f[0].kids), Preorder(f)) && Within(Preorder(f[1..]), Preorder(f))
  {
    ListFirst(m, p, f, q, NULL);
    KidsApart(f);
    ListNull(m, m[p].list, f[0].kids, p);
  }

  lemma OnlyPart(m: Memory, m1: Memory, m2: Memory, part: seq<Id>, f: Forest)
    requires m1 == m || Only(m, m1, Preorder(f))
    requires Only(m1, m2, part) && Within(part, Preorder(f))
    ensures Only(m, m2, Preorder(f))
  {
  }

  lemma AbsorbApart(e: Entries, p: Id, f: Forest)
    requires Distinct(Preorder(f)) && p !in Preorder(f)
    ensures var (kids, rest) := Absorb(e, p, f);
            && Distinct(Preorder(kids)) && p !in Preorder(kids) && p !in Preorder(rest)
            && (forall x :: x in Preorder(kids) ==> x in Preorder(f) && x !in Preorder(rest))
  {
    var (kids, rest) := Absorb(e, p, f);
    DistinctParts(Preorder(kids), Preorder(rest));
  }

  lemma FinalizeIs(e: Entries, f: Forest, insideChoice: bool)
    requires f != []
    ensures MenuTree.Finalize(e, f, insideChoice) ==
            if f[0].kids != [] then
              [Node(f[0].id, Flatten(e, FinalizeAll(e, f[0].kids, e.hasSym(f[0].id) && e.isChoice(f[0].id))))] + f[1..]
            else if !insideChoice && e.hasSym(f[0].id) then
              [Node(f[0].id, Flatten(e, Absorb(e, f[0].id, f[1..]).0))] + Absorb(e, f[0].id, f[1..]).1
            else [Node(f[0].id, Flatten(e, []))] + f[1..]
  {
    if f[0].kids == [] {
      assert f == [Node(f[0].id, [])] + f[1..];
    }
  }

  lemma Rebuilt(m: Memory, p: Id, kids: Forest, rest: Forest, q: Id)
    requires 0 <= p < |m| && m[p].parent == q
    requires IsList(m, m[p].list, kids, p, NULL) && IsList(m, m[p].next, rest, q, NULL)
    ensures IsList(m, p, [Node(p, kids)] + rest, q, NULL)
  {
    assert ([Node(p, kids)] + rest)[1..] == rest;
  }

  /**
   menu_finalize: the tree is finalised in place. The preorder of its entries stays, every
   entry points to the one above it, and below the root every entry with others below it
   has a prompt text.
   */
  method FinalizeMenu(m: array<Links>, e: Entries, root: Id, ghost t: Tree) returns (ghost t': Tree)
    requires IsList(m[..], root, [t], NULL, NULL) && Distinct(Preorder([t]))
    modifies m
    ensures IsList(m[..], root, [t'], NULL, NULL) && t'.id == root
    ensures Preorder([t']) == Preorder([t]) && Prompted(e, t'.kids)
    ensures Only(old(m[..]), m[..], Preorder([t]))
  {
    FinalizeTree(e, t);
    Finalize(m, e, root, false, [t], NULL);
    ghost var r := MenuTree.Finalize(e, [t], false);
    OnlyRoot(e, t);
    t' := r[0];
  }

  lemma OnlyRoot(e: Entries, t: Tree)
    ensures |MenuTree.Finalize(e, [t], false)| == 1
  {
    assert [t][1..] == [];
    var r := MenuTree.Finalize(e, [t], false);
    FinalizeIs(e, [t], false);
  }
}
