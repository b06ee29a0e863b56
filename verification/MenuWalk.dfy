/** menu_next: the walk over the menu tree that follows the links. */
module MenuWalk {
  import opened MenuTree
  import opened MenuFinalize

  /** Where the entries below number `i` of the preorder end. */
  ghost function EndAt(f: Forest, i: nat): (j: nat)
    requires i < |Preorder(f)|
    ensures i < j <= |Preorder(f)|
  {
    PreorderTail(f, []);
    var k := |Preorder(f[0].kids)|;
    if i == 0 then 1 + k
    else if i <= k then 1 + EndAt(f[0].kids, i - 1)
    else 1 + k + EndAt(f[1..], i - 1 - k)
  }

  /** The number of the entry above number `i`, -1 at the top. */
  ghost function ParentAt(f: Forest, i: nat): (j: int)
    requires i < |Preorder(f)|
    ensures -1 <= j < i
  {
    PreorderTail(f, []);
    var k := |Preorder(f[0].kids)|;
    if i == 0 then -1
    else if i <= k then 1 + ParentAt(f[0].kids, i - 1)
    else
      var j := ParentAt(f[1..], i - 1 - k);
      if j < 0 then -1 else 1 + k + j
  }

  /** The links of entry number `i`, told by numbers. */
  ghost predicate LinksAt(m: Memory, f: Forest, q: Id, end: Id, i: nat)
    requires i < |Preorder(f)|
  {
    var p := Preorder(f);
    var x, e, up := p[i], EndAt(f, i), ParentAt(f, i);
    && 0 <= x < |m| && m[x].parent == (if up < 0 then q else p[up])
    && (if m[x].list == NULL then e == i + 1 else e > i + 1 && p[i + 1] == m[x].list)
    && (up >= 0 ==> if m[x].next == NULL then EndAt(f, up) == e else e < |p| && p[e] == m[x].next)
    && (up < 0 ==> if e < |p| then p[e] == m[x].next else m[x].next == end)
  }

  lemma Pieces(f: Forest, i: nat)
    requires i < |Preorder(f)|
    ensures var k := |Preorder(f[0].kids)|;
            && |Preorder(f)| == 1 + k + |Preorder(f[1..])| && Preorder(f)[0] == f[0].id
            && (0 < i <= k ==> Preorder(f)[i] == Preorder(f[0].kids)[i - 1])
            && (i > k ==> Preorder(f)[i] == Preorder(f[1..])[i - 1 - k])
  {
    PreorderTail(f, []);
  }

  lemma {:induction false} EntryLinks(m: Memory, h: Id, f: Forest, q: Id, end: Id, i: nat)
    requires IsList(m, h, f, q, end) && i < |Preorder(f)|
    ensures LinksAt(m, f, q, end, i)
    decreases f
  {
    hide Preorder;
    PreorderEmpty();
    PreorderTail(f, []);
    var k := |Preorder(f[0].kids)|;
    if i == 0 {
      FirstLinks(m, h, f, q, end);
    } else if i <= k {
      EntryLinks(m, m[h].list, f[0].kids, h, NULL, i - 1);
      KidLinks(m, h, f, q, end, i);
    } else {
      EntryLinks(m, m[h].next, f[1..], q, end, i - 1 - k);
      LaterLinks(m, h, f, q, end, i);
    }
  }

  lemma FirstLinks(m: Memory, h: Id, f: Forest, q: Id, end: Id)
    requires IsList(m, h, f, q, end) && f != []
    ensures Preorder(f) != [] && LinksAt(m, f, q, end, 0)
  {
    PreorderTail(f, []);
    ListNull(m, m[h].list, f[0].kids, h);
    if f[0].kids != [] {
      PreorderTail(f[0].kids, []);
    }
    if f[1..] != [] {
      PreorderTail(f[1..], []);
    }
  }

  lemma KidLinks(m: Memory, h: Id, f: Forest, q: Id, end: Id, i: nat)
    requires IsList(m, h, f, q, end) && f != [] && 0 < i <= |Preorder(f[0].kids)| < |Preorder(f)|
    requires LinksAt(m, f[0].kids, h, NULL, i - 1)
    ensures LinksAt(m, f, q, end, i)
  {
    hide IsList, Preorder;
    var kids := f[0].kids;
    Pieces(f, i);
    HeadOf(m, h, f, q, end);
    var e := EndAt(kids, i - 1);
    var up := ParentAt(kids, i - 1);
    if i < |Preorder(kids)| {
      Pieces(f, i + 1);
    }
    if e < |Preorder(kids)| {
      Pieces(f, e + 1);
      InList(m, m[h].list, kids, h, NULL, Preorder(kids)[e]);
    }
    if up >= 0 {
      Pieces(f, up + 1);
    } else {
      Pieces(f, 0);
    }
  }

  lemma HeadOf(m: Memory, h: Id, f: Forest, q: Id, end: Id)
    requires IsList(m, h, f, q, end) && f != []
    ensures h == f[0].id && 0 <= h < |m| && IsList(m, m[h].list, f[0].kids, h, NULL)
  {
  }

  lemma LaterLinks(m: Memory, h: Id, f: Forest, q: Id, end: Id, i: nat)
    requires IsList(m, h, f, q, end) && f != [] && |Preorder(f[0].kids)| < i < |Preorder(f)|
    requires |Preorder(f)| == 1 + |Preorder(f[0].kids)| + |Preorder(f[1..])|
    requires LinksAt(m, f[1..], q, end, i - 1 - |Preorder(f[0].kids)|)
    ensures LinksAt(m, f, q, end, i)
  {
    hide IsList, Preorder;
    var k := |Preorder(f[0].kids)|;
    Pieces(f, i);
    var e := EndAt(f[1..], i - 1 - k);
    var up := ParentAt(f[1..], i - 1 - k);
    if i + 1 < |Preorder(f)| {
      Pieces(f, i + 1);
    }
    if e < |Preorder(f[1..])| {
      Pieces(f, e + 1 + k);
    }
    if up >= 0 {
      Pieces(f, up + 1 + k);
    }
  }

  /**
   menu_next, from entry number `i` of the tree below the entry `top`: the next entry of the
   preorder, and NULL after the last one. `root` is `top`, or NULL for the walk over the
   whole menu tree, in which `top` has no parent and no successor.
   */
  method MenuNext(m: array<Links>, menu: Id, root: Id, ghost top: Id, ghost t: Tree, ghost q: Id, ghost end: Id, ghost i: nat) returns (r: Id)
    requires IsList(m[..], top, [t], q, end) && Distinct(Preorder([t])) && i < |Preorder([t])| && menu == Preorder([t])[i]
    requires root == top || (root == NULL && q == NULL && end == NULL)
    ensures r == if i + 1 < |Preorder([t])| then Preorder([t])[i + 1] else NULL
  {
    hide Preorder, IsList;
    ghost var p := Preorder([t]);
    EntryLinks(m[..], top, [t], q, end, i);
    if m[menu].list != NULL {
      return m[menu].list;
    }
    RootFirst(m[..], top, t, q, end);
    var at := menu;
    ghost var j: int := i;
    while at != root && m[at].next == NULL
      invariant -1 <= j <= i && (if j < 0 then at == NULL == root && i + 1 == |p| else at == p[j] && EndAt([t], j) == i + 1)
      invariant j >= 0 ==> LinksAt(m[..], [t], q, end, j)
      decreases j
    {
      InnerParent(t, j);
      ghost var up := ParentAt([t], j);
      at := m[at].parent;
      j := up;
      if j >= 0 {
        EntryLinks(m[..], top, [t], q, end, j);
      }
    }
    if j >= 0 {
      OnlyFirst(p, j);
    }
    if at == root {
      return NULL;
    }
    InnerParent(t, j);
    r := m[at].next;
  }

  /** menu_for_each_sub_entry: the loop visits the entries below `root`, each once, in preorder. */
  method ForEachSubEntry(m: array<Links>, root: Id, ghost t: Tree, ghost q: Id, ghost end: Id) returns (visited: seq<Id>)
    requires IsList(m[..], root, [t], q, end) && Distinct(Preorder([t]))
    ensures Preorder([t]) == [root] + visited
  {
    hide Preorder, IsList, Distinct;
    RootFirst(m[..], root, t, q, end);
    ghost var p, i: nat := Preorder([t]), 0;
    visited := [];
    var menu := MenuNext(m, root, root, root, t, q, end, 0);
    while menu != NULL
      invariant i < |p| && p[..i + 1] == [root] + visited
      invariant menu == if i + 1 < |p| then p[i + 1] else NULL
      decreases |p| - i
    {
      NotNull(m[..], root, t, q, end, i);
      visited := visited + [menu];
      i := i + 1;
      assert p[..i + 1] == p[..i] + [p[i]];
      menu := MenuNext(m, menu, root, root, t, q, end, i);
    }
    if i + 1 < |p| {
      NotNull(m[..], root, t, q, end, i + 1);
    }
    assert p[..i + 1] == p;
  }

  lemma OnlyFirst(p: seq<Id>, j: nat)
    requires Distinct(p) && j < |p|
    ensures p[j] == p[0] ==> j == 0
  {
  }

  lemma NotNull(m: Memory, h: Id, t: Tree, q: Id, end: Id, i: nat)
    requires IsList(m, h, [t], q, end) && i < |Preorder([t])|
    ensures Preorder([t])[i] != NULL
  {
    EntryLinks(m, h, [t], q, end, i);
  }

  lemma RootFirst(m: Memory, root: Id, t: Tree, q: Id, end: Id)
    requires IsList(m, root, [t], q, end)
    ensures Preorder([t]) != [] && Preorder([t])[0] == root && EndAt([t], 0) == |Preorder([t])|
  {
    PreorderTail([t], []);
    assert [t][1..] == [];
  }

  lemma InnerParent(t: Tree, i: nat)
    requires i < |Preorder([t])| && Preorder([t]) != []
    ensures i > 0 ==> ParentAt([t], i) >= 0
  {
    PreorderTail([t], []);
    assert [t][1..] == [] && Preorder([]) == [];
  }
}
