/**
 Which entries _menu_finalize moves: below a symbol come exactly the entries behind it that
 depend on it, and in a choice none moves.
 */
module MenuLaws {
  import opened MenuTree

  /** The entries of a list, without those below them. */
  function Heads(f: Forest): (r: seq<Id>)
    ensures |r| == |f|
  {
    seq(|f|, i requires 0 <= i < |f| => f[i].id)
  }

  /** Each depends on `p`, or an entry before it has no prompt text and gave up its submenu. */
  predicate Dependent(e: Entries, p: Id, kids: Forest)
  {
    forall j :: 0 <= j < |kids| ==> e.dependsOn(p, kids[j].id) || PromptlessBefore(e, kids, j)
  }

  predicate PromptlessBefore(e: Entries, kids: Forest, j: nat)
    requires j < |kids|
  {
    exists i :: 0 <= i < j && !e.hasText(kids[i].id)
  }

  /** No symbol without a submenu is followed by an entry that depends on it. */
  predicate Settled(e: Entries, f: Forest)
  {
    forall i :: 0 <= i < |f| - 1 && f[i].kids == [] && e.hasSym(f[i].id) ==> !e.dependsOn(f[i].id, f[i + 1].id)
  }

  predicate AllText(e: Entries, ids: seq<Id>) { forall k :: 0 <= k < |ids| ==> e.hasText(ids[k]) }

  predicate AllDepend(e: Entries, p: Id, f: Forest) { forall k :: 0 <= k < |f| ==> e.dependsOn(p, f[k].id) }

  // ----- the entries behind a symbol -----

  /** The loop takes entries as long as they depend on the symbol, and no longer. */
  lemma {:induction false} AbsorbLaw(e: Entries, p: Id, f: Forest)
    ensures var (kids, rest) := Absorb(e, p, f);
            && AllDepend(e, p, kids) && (rest != [] ==> !e.dependsOn(p, rest[0].id))
            && (f != [] && e.dependsOn(p, f[0].id) ==> kids != [] && kids[0].id == f[0].id)
    decreases |Preorder(f)|
  {
    if f != [] && e.dependsOn(p, f[0].id) {
      var r := Finalize(e, f, false);
      FlattenSmaller(r);
      AbsorbLaw(e, p, r[1..]);
    }
  }

  /** Flattening keeps entries with a prompt text where they are, and puts others' submenus behind them. */
  lemma {:induction false} FlattenDependent(e: Entries, p: Id, f: Forest)
    requires AllDepend(e, p, f)
    ensures Dependent(e, p, Flatten(e, f))
    decreases |Preorder(f)|
  {
    if f != [] {
      Splice(f);
      FlattenSmaller(f);
      if f[0].kids != [] && !e.hasText(f[0].id) {
        FirstPromptless(e, p, Node(f[0].id, []), Flatten(e, f[0].kids + f[1..]));
      } else {
        FlattenDependent(e, p, f[1..]);
        DependentCons(e, p, f[0], Flatten(e, f[1..]));
      }
    }
  }

  lemma FirstPromptless(e: Entries, p: Id, t: Tree, r: Forest)
    requires e.dependsOn(p, t.id) && !e.hasText(t.id)
    ensures Dependent(e, p, [t] + r)
  {
    var kids := [t] + r;
    forall j | 0 < j < |kids| ensures PromptlessBefore(e, kids, j) {
      assert kids[0] == t;
    }
  }

  lemma DependentCons(e: Entries, p: Id, t: Tree, r: Forest)
    requires e.dependsOn(p, t.id) && Dependent(e, p, r)
    ensures Dependent(e, p, [t] + r)
  {
    hide PromptlessBefore;
    var kids := [t] + r;
    forall j | 0 < j < |kids| ensures e.dependsOn(p, kids[j].id) || PromptlessBefore(e, kids, j) {
      PromptlessNext(e, t, r, j - 1);
      assert kids[j] == r[j - 1];
    }
  }

  lemma PromptlessNext(e: Entries, t: Tree, r: Forest, j: nat)
    requires j < |r|
    ensures PromptlessBefore(e, r, j) ==> PromptlessBefore(e, [t] + r, j + 1)
  {
    if PromptlessBefore(e, r, j) {
      var i :| 0 <= i < j && !e.hasText(r[i].id);
      assert ([t] + r)[i + 1] == r[i];
    }
  }

  /** Where all entries have a prompt text nothing is flattened. */
  lemma {:induction false} FlattenKeeps(e: Entries, f: Forest)
    requires AllText(e, Heads(f))
    ensures Flatten(e, f) == f
    decreases |f|
  {
    if f != [] {
      assert Heads(f)[0] == f[0].id;
      forall k | 0 <= k < |Heads(f[1..])| ensures e.hasText(Heads(f[1..])[k]) {
        assert Heads(f[1..])[k] == Heads(f)[k + 1];
      }
      FlattenKeeps(e, f[1..]);
    }
  }

  /**
   One call of _menu_finalize. An entry with a submenu keeps exactly the entries below it, and
   none behind it moves. A symbol without one gets those behind it that depend on it, up to the
   first that does not. All other entries stay as they are.
   */
  lemma FinalizeLaw(e: Entries, f: Forest, insideChoice: bool)
    requires f != []
    ensures var p, r := f[0], Finalize(e, f, insideChoice);
            && (p.kids != [] ==> r[1..] == f[1..] && Preorder(r[0].kids) == Preorder(p.kids))
            && (p.kids == [] && (insideChoice || !e.hasSym(p.id)) ==> r == f)
            && (p.kids == [] && !insideChoice && e.hasSym(p.id) ==>
                  (|r| > 1 ==> !e.dependsOn(p.id, r[1].id)) && Dependent(e, p.id, r[0].kids))
  {
    var p := f[0];
    FlattenSmaller(f);
    if p.kids != [] {
      var kids := FinalizeAll(e, p.kids, e.hasSym(p.id) && e.isChoice(p.id));
      FlattenPreorder(e, kids);
    } else if !insideChoice && e.hasSym(p.id) {
      AbsorbLaw(e, p.id, f[1..]);
      FlattenDependent(e, p.id, Absorb(e, p.id, f[1..]).0);
    }
  }

  // ----- the entries of a list -----

  /** Inside a choice no entry moves to another place of the list. */
  lemma {:induction false} ChoiceLaw(e: Entries, f: Forest)
    ensures Heads(FinalizeAll(e, f, true)) == Heads(f)
    decreases |f|
  {
    if f != [] {
      var r := Finalize(e, f, true);
      FinalizeLaw(e, f, true);
      assert r[1..] == f[1..];
      ChoiceLaw(e, f[1..]);
      HeadsCons(r[0], FinalizeAll(e, r[1..], true));
      HeadsCons(f[0], f[1..]);
      assert [f[0]] + f[1..] == f;
    }
  }

  lemma HeadsCons(t: Tree, f: Forest)
    ensures Heads([t] + f) == [t.id] + Heads(f)
  {
  }

  lemma KidsStay(e: Entries, f: Forest, insideChoice: bool)
    requires f != [] && f[0].kids != []
    ensures Finalize(e, f, insideChoice)[0].kids != []
  {
    FinalizeLaw(e, f, insideChoice);
    PreorderEmpty();
  }

  /** Elsewhere no symbol stays without a submenu before an entry that depends on it. */
  lemma {:induction false} SettledLaw(e: Entries, f: Forest)
    ensures Settled(e, FinalizeAll(e, f, false))
    ensures f != [] ==> FinalizeAll(e, f, false) != [] && FinalizeAll(e, f, false)[0].id == f[0].id
    decreases |Preorder(f)|
  {
    hide Preorder;
    if f != [] {
      var r := Finalize(e, f, false);
      var rest := FinalizeAll(e, r[1..], false);
      FlattenSmaller(r);
      SettledLaw(e, r[1..]);
      FinalizeLaw(e, f, false);
      if f[0].kids != [] {
        KidsStay(e, f, false);
      }
      SettledCons(e, r[0], rest);
    }
  }

  lemma SettledCons(e: Entries, t: Tree, f: Forest)
    requires Settled(e, f) && (f != [] && t.kids == [] && e.hasSym(t.id) ==> !e.dependsOn(t.id, f[0].id))
    ensures Settled(e, [t] + f)
  {
    var r := [t] + f;
    forall i | 0 <= i < |r| - 1 && r[i].kids == [] && e.hasSym(r[i].id) ensures !e.dependsOn(r[i].id, r[i + 1].id) {
      assert i > 0 ==> r[i] == f[i - 1];
      assert r[i + 1] == f[i];
    }
  }

  /**
   What comes below an entry that has a submenu: in a choice the same entries as before, and
   elsewhere, if all have a prompt text, a list in which every symbol has its dependent entries.
   */
  lemma SubmenuLaw(e: Entries, f: Forest, insideChoice: bool)
    requires f != [] && f[0].kids != [] && AllText(e, Preorder(f[0].kids))
    ensures var p, r := f[0], Finalize(e, f, insideChoice);
            if e.hasSym(p.id) && e.isChoice(p.id) then Heads(r[0].kids) == Heads(p.kids) else Settled(e, r[0].kids)
  {
    var p := f[0];
    var choice := e.hasSym(p.id) && e.isChoice(p.id);
    FlattenSmaller(f);
    var kids := FinalizeAll(e, p.kids, choice);
    HeadsText(e, kids);
    FlattenKeeps(e, kids);
    ChoiceLaw(e, p.kids);
    SettledLaw(e, p.kids);
  }

  lemma {:induction false} HeadsText(e: Entries, f: Forest)
    requires AllText(e, Preorder(f))
    ensures AllText(e, Heads(f))
    decreases |f|
  {
    if f != [] {
      assert Preorder(f)[0] == f[0].id;
      assert forall k :: 0 <= k < |Preorder(f[1..])| ==> Preorder(f)[1 + |Preorder(f[0].kids)| + k] == Preorder(f[1..])[k];
      HeadsText(e, f[1..]);
      forall k | 0 <= k < |Heads(f)| ensures e.hasText(Heads(f)[k]) {
        assert k > 0 ==> Heads(f)[k] == Heads(f[1..])[k - 1];
      }
    }
  }
}
