/** freewalk and uvmfree (kernel/vm.c): a page-table tree is given back page by page. */
module FreeTree {
  import opened PageState
  import opened Vm
  import opened UserVm

  /** The page-table page on `level` above the page `k`. */
  function Up(k: Key, level: nat): Key
    decreases level - k.level
  {
    if k.level >= level then k else Up(k.Parent(), level)
  }

  ghost predicate Under(k: Key, top: Key) { k.level <= top.level && Up(k, top.level) == top }

  /** The entry of `top` whose subtree holds `k`. */
  ghost function Branch(k: Key, top: Key): nat
    requires top.level > 0
  {
    Up(k, top.level - 1).Entry()
  }

  lemma {:induction false} UpParent(k: Key, level: nat)
    requires k.level < level
    ensures Up(k, level - 1).level == level - 1 && Up(k, level) == Up(k, level - 1).Parent()
    decreases level - k.level
  {
    if k.level < level - 1 { UpParent(k.Parent(), level); }
  }

  /** Below `top` lie the subtrees of its entries. */
  lemma UnderChild(k: Key, top: Key, e: nat)
    requires 0 < top.level <= 2 && e < ENTRIES
    ensures Under(k, top.Child(e)) <==> Under(k, top) && k != top && Branch(k, top) == e
  {
    if k.level < top.level {
      UpParent(k, top.level);
      KeyArith(Up(k, top.level - 1));
      assert top.Child(e).Parent() == top && top.Child(e).Entry() == e;
    }
  }

  /** A page-table page waiting to be freed. `where` gives the place of each of the tree's pages. */
  ghost predicate DoomedAt(m: State, tree: map<Key, nat>, where: map<nat, Key>, k: Key)
    requires k in tree
  {
    var p := tree[k];
    && p in m.mem && p in m.owner && m.owner[p] == Held && p in where && where[p] == k
    && m.mem[p].Table? && |m.mem[p].ptes| == ENTRIES
    && k.level <= 2 && (k.level < 2 ==> k.Parent() in tree)
    && forall e: nat | e < ENTRIES :: DoomedEntry(m.mem[p].ptes, tree, k, e)
  }

  /** Its entries lead to page-table pages; those of the lowest level are invalid. */
  ghost predicate DoomedEntry(ptes: seq<nat>, tree: map<Key, nat>, k: Key, e: nat)
    requires e < |ptes|
  {
    if k.level > 0 then ptes[e] == (if k.Child(e) in tree then NodePte(tree[k.Child(e)]) else 0) else !IsValid(ptes[e])
  }

  ghost predicate Doomed(m: State, tree: map<Key, nat>, where: map<nat, Key>, top: Key) {
    top in tree && forall k | k in tree && Under(k, top) :: DoomedAt(m, tree, where, k)
  }

  /** The page `q` belongs to the subtree of `top`. */
  ghost predicate InSubtree(tree: map<Key, nat>, where: map<nat, Key>, top: Key, q: nat) {
    q in where && where[q] in tree && tree[where[q]] == q && Under(where[q], top)
  }

  ghost predicate PrunedAt(m: State, m': State, tree: map<Key, nat>, where: map<nat, Key>, top: Key, q: nat) {
    && q in m.mem && q in m.owner && q in m'.mem && q in m'.owner
    && if InSubtree(tree, where, top, q) then m'.owner[q].InFree?
       else m'.owner[q] == m.owner[q] && m'.mem[q] == m.mem[q]
  }

  /** From `m` to `m'` exactly the pages of the subtree of `top` are freed. */
  ghost predicate Pruned(m: State, m': State, tree: map<Key, nat>, where: map<nat, Key>, top: Key) {
    && m.Inv() && m'.Inv() && m'.trees == m.trees && m'.mem.Keys == m.mem.Keys && m.free <= m'.free
    && (forall q | q in m.mem :: PrunedAt(m, m', tree, where, top, q))
    && (forall s, v: nat | s in m.trees :: LeafSame(m, m', s, v))
  }

  ghost predicate HalfAt(m: State, m': State, tree: map<Key, nat>, where: map<nat, Key>, top: Key, i: nat, q: nat) {
    && top in tree
    && q in m.mem && q in m.owner && q in m'.mem && q in m'.owner
    && if top.level > 0 && InSubtree(tree, where, top, q) && where[q] != top && Branch(where[q], top) < i
       then m'.owner[q].InFree?
       else m'.owner[q] == m.owner[q] && (m'.mem[q] == m.mem[q] || q == tree[top])
  }

  /** freewalk's loop: the subtrees of the first `i` entries of `top` are freed. */
  ghost predicate Half(m: State, m': State, tree: map<Key, nat>, where: map<nat, Key>, top: Key, i: nat) {
    && m.Inv() && m'.Inv() && m'.trees == m.trees && m'.mem.Keys == m.mem.Keys && m.free <= m'.free && i <= ENTRIES
    && top in tree && tree[top] in m.mem && m.mem[tree[top]].Table? && |m.mem[tree[top]].ptes| == ENTRIES
    && m'.mem[tree[top]].Table? && |m'.mem[tree[top]].ptes| == ENTRIES
      && m'.mem[tree[top]].ptes[i..] == m.mem[tree[top]].ptes[i..]
    && (forall q | q in m.mem :: HalfAt(m, m', tree, where, top, i, q))
    && (forall s, v: nat | s in m.trees :: LeafSame(m, m', s, v))
  }

  lemma HalfNone(m: State, tree: map<Key, nat>, where: map<nat, Key>, top: Key)
    requires m.Inv() && Doomed(m, tree, where, top)
    ensures Half(m, m, tree, where, top, 0)
  {
    assert Under(top, top) && DoomedAt(m, tree, where, top) && m.owner.Keys == m.mem.Keys;
    hide State.Inv, State.LeafPte;
    forall q | q in m.mem ensures HalfAt(m, m, tree, where, top, 0, q) {}
    forall s, v: nat | s in m.trees ensures LeafSame(m, m, s, v) {}
  }

  /** The subtree of entry `i` is still as it was. */
  lemma HalfChild(m: State, m': State, tree: map<Key, nat>, where: map<nat, Key>, top: Key, i: nat)
    requires Doomed(m, tree, where, top) && Half(m, m', tree, where, top, i) && i < ENTRIES && 0 < top.level <= 2
    requires top.Child(i) in tree
    ensures Doomed(m', tree, where, top.Child(i))
  {
    hide State.Inv, State.LeafPte, Up;
    forall k | k in tree && Under(k, top.Child(i)) ensures DoomedAt(m', tree, where, k) {
      UnderChild(k, top, i);
      assert DoomedAt(m, tree, where, k) && HalfAt(m, m', tree, where, top, i, tree[k]);
      assert Under(top, top) ==> DoomedAt(m, tree, where, top);
      UnderSelf(top);
    }
  }

  lemma UnderSelf(k: Key)
    ensures Under(k, k)
  {
  }

  /** An entry's subtree is freed and the entry cleared. */
  lemma HalfStep(m: State, m1: State, m2: State, m3: State, tree: map<Key, nat>, where: map<nat, Key>, top: Key, i: nat)
    requires Doomed(m, tree, where, top) && Half(m, m1, tree, where, top, i) && i < ENTRIES && 0 < top.level <= 2
    requires Pruned(m1, m2, tree, where, top.Child(i))
    requires m3 == m2.Fill(tree[top], Table(m1.mem[tree[top]].ptes[i := 0]))
    requires m3.Inv() && (forall s, v: nat | s in m2.trees :: LeafSame(m2, m3, s, v))
    ensures Half(m, m3, tree, where, top, i + 1)
  {
    hide State.Inv, State.LeafPte, Up;
    UnderSelf(top);
    assert DoomedAt(m, tree, where, top);
    forall q | q in m.mem ensures HalfAt(m, m3, tree, where, top, i + 1, q) {
      assert HalfAt(m, m1, tree, where, top, i, q) && PrunedAt(m1, m2, tree, where, top.Child(i), q);
      if q in where { UnderChild(where[q], top, i); }
    }
    forall s, v: nat | s in m.trees ensures LeafSame(m, m3, s, v) {
      assert LeafSame(m, m1, s, v) && LeafSame(m1, m2, s, v) && LeafSame(m2, m3, s, v);
    }
  }

  lemma {:induction false} UpIn(m: State, tree: map<Key, nat>, where: map<nat, Key>, top: Key, k: Key, level: nat)
    requires Doomed(m, tree, where, top) && k in tree && Under(k, top) && k.level <= level <= top.level <= 2
    ensures Up(k, level) in tree
    decreases level - k.level
  {
    if k.level < level {
      assert DoomedAt(m, tree, where, k);
      UpIn(m, tree, where, top, k.Parent(), level);
    }
  }

  /** An entry without a page-table page has an empty subtree. */
  lemma HalfSkip(m: State, m1: State, tree: map<Key, nat>, where: map<nat, Key>, top: Key, i: nat)
    requires Doomed(m, tree, where, top) && Half(m, m1, tree, where, top, i) && i < ENTRIES && top.level <= 2
    requires top.level > 0 ==> top.Child(i) !in tree
    ensures Half(m, m1, tree, where, top, i + 1)
  {
    hide State.Inv, State.LeafPte, Up;
    forall q | q in m.mem ensures HalfAt(m, m1, tree, where, top, i + 1, q) {
      assert HalfAt(m, m1, tree, where, top, i, q);
      if top.level > 0 && InSubtree(tree, where, top, q) && where[q] != top {
        UnderChild(where[q], top, i);
        EmptySubtree(m, tree, where, top, i, where[q]);
      }
    }
  }

  lemma EmptySubtree(m: State, tree: map<Key, nat>, where: map<nat, Key>, top: Key, i: nat, k: Key)
    requires Doomed(m, tree, where, top) && 0 < top.level <= 2 && i < ENTRIES && top.Child(i) !in tree && k in tree
    requires Under(k, top)
    ensures !Under(k, top.Child(i))
  {
    if Under(k, top.Child(i)) { UpIn(m, tree, where, top, k, top.level - 1); }
  }

  /** At last the page itself goes. */
  lemma HalfDone(m: State, m1: State, m2: State, tree: map<Key, nat>, where: map<nat, Key>, top: Key)
    requires Doomed(m, tree, where, top) && Half(m, m1, tree, where, top, ENTRIES) && top.level <= 2
    requires m2 == m1.Push(tree[top]) && m2.Inv() && (forall s, v: nat | s in m1.trees :: LeafSame(m1, m2, s, v))
    ensures Pruned(m, m2, tree, where, top)
  {
    hide State.Inv, State.LeafPte, Up;
    UnderSelf(top);
    assert DoomedAt(m, tree, where, top);
    forall q | q in m.mem ensures PrunedAt(m, m2, tree, where, top, q) {
      assert HalfAt(m, m1, tree, where, top, ENTRIES, q);
      if q in where && Under(where[q], top) && where[q] != top && top.level == 0 { LowestLevel(where[q], top); }
    }
    forall s, v: nat | s in m.trees ensures LeafSame(m, m2, s, v) {
      assert LeafSame(m, m1, s, v) && LeafSame(m1, m2, s, v);
    }
  }

  lemma LowestLevel(k: Key, top: Key)
    requires Under(k, top) && top.level == 0
    ensures k == top
  {
  }

  lemma FillLeaves(m: State, p: nat, page: Page)
    requires m.Inv() && p in m.mem && m.owner[p] == Held
    ensures m.Fill(p, page).Inv() && forall s, v: nat | s in m.trees :: LeafSame(m, m.Fill(p, page), s, v)
  {
    FillInv(m, p, page);
    MapFreshLeaves(m, m.Fill(p, page));
  }

  lemma PushLeaves(m: State, p: nat)
    requires m.Inv() && p in m.mem && m.owner[p] == Held
    ensures m.Push(p).Inv() && forall s, v: nat | s in m.trees :: LeafSame(m, m.Push(p), s, v)
  {
    PushInv(m, p);
    MapFreshLeaves(m, m.Push(p));
  }

  lemma HalfFacts(m: State, m': State, tree: map<Key, nat>, where: map<nat, Key>, top: Key, i: nat)
    requires Doomed(m, tree, where, top) && Half(m, m', tree, where, top, i)
    ensures m'.Inv() && top in tree && tree[top] in m'.mem && tree[top] in m'.owner && m'.owner[tree[top]] == Held
    ensures top.level <= 2
    ensures m'.mem[tree[top]].Table? && |m'.mem[tree[top]].ptes| == ENTRIES
    ensures i < ENTRIES ==> DoomedEntry(m'.mem[tree[top]].ptes, tree, top, i)
  {
    hide State.Inv, State.LeafPte, Up;
    UnderSelf(top);
    assert DoomedAt(m, tree, where, top) && HalfAt(m, m', tree, where, top, i, tree[top]);
    if i < ENTRIES {
      assert m'.mem[tree[top]].ptes[i..][0] == m.mem[tree[top]].ptes[i..][0];
      assert DoomedEntry(m.mem[tree[top]].ptes, tree, top, i);
    }
  }

  lemma PrunedFacts(m: State, m': State, tree: map<Key, nat>, where: map<nat, Key>, top: Key, p: nat)
    requires Pruned(m, m', tree, where, top) && p in m.mem && p in m.owner && !InSubtree(tree, where, top, p)
    ensures m'.Inv() && p in m'.mem && p in m'.owner && m'.owner[p] == m.owner[p] && m'.mem[p] == m.mem[p]
  {
    hide State.Inv, State.LeafPte, Up;
    assert PrunedAt(m, m', tree, where, top, p);
  }

  lemma TopNotBelow(m: State, tree: map<Key, nat>, where: map<nat, Key>, top: Key, i: nat)
    requires Doomed(m, tree, where, top) && 0 < top.level <= 2 && i < ENTRIES
    ensures !InSubtree(tree, where, top.Child(i), tree[top])
  {
    UnderSelf(top);
    assert DoomedAt(m, tree, where, top);
    UnderChild(top, top, i);
  }

  /** The subtree of entry `i` is freed, and the entry is then cleared. */
  lemma HalfFreed(m: State, m1: State, m2: State, tree: map<Key, nat>, where: map<nat, Key>, top: Key, i: nat)
    requires Doomed(m, tree, where, top) && Half(m, m1, tree, where, top, i) && i < ENTRIES && 0 < top.level <= 2
    requires Pruned(m1, m2, tree, where, top.Child(i))
    ensures top in tree && tree[top] in m1.mem && m1.mem[tree[top]].Table? && |m1.mem[tree[top]].ptes| == ENTRIES
    ensures tree[top] in m2.mem && m2.mem[tree[top]] == m1.mem[tree[top]]
    ensures Half(m, m2.Fill(tree[top], Table(m1.mem[tree[top]].ptes[i := 0])), tree, where, top, i + 1)
  {
    hide State.Inv, State.LeafPte, Up, Half, Pruned, Doomed, DoomedEntry, InSubtree;
    HalfFacts(m, m1, tree, where, top, i);
    TopNotBelow(m, tree, where, top, i);
    PrunedFacts(m1, m2, tree, where, top.Child(i), tree[top]);
    var page := Table(m1.mem[tree[top]].ptes[i := 0]);
    FillLeaves(m2, tree[top], page);
    HalfStep(m, m1, m2, m2.Fill(tree[top], page), tree, where, top, i);
  }

  /** Entries of the subtree: a child page-table page, or nothing. */
  lemma DoomedPte(ptes: seq<nat>, tree: map<Key, nat>, k: Key, i: nat)
    requires i < |ptes| && DoomedEntry(ptes, tree, k, i)
    ensures IsValid(ptes[i]) <==> k.level > 0 && k.Child(i) in tree
    ensures IsValid(ptes[i]) ==> ptes[i] / 2 % 8 == 0 && Ppn(ptes[i]) == tree[k.Child(i)]
  {
    if k.level > 0 && k.Child(i) in tree {
      NodePteFields(tree[k.Child(i)]);
      NodePteFlags(tree[k.Child(i)]);
    }
  }

  lemma NodePteFlags(p: nat)
    ensures NodePte(p) / 2 % 8 == 0
  {
    var k := 64 * p;
    assert NodePte(p) / 2 == 8 * k;
  }

  /** freewalk (kernel/vm.c:267-283) frees exactly the pages of a subtree; its panic on a valid leaf
      entry (line 279) is unreachable once the leaves are unmapped. */
  method Freewalk(k: Memory, p: nat, ghost top: Key, ghost tree: map<Key, nat>, ghost where: map<nat, Key>)
    requires k.Valid() && Doomed(k.V(), tree, where, top) && tree[top] == p && top.level <= 2
    modifies k
    ensures Pruned(old(k.V()), k.V(), tree, where, top)
    decreases top.level
  {
    hide State.Inv, State.LeafPte, Up, Half, Pruned, Doomed, DoomedEntry, InSubtree, IsValid, Ppn;
    ghost var m0 := k.V();
    HalfNone(m0, tree, where, top);
    var i := 0;
    while i < 512
      invariant 0 <= i <= 512 && Half(m0, k.V(), tree, where, top, i)
    {
      ghost var m1 := k.V();
      HalfFacts(m0, m1, tree, where, top, i);
      var pte := k.mem[p].ptes[i];
      DoomedPte(m1.mem[p].ptes, tree, top, i);
      if IsValid(pte) && pte / 2 % 8 == 0 {
        HalfChild(m0, m1, tree, where, top, i);
        var child := Ppn(pte);
        Freewalk(k, child, top.Child(i), tree, where);
        HalfFreed(m0, m1, k.V(), tree, where, top, i);
        k.mem := k.mem[p := Table(k.mem[p].ptes[i := 0])];
      } else if IsValid(pte) {
        assert false;
      } else {
        HalfSkip(m0, m1, tree, where, top, i);
      }
      i := i + 1;
    }
    HalfFacts(m0, k.V(), tree, where, top, 512);
    PushLeaves(k.V(), p);
    ghost var m1 := k.V();
    k.Kfree(p);
    HalfDone(m0, m1, k.V(), tree, where, top);
  }

  ghost predicate ReturnedAt(m: State, m': State, r: nat, q: nat) {
    && q in m.mem && q in m.owner && q in m'.mem && q in m'.owner
    && if (m.owner[q].Node? || m.owner[q].Leaf?) && m.owner[q].root == r then m'.owner[q].InFree?
       else m'.owner[q] == m.owner[q] && m'.mem[q] == m.mem[q]
  }

  /** From `m` to `m'` the tree `r` is gone, exactly the pages it owned are freed, nothing else changed. */
  ghost predicate Returned(m: State, m': State, r: nat) {
    && m.Inv() && m'.Inv() && r in m.trees && m'.trees == m.trees - {r} && m'.mem.Keys == m.mem.Keys
    && (forall q | q in m.mem :: ReturnedAt(m, m', r, q))
    && (forall s, v: nat | s in m.trees && s != r :: LeafSame(m, m', s, v))
  }

  ghost function Places(m: State, r: nat): map<nat, Key> {
    map p | p in m.owner && m.owner[p].Node? && m.owner[p].root == r :: m.owner[p].key
  }

  /** A tree without leaves is ready for freewalk. */
  lemma DetachDoomed(m: State, r: nat)
    requires m.Inv() && r in m.trees && forall p | p in m.owner :: !(m.owner[p].Leaf? && m.owner[p].root == r)
    requires forall v: nat :: m.LeafPte(r, v) == 0
    ensures Doomed(m.Detach(r), m.trees[r], Places(m, r), Root) && m.trees[r][Root] == r
  {
    DetachInv(m, r);
    assert m.NodeAt(r, Root);
    forall k | k in m.trees[r] && Under(k, Root) ensures DoomedAt(m.Detach(r), m.trees[r], Places(m, r), k) {
      assert m.NodeAt(r, k);
      forall e: nat | e < ENTRIES ensures DoomedEntry(m.mem[m.trees[r][k]].ptes, m.trees[r], k, e) {
        if k.level > 0 { assert m.EntryAt(r, k, e); } else { LeafZero(m, r, k.idx, e); }
      }
    }
  }

  lemma LeafZero(m: State, r: nat, idx: nat, e: nat)
    requires m.Inv() && r in m.trees && Key(0, idx) in m.trees[r] && e < ENTRIES
    requires m.LeafPte(r, idx * ENTRIES + e) == 0
    ensures m.NodeAt(r, Key(0, idx)) && m.mem[m.trees[r][Key(0, idx)]].ptes[e] == 0
  {
    assert m.NodeAt(r, Key(0, idx));
    assert (idx * ENTRIES + e) / ENTRIES == idx && (idx * ENTRIES + e) % ENTRIES == e;
  }

  /** All of a tree's page-table pages lie under its root. */
  lemma {:induction false} UnderRoot(m: State, r: nat, k: Key)
    requires m.Inv() && r in m.trees && k in m.trees[r]
    ensures Under(k, Root)
    decreases 2 - k.level
  {
    assert m.NodeAt(r, k);
    if k.level < 2 {
      assert k.Parent() in m.trees[r];
      UnderRoot(m, r, k.Parent());
    }
  }

  lemma PrunedReturned(m: State, m': State, r: nat)
    requires m.Inv() && r in m.trees && forall p | p in m.owner :: !(m.owner[p].Leaf? && m.owner[p].root == r)
    requires Pruned(m.Detach(r), m', m.trees[r], Places(m, r), Root)
    requires forall s, v: nat | s in m.trees && s != r :: LeafSame(m, m.Detach(r), s, v)
    ensures Returned(m, m', r)
  {
    assert m.owner.Keys == m.mem.Keys;
    forall q | q in m.mem ensures ReturnedAt(m, m', r, q) { PrunedPage(m, m', r, q); }
    hide State.Inv, State.LeafPte, Up;
    forall s, v: nat | s in m.trees && s != r ensures LeafSame(m, m', s, v) {
      assert LeafSame(m, m.Detach(r), s, v) && LeafSame(m.Detach(r), m', s, v);
    }
  }

  lemma PrunedPage(m: State, m': State, r: nat, q: nat)
    requires m.Inv() && r in m.trees && q in m.mem && !(m.owner[q].Leaf? && m.owner[q].root == r)
    requires Pruned(m.Detach(r), m', m.trees[r], Places(m, r), Root)
    ensures ReturnedAt(m, m', r, q)
  {
    hide Up;
    assert PrunedAt(m.Detach(r), m', m.trees[r], Places(m, r), Root, q) && m.PageAt(q);
    if m.owner[q].Node? && m.owner[q].root == r { UnderRoot(m, r, m.owner[q].key); }
  }

  lemma DetachLeaves(m: State, r: nat)
    requires m.Inv() && r in m.trees
    ensures forall s, v: nat | s in m.trees && s != r :: LeafSame(m, m.Detach(r), s, v)
  {
    forall s, v: nat | s in m.trees && s != r ensures LeafSame(m, m.Detach(r), s, v) {}
  }

  /** Unmapping the user pages and then freeing the tree gives back all the tree owned. */
  lemma UnmappedReturned(m: State, m1: State, m2: State, r: nat, n: nat)
    requires Unmapped(m, m1, r, 0, n) && Returned(m1, m2, r)
    requires forall p | p in m.owner :: LeafBelow(m, r, n, p)
    ensures Returned(m, m2, r)
  {
    hide State.Inv, State.LeafPte;
    forall q | q in m.mem ensures ReturnedAt(m, m2, r, q) {
      assert FreedAt(m, m1, r, 0, n, q) && ReturnedAt(m1, m2, r, q) && LeafBelow(m, r, n, q);
    }
    forall s, v: nat | s in m.trees && s != r ensures LeafSame(m, m2, s, v) {
      assert LeafSame(m, m1, s, v) && LeafSame(m1, m2, s, v);
    }
  }

  lemma UserNone(m: State, r: nat)
    requires UserOk(m, r, 0, map[])
    ensures m.Inv() && r in m.trees && (forall v: nat :: m.LeafPte(r, v) == 0)
    ensures forall p | p in m.owner :: !(m.owner[p].Leaf? && m.owner[p].root == r)
  {
    hide State.Inv, State.LeafPte;
    forall v: nat ensures m.LeafPte(r, v) == 0 { assert UserAt(m, r, 0, map[], v); }
    forall p | p in m.owner ensures !(m.owner[p].Leaf? && m.owner[p].root == r) { assert LeafBelow(m, r, 0, p); }
  }

  /** uvmfree (kernel/vm.c:287-293). */
  method Uvmfree(k: Memory, r: nat, sz: nat)
    requires UserOk(k.V(), r, PgUp(sz), map[])
    modifies k
    ensures Returned(old(k.V()), k.V(), r)
  {
    hide State.Inv, State.LeafPte, Up, Pruned, Doomed, Returned, UserAt, Unmapped, OwnedLeaf, LeafSame;
    ghost var m := k.V();
    UserOwned(m, r, PgUp(sz), map[]);
    UnmappedNone(m, r, 0);
    if sz > 0 {
      k.Uvmunmap(r, 0, PgUp(sz), true);
      ShrunkUser(m, k.V(), r, 0, PgUp(sz), map[]);
    }
    ghost var m1 := k.V();
    UserNone(m1, r);
    DetachInv(m1, r);
    DetachLeaves(m1, r);
    DetachDoomed(m1, r);
    k.owner, k.trees := m1.Detach(r).owner, m1.Detach(r).trees;
    assert k.V() == m1.Detach(r);
    Freewalk(k, r, Root, m1.trees[r], Places(m1, r));
    PrunedReturned(m1, k.V(), r);
    UnmappedReturned(m, m1, k.V(), r, PgUp(sz));
  }
}
