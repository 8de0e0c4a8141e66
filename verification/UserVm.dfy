/** User memory: uvmalloc, uvmdealloc and uvmcopy (kernel/vm.c) and growproc (kernel/proc.c).

    A process's tree maps its user pages [0, PGROUNDUP(sz)) to pages it owns, and a few pages near
    the top of the address space to pages it does not own. `extra` holds the entries of those. */
module UserVm {
  import opened PageState
  import opened Vm

  const PTE_V: nat := 1
  const PTE_R: nat := 2
  const PTE_W: nat := 4
  const PTE_X: nat := 8
  const PTE_U: nat := 16

  function ZeroPage(): (page: Page)
    ensures IsData(page) && forall i: nat | i < PGSIZE :: page.bytes[i] == 0
  {
    Data(seq(PGSIZE, _ => 0))
  }

  ghost predicate UserAt(m: State, r: nat, n: nat, extra: map<nat, nat>, v: nat)
    requires r in m.trees
  {
    if v < n then OwnedLeaf(m, r, v) else m.LeafPte(r, v) == (if v in extra then extra[v] else 0)
  }

  ghost predicate LeafBelow(m: State, r: nat, n: nat, p: nat) {
    p in m.owner && m.owner[p].Leaf? && m.owner[p].root == r ==> m.owner[p].vpn < n
  }

  /** The user pages of tree `r` are exactly [0, n), each with a physical page of its own. */
  ghost predicate UserOk(m: State, r: nat, n: nat, extra: map<nat, nat>) {
    && m.Inv() && r in m.trees
    && (forall v: nat :: UserAt(m, r, n, extra, v))
    && (forall p | p in m.owner :: LeafBelow(m, r, n, p))
  }

  /** Pages that work on the user pages from `n` on may use. */
  ghost predicate Mine(o: Owner, r: nat, n: nat) {
    o.InFree? || (o.Node? && o.root == r) || (o.Leaf? && o.root == r && o.vpn >= n)
  }

  ghost predicate WithinAt(m: State, m': State, r: nat, n: nat, p: nat) {
    && p in m.mem && p in m.owner && p in m'.mem && p in m'.owner
    && if Mine(m.owner[p], r, n) then Mine(m'.owner[p], r, n)
       else m'.owner[p] == m.owner[p] && m'.mem[p] == m.mem[p]
  }

  /** From `m` to `m'` only the free list and the tree `r` from page `n` on changed. */
  ghost predicate Within(m: State, m': State, r: nat, n: nat) {
    && m.Inv() && m'.Inv()
    && r in m.trees && m'.trees.Keys == m.trees.Keys && m'.mem.Keys == m.mem.Keys
    && (forall s | s in m.trees && s != r :: m'.trees[s] == m.trees[s])
    && (forall p | p in m.mem :: WithinAt(m, m', r, n, p))
    && (forall s, v: nat | s in m.trees && s != r :: LeafSame(m, m', s, v))
  }

  lemma WithinRefl(m: State, r: nat, n: nat)
    requires m.Inv() && r in m.trees
    ensures Within(m, m, r, n)
  {
    assert m.owner.Keys == m.mem.Keys;
    hide State.Inv, State.LeafPte;
    forall p | p in m.mem ensures WithinAt(m, m, r, n, p) {}
    forall s, v: nat | s in m.trees ensures LeafSame(m, m, s, v) {}
  }

  /** A later step may also start at a higher page. */
  lemma WithinTrans(m: State, m1: State, m2: State, r: nat, n: nat, k: nat)
    requires Within(m, m1, r, n) && Within(m1, m2, r, k) && n <= k
    ensures Within(m, m2, r, n)
  {
    hide State.Inv, State.LeafPte;
    forall p | p in m.mem ensures WithinAt(m, m2, r, n, p) {
      assert WithinAt(m, m1, r, n, p) && WithinAt(m1, m2, r, k, p);
    }
    forall s, v: nat | s in m.trees && s != r ensures LeafSame(m, m2, s, v) {
      assert LeafSame(m, m1, s, v) && LeafSame(m1, m2, s, v);
    }
  }

  lemma UnmappedWithin(m: State, m': State, r: nat, a: nat, n: nat)
    requires Unmapped(m, m', r, a, n)
    ensures Within(m, m', r, a)
  {
    hide State.Inv, State.LeafPte;
    forall p | p in m.mem ensures WithinAt(m, m', r, a, p) { assert FreedAt(m, m', r, a, n, p); }
  }

  /** Taking a page, filling it, and mapping it at the end of the user pages. */
  lemma MapFreshSetup(m: State, r: nat, page: Page)
    requires m.Inv() && m.free != [] && r in m.trees && IsData(page)
    ensures m.owner.Keys == m.mem.Keys && m.Top() in m.mem && m.owner[m.Top()].InFree?
    ensures var m2 := m.Pop().Fill(m.Top(), page);
            && m2.Inv() && m2.trees == m.trees && m2.mem.Keys == m.mem.Keys && m2.owner == m.owner[m.Top() := Held]
            && m2.mem == m.mem[m.Top() := page]
            && (forall s, v: nat | s in m.trees :: LeafSame(m, m2, s, v))
  {
    PopInv(m);
    var m2 := m.Pop().Fill(m.Top(), page);
    FillInv(m.Pop(), m.Top(), page);
    FreeLeafSame(m, m.Pop(), m2);
  }

  /** The pages after mappages has worked on the tree. */
  lemma MapFreshWithin(m: State, m2: State, m3: State, m': State, r: nat, a: nat, p: nat)
    requires m.Inv() && r in m.trees && m.owner.Keys == m.mem.Keys && p in m.mem && m.owner[p].InFree?
    requires m2.trees == m.trees && m2.mem.Keys == m.mem.Keys && m2.owner == m.owner[p := Held]
    requires forall q | q in m.mem && q != p :: m2.mem[q] == m.mem[q]
    requires forall s, v: nat | s in m.trees :: LeafSame(m, m2, s, v)
    requires Kept(m2, m3, r) && m'.Inv() && SameTrees(m3, m') && m'.mem.Keys == m3.mem.Keys
    requires forall q | q in m3.mem && q != p :: m'.mem[q] == m3.mem[q] && q in m'.owner && m'.owner[q] == m3.owner[q]
    requires p in m'.owner && Mine(m'.owner[p], r, a)
    ensures Within(m, m', r, a)
    ensures forall v: nat :: m'.LeafPte(r, v) == m3.LeafPte(r, v)
  {
    hide State.Inv, State.LeafPte, SameTrees, State.TreesOk;
    MapFreshLeaves(m3, m');
    forall q | q in m.mem ensures WithinAt(m, m', r, a, q) { assert KeptAt(m2, m3, r, q); }
    forall s, v: nat | s in m.trees && s != r ensures LeafSame(m, m', s, v) {
      assert LeafSame(m, m2, s, v) && LeafSame(m2, m3, s, v) && LeafSame(m3, m', s, v);
    }
    forall v: nat ensures m'.LeafPte(r, v) == m3.LeafPte(r, v) { assert LeafSame(m3, m', r, v); }
  }

  lemma MapFreshLeaves(m3: State, m': State)
    requires m3.Inv() && SameTrees(m3, m')
    ensures m'.trees == m3.trees
    ensures forall s, v: nat | s in m3.trees :: LeafSame(m3, m', s, v)
  {
    SameTreesOk(m3, m');
    forall s, v: nat | s in m3.trees ensures LeafSame(m3, m', s, v) {}
  }

  /** After a failed mappages the page goes back and the user pages are as before. */
  lemma MapFreshUndo(m: State, m3: State, r: nat, a: nat, page: Page, extra: map<nat, nat>)
    requires UserOk(m, r, a, extra) && m.free != [] && IsData(page) && m.Top() in m.mem
    requires Kept(m.Pop().Fill(m.Top(), page), m3, r) && r in m3.trees && SameLeaves(m.Pop().Fill(m.Top(), page), m3, r)
    ensures m.Top() in m3.mem && m.Top() in m3.owner && m3.owner[m.Top()] == Held
    ensures var m' := m3.Push(m.Top());
            Within(m, m', r, a) && r in m'.trees && SameLeaves(m, m', r) && UserOk(m', r, a, extra)
  {
    hide State.Inv, State.LeafPte, State.TreesOk, SameTrees, SameLeaves, UserAt, LeafSame;
    var p := m.Top();
    var m2 := m.Pop().Fill(p, page);
    MapFreshSetup(m, r, page);
    KeptFacts(m2, m3, r);
    assert KeptAt(m2, m3, r, p);
    var m' := m3.Push(p);
    PushInv(m3, p);
    forall q | q in m'.owner ensures LeafBelow(m', r, a, q) { assert KeptAt(m2, m3, r, q) && LeafBelow(m, r, a, q); }
    MapFreshWithin(m, m2, m3, m', r, a, p);
    MapFreshSame(m, m2, m3, m', r);
    WithinUser(m, m', r, a, extra);
  }

  lemma MapFreshSame(m: State, m2: State, m3: State, m': State, r: nat)
    requires r in m.trees && r in m2.trees && r in m3.trees && r in m'.trees
    requires forall s, v: nat | s in m.trees && s in m2.trees :: LeafSame(m, m2, s, v)
    requires SameLeaves(m2, m3, r) && forall v: nat :: m'.LeafPte(r, v) == m3.LeafPte(r, v)
    ensures SameLeaves(m, m', r)
  {
    hide State.LeafPte;
    forall v: nat ensures LeafSame(m, m', r, v) { assert LeafSame(m, m2, r, v) && LeafSame(m2, m3, r, v); }
  }

  /** The user pages survive work above them that leaves no new translation behind. */
  lemma WithinUser(m: State, m': State, r: nat, a: nat, extra: map<nat, nat>)
    requires UserOk(m, r, a, extra) && Within(m, m', r, a) && r in m'.trees && SameLeaves(m, m', r)
    requires forall p | p in m'.owner :: LeafBelow(m', r, a, p)
    ensures UserOk(m', r, a, extra)
  {
    hide State.Inv, State.LeafPte, IsValid;
    forall v: nat ensures UserAt(m', r, a, extra, v) {
      assert UserAt(m, r, a, extra, v) && LeafSame(m, m', r, v);
      if v < a { assert WithinAt(m, m', r, a, Ppn(m.LeafPte(r, v))); }
    }
  }

  ghost predicate AddedAt(m: State, m': State, r: nat, a: nat, perm: nat, page: Page, v: nat)
    requires r in m.trees && r in m'.trees
  {
    if v == a then OwnedLeaf(m', r, a) && m'.LeafPte(r, a) % 1024 == perm && m'.mem[Ppn(m'.LeafPte(r, a))] == page
    else m'.LeafPte(r, v) == m.LeafPte(r, v)
  }

  /** From `m` to `m'` the tree got the user page `a`, with the flags `perm` and the contents `page`. */
  ghost predicate Added(m: State, m': State, r: nat, a: nat, perm: nat, page: Page) {
    Within(m, m', r, a) && r in m'.trees && forall v: nat :: AddedAt(m, m', r, a, perm, page, v)
  }

  lemma HasTable(m: State, r: nat, v: nat)
    requires r in m.trees && IsValid(m.LeafPte(r, v))
    ensures Key(0, v / ENTRIES) in m.trees[r]
  {
  }

  /** A page mapped by mappages becomes the tree's. */
  lemma MapFreshDone(m: State, m3: State, r: nat, a: nat, perm: nat, page: Page, extra: map<nat, nat>)
    requires UserOk(m, r, a, extra) && m.free != [] && IsData(page) && m.Top() in m.mem
    requires a < MAXVPN && a !in extra && 1 < perm < 1024
    requires Kept(m.Pop().Fill(m.Top(), page), m3, r) && r in m3.trees
    requires Mapped(m.Pop().Fill(m.Top(), page), m3, r, a, 1, m.Top(), perm)
    ensures var m' := m3.Give(m.Top(), Leaf(r, a));
            Added(m, m', r, a, WithV(perm), page) && UserOk(m', r, a + 1, extra)
  {
    hide State.Inv, State.LeafPte, State.TreesOk, SameTrees, UserAt, LeafSame, IsData, Mapped, IsValid;
    var p := m.Top();
    var m2 := m.Pop().Fill(p, page);
    MapFreshSetup(m, r, page);
    KeptFacts(m2, m3, r);
    assert KeptAt(m2, m3, r, p);
    MappedLeaf(m2, m3, r, a, p, perm);
    HasTable(m3, r, a);
    var m' := m3.Give(p, Leaf(r, a));
    OwnInv(m3, r, a, p);
    MapFreshWithin(m, m2, m3, m', r, a, p);
    forall q | q in m'.owner ensures LeafBelow(m', r, a + 1, q) {
      assert KeptAt(m2, m3, r, q) && LeafBelow(m, r, a, q);
    }
    MapFreshAdded(m, m2, m3, m', r, a, WithV(perm), page, p);
    AddedUser(m, m', r, a, WithV(perm), page, extra);
  }

  lemma MappedLeaf(m2: State, m3: State, r: nat, a: nat, p: nat, perm: nat)
    requires r in m2.trees && r in m3.trees && perm < 1024 && Mapped(m2, m3, r, a, 1, p, perm)
    ensures m3.LeafPte(r, a) == p * 1024 + WithV(perm) && IsValid(m3.LeafPte(r, a)) && Ppn(m3.LeafPte(r, a)) == p
    ensures forall v: nat | v != a :: m3.LeafPte(r, v) == m2.LeafPte(r, v)
  {
    hide State.LeafPte;
    assert MappedAt(m2, m3, r, a, 1, p, perm, a);
    forall v: nat | v != a ensures m3.LeafPte(r, v) == m2.LeafPte(r, v) {
      assert MappedAt(m2, m3, r, a, 1, p, perm, v);
    }
  }

  lemma MapFreshAdded(m: State, m2: State, m3: State, m': State, r: nat, a: nat, perm: nat, page: Page, p: nat)
    requires Within(m, m', r, a) && r in m2.trees && r in m3.trees && r in m'.trees
    requires forall s, v: nat | s in m.trees && s in m2.trees :: LeafSame(m, m2, s, v)
    requires m3.LeafPte(r, a) == p * 1024 + perm && forall v: nat | v != a :: m3.LeafPte(r, v) == m2.LeafPte(r, v)
    requires forall v: nat :: m'.LeafPte(r, v) == m3.LeafPte(r, v)
    requires a < MAXVPN && perm < 1024 && perm % 2 == 1 && perm != 1
    requires p in m'.mem && p in m'.owner && m'.owner[p] == Leaf(r, a) && m'.mem[p] == page
    ensures Added(m, m', r, a, perm, page)
  {
    hide State.LeafPte, State.Inv, Within, Ppn, IsValid;
    WithinRoot(m, m', r, a);
    PteArith(p, perm);
    PteFields(p, perm);
    forall v: nat ensures AddedAt(m, m', r, a, perm, page, v) { assert LeafSame(m, m2, r, v); }
  }

  lemma PteFields(p: nat, flags: nat)
    requires flags < 1024 && flags % 2 == 1
    ensures IsValid(p * 1024 + flags) && Ppn(p * 1024 + flags) == p
  {
    PteArith(p, flags);
  }

  lemma WithinRoot(m: State, m': State, r: nat, a: nat)
    requires Within(m, m', r, a)
    ensures r in m.trees && r in m'.trees && m.Inv() && m'.Inv()
  {
  }

  lemma AddedUser(m: State, m': State, r: nat, a: nat, perm: nat, page: Page, extra: map<nat, nat>)
    requires UserOk(m, r, a, extra) && Added(m, m', r, a, perm, page) && a !in extra
    requires forall p | p in m'.owner :: LeafBelow(m', r, a + 1, p)
    ensures UserOk(m', r, a + 1, extra)
  {
    hide State.Inv, State.LeafPte, IsValid;
    var b := a + 1;
    forall v: nat ensures UserAt(m', r, b, extra, v) {
      assert UserAt(m, r, a, extra, v) && AddedAt(m, m', r, a, perm, page, v);
      if v < a { assert WithinAt(m, m', r, a, Ppn(m.LeafPte(r, v))); }
    }
  }

  /** A page is allocated, filled and mapped after the last user page; if page-table pages run out it
      is freed again (kernel/vm.c:232-242, kernel/vm.c:316-322). */
  method MapFresh(k: Memory, r: nat, a: nat, perm: nat, page: Page, ghost extra: map<nat, nat>) returns (ok: bool)
    requires UserOk(k.V(), r, a, extra) && a < MAXVPN && a !in extra
    requires IsData(page) && 1 < perm < 1024
    modifies k
    ensures ok ==> Added(old(k.V()), k.V(), r, a, WithV(perm), page) && UserOk(k.V(), r, a + 1, extra)
    ensures !ok ==> Within(old(k.V()), k.V(), r, a) && r in k.trees && r in old(k.trees)
    ensures !ok ==> SameLeaves(old(k.V()), k.V(), r)
    ensures !ok ==> UserOk(k.V(), r, a, extra)
    ensures r in old(k.trees) && (ok <==> |old(k.free)| >= 1 + Missing(old(k.trees)[r].Keys, 0, a))
    ensures ok ==> Spent(old(k.V()), k.V(), r, a, a + 1, 1)
  {
    hide State.Inv, UserAt, Within, Kept, Mapped, Added, SameLeaves, State.LeafPte, IsData,
         Missing, KeysTo, Tables, LeafBelow;
    ghost var m := k.V();
    UserEnd(m, r, a, extra);
    OneMore(m.trees[r].Keys, a);
    var p := k.Kalloc();
    if p == 0 {
      WithinRefl(m, r, a);
      KeptRefl(m, r);
      return false;
    }
    MapFreshSetup(m, r, page);
    k.mem := k.mem[p := page];
    ghost var m2 := k.V();
    assert m2 == m.Pop().Fill(p, page);
    assert LeafSame(m, m2, r, a) && a * PGSIZE / PGSIZE == a == (a * PGSIZE + PGSIZE - 1) / PGSIZE;
    var done, n := k.Mappages(r, a * PGSIZE, PGSIZE, p * PGSIZE, perm);
    ghost var m3 := k.V();
    if !done {
      MappedZero(m2, m3, r, a, p, perm);
      MapFreshUndo(m, m3, r, a, page, extra);
      k.Kfree(p);
      return false;
    }
    MapFreshDone(m, m3, r, a, perm, page, extra);
    k.owner := k.owner[p := Leaf(r, a)];
    return true;
  }

  lemma UserEnd(m: State, r: nat, a: nat, extra: map<nat, nat>)
    requires UserOk(m, r, a, extra) && a !in extra
    ensures m.Inv() && r in m.trees && m.LeafPte(r, a) == 0
  {
    hide State.Inv, State.LeafPte;
    assert UserAt(m, r, a, extra, a);
  }

  lemma MappedZero(m: State, m': State, r: nat, a: nat, ppn: nat, perm: nat)
    requires r in m.trees && r in m'.trees && perm < 1024 && Mapped(m, m', r, a, 0, ppn, perm)
    ensures SameLeaves(m, m', r)
  {
    hide State.LeafPte;
    forall v: nat ensures LeafSame(m, m', r, v) { assert MappedAt(m, m', r, a, 0, ppn, perm, v); }
  }

  ghost predicate GrownAt(m: State, m': State, r: nat, a: nat, b: nat, v: nat)
    requires r in m.trees && r in m'.trees
  {
    if a <= v < b then
      OwnedLeaf(m', r, v) && m'.LeafPte(r, v) % 1024 == 31 && m'.mem[Ppn(m'.LeafPte(r, v))] == ZeroPage()
    else m'.LeafPte(r, v) == m.LeafPte(r, v)
  }

  /** From `m` to `m'` the tree got the zeroed user pages [a, b), readable, writable and executable. */
  ghost predicate Grown(m: State, m': State, r: nat, a: nat, b: nat) {
    Within(m, m', r, a) && r in m'.trees && forall v: nat :: GrownAt(m, m', r, a, b, v)
  }

  lemma GrownNone(m: State, r: nat, a: nat, b: nat)
    requires m.Inv() && r in m.trees && b <= a
    ensures Grown(m, m, r, a, b)
  {
    WithinRefl(m, r, a);
    forall v: nat ensures GrownAt(m, m, r, a, b, v) {}
  }

  lemma GrownStep(m: State, m1: State, m2: State, r: nat, a: nat, b: nat)
    requires Grown(m, m1, r, a, b) && Added(m1, m2, r, b, 31, ZeroPage()) && a <= b
    ensures Grown(m, m2, r, a, b + 1)
  {
    hide State.Inv, State.LeafPte, IsValid;
    WithinTrans(m, m1, m2, r, a, b);
    var c := b + 1;
    forall v: nat ensures GrownAt(m, m2, r, a, c, v) {
      assert GrownAt(m, m1, r, a, b, v) && AddedAt(m1, m2, r, b, 31, ZeroPage(), v);
      if a <= v < b { assert WithinAt(m1, m2, r, b, Ppn(m1.LeafPte(r, v))); }
    }
  }

  /** Unmapping what was added leaves every translation as it was. */
  lemma GrownUndo(m: State, m1: State, m2: State, m3: State, r: nat, a: nat, b: nat, extra: map<nat, nat>)
    requires UserOk(m, r, a, extra) && Grown(m, m1, r, a, b) && a <= b && forall v | v in extra :: v >= b
    requires Within(m1, m2, r, b) && r in m2.trees && SameLeaves(m1, m2, r) && UserOk(m2, r, b, extra)
    requires Unmapped(m2, m3, r, a, b - a)
    ensures Within(m, m3, r, a) && r in m3.trees && SameLeaves(m, m3, r) && UserOk(m3, r, a, extra)
  {
    hide State.Inv, State.LeafPte, IsValid;
    WithinTrans(m, m1, m2, r, a, b);
    UnmappedWithin(m2, m3, r, a, b - a);
    WithinTrans(m, m2, m3, r, a, a);
    forall v: nat ensures LeafSame(m, m3, r, v) {
      assert GrownAt(m, m1, r, a, b, v) && LeafSame(m1, m2, r, v) && ClearedAt(m2, m3, r, a, b - a, v);
      assert UserAt(m, r, a, extra, v);
    }
    UnmappedBelow(m2, m3, r, a, b, extra);
    WithinUser(m, m3, r, a, extra);
  }

  lemma UnmappedBelow(m: State, m': State, r: nat, a: nat, b: nat, extra: map<nat, nat>)
    requires a <= b && UserOk(m, r, b, extra) && Unmapped(m, m', r, a, b - a)
    ensures forall p | p in m'.owner :: LeafBelow(m', r, a, p)
  {
    hide State.Inv, State.LeafPte, UserAt;
    UnmappedKeys(m, m', r, a, b - a);
    forall p | p in m'.owner ensures LeafBelow(m', r, a, p) {
      assert FreedAt(m, m', r, a, b - a, p) && LeafBelow(m, r, b, p);
    }
  }

  lemma UnmappedKeys(m: State, m': State, r: nat, a: nat, n: nat)
    requires Unmapped(m, m', r, a, n)
    ensures m'.Inv() && r in m.trees && r in m'.trees
    ensures m.owner.Keys == m.mem.Keys == m'.mem.Keys == m'.owner.Keys
  {
  }

  /** The user pages after the last of them are unmapped. */
  lemma ShrunkUser(m: State, m': State, r: nat, a: nat, b: nat, extra: map<nat, nat>)
    requires a <= b && UserOk(m, r, b, extra) && Unmapped(m, m', r, a, b - a) && forall v | v in extra :: v >= b
    ensures UserOk(m', r, a, extra)
  {
    hide State.Inv, State.LeafPte, IsValid;
    UnmappedBelow(m, m', r, a, b, extra);
    forall v: nat ensures UserAt(m', r, a, extra, v) {
      assert UserAt(m, r, b, extra, v) && ClearedAt(m, m', r, a, b - a, v);
      if v < a { assert FreedAt(m, m', r, a, b - a, Ppn(m.LeafPte(r, v))); }
    }
  }

  /** uvmdealloc (kernel/vm.c:251-263): the user pages become exactly [0, PGROUNDUP(newsz)) and the
      physical pages of the others are freed; with newsz >= oldsz nothing happens. */
  method Uvmdealloc(k: Memory, r: nat, oldsz: nat, newsz: nat, ghost extra: map<nat, nat>) returns (sz: nat)
    requires UserOk(k.V(), r, PgUp(oldsz), extra) && forall v | v in extra :: v >= PgUp(oldsz)
    modifies k
    ensures sz == if newsz < oldsz then newsz else oldsz
    ensures UserOk(k.V(), r, PgUp(sz), extra)
    ensures if newsz < oldsz then Unmapped(old(k.V()), k.V(), r, PgUp(newsz), PgUp(oldsz) - PgUp(newsz))
            else k.V() == old(k.V())
  {
    hide State.Inv, UserAt, Unmapped, State.LeafPte, OwnedLeaf;
    if newsz >= oldsz {
      return oldsz;
    }
    ghost var m := k.V();
    UnmappedNone(m, r, PgUp(newsz));
    if PgUp(newsz) < PgUp(oldsz) {
      var npages := PgUp(oldsz) - PgUp(newsz);
      UserOwned(m, r, PgUp(oldsz), extra);
      k.Uvmunmap(r, PgUp(newsz) * PGSIZE, npages, true);
      ShrunkUser(m, k.V(), r, PgUp(newsz), PgUp(oldsz), extra);
    }
    sz := newsz;
  }

  lemma UserOwned(m: State, r: nat, n: nat, extra: map<nat, nat>)
    requires UserOk(m, r, n, extra)
    ensures m.Inv() && r in m.trees && forall v: nat | v < n :: OwnedLeaf(m, r, v)
  {
    forall v: nat | v < n ensures OwnedLeaf(m, r, v) { assert UserAt(m, r, n, extra, v); }
  }

  /** The free pages it takes to give a tree of the page-table pages `keys` the user pages [a, b): one
      for each, and the page-table pages that are missing for them. */
  function Needed(keys: set<Key>, a: nat, b: nat): nat {
    (if b <= a then 0 else b - a) + Tables(keys, a, b)
  }

  lemma NeededFails(m: State, m1: State, r: nat, a: nat, b: nat, c: nat)
    requires a <= b < c && Spent(m, m1, r, a, b, b - a) && |m1.free| < 1 + Missing(m1.trees[r].Keys, 0, b)
    ensures r in m.trees && |m.free| < Needed(m.trees[r].Keys, a, c)
  {
    TablesGrow(m.trees[r].Keys, a, b + 1, c);
  }

  lemma PgUpReached(newsz: nat, n: nat, first: nat, oldsz: nat)
    requires first == PgUp(oldsz) <= n && n * PGSIZE >= newsz >= oldsz && (n == first || n <= PgUp(newsz))
    ensures n == PgUp(newsz)
  {
  }

  /** uvmalloc (kernel/vm.c:221-245): the user pages grow to [0, PGROUNDUP(newsz)) with zeroed pages, or,
      exactly when the free pages are too few for them and their page-table pages, every translation
      is as before. */
  method Uvmalloc(k: Memory, r: nat, oldsz: nat, newsz: nat, ghost extra: map<nat, nat>) returns (sz: nat)
    requires UserOk(k.V(), r, PgUp(oldsz), extra) && newsz <= MAXVA
    requires forall v | v in extra :: v >= PgUp(newsz) && v >= PgUp(oldsz)
    modifies k
    ensures newsz < oldsz ==> sz == oldsz && k.V() == old(k.V())
    ensures newsz >= oldsz ==> sz == newsz || sz == 0
    ensures newsz >= oldsz && sz == newsz > 0 ==> Grown(old(k.V()), k.V(), r, PgUp(oldsz), PgUp(newsz))
    ensures newsz >= oldsz && sz == newsz > 0 ==> UserOk(k.V(), r, PgUp(newsz), extra)
    ensures newsz >= oldsz && sz == 0 ==> UserOk(k.V(), r, PgUp(oldsz), extra)
    ensures newsz >= oldsz && sz == 0 ==> Within(old(k.V()), k.V(), r, PgUp(oldsz)) && r in k.trees && r in old(k.trees)
    ensures newsz >= oldsz && sz == 0 ==> SameLeaves(old(k.V()), k.V(), r)
    ensures r in old(k.trees)
    ensures newsz >= oldsz && newsz > 0 ==>
              (sz == newsz <==> |old(k.free)| >= Needed(old(k.trees)[r].Keys, PgUp(oldsz), PgUp(newsz)))
  {
    hide State.Inv, UserAt, Within, Grown, Added, SameLeaves, Unmapped, State.LeafPte, OwnedLeaf,
         Missing, Spent, LeafBelow;
    if newsz < oldsz {
      return oldsz;
    }
    ghost var m0 := k.V();
    ghost var first := PgUp(oldsz);
    UserOwned(m0, r, first, extra);
    GrownNone(m0, r, first, first);
    WithinRefl(m0, r, first);
    KeptRefl(m0, r);
    SpentNone(m0, r, first);
    var start := PgUp(oldsz) * PGSIZE;
    var a := start;
    ghost var n := first;
    while a < newsz
      invariant first <= n && a == n * PGSIZE && (n == first || n <= PgUp(newsz))
      invariant Grown(m0, k.V(), r, first, n) && UserOk(k.V(), r, n, extra) && (n == first ==> k.V() == m0)
      invariant Spent(m0, k.V(), r, first, n, n - first)
    {
      ghost var m1 := k.V();
      assert n < PgUp(newsz);
      var ok := MapFresh(k, r, a / PGSIZE, PTE_R + PTE_W + PTE_X + PTE_U, ZeroPage(), extra);
      if !ok {
        ghost var m2 := k.V();
        assert PgUp(a) == n && PgUp(start) == first;
        UserOwned(m2, r, n, extra);
        UnmappedNone(m2, r, first);
        var _ := Uvmdealloc(k, r, a, start, extra);
        GrownUndo(m0, m1, m2, k.V(), r, first, n, extra);
        NeededFails(m0, m1, r, first, n, PgUp(newsz));
        return 0;
      }
      SpentStep(m0, m1, k.V(), r, first, n, n - first, 1);
      GrownStep(m0, m1, k.V(), r, first, n);
      a := a + PGSIZE;
      n := n + 1;
    }
    PgUpReached(newsz, n, first, oldsz);
    SpentFacts(m0, k.V(), r, first, n, n - first);
    sz := newsz;
  }

  const WRAP: nat := 0x1_0000_0000

  /** growproc (kernel/proc.c:269-285), whose size is a 32-bit unsigned number: on success it has grown
      by `n` if that is in range, and stays as it is when the sum would wrap either way. After any
      call the user pages are exactly [0, PGROUNDUP(size)), and those that stay keep their contents. It
      fails exactly when it is to grow, the size does not wrap, and there are too few free pages. */
  method Growproc(k: Memory, r: nat, sz: nat, n: int, ghost extra: map<nat, nat>) returns (ret: int, size: nat)
    requires UserOk(k.V(), r, PgUp(sz), extra) && sz < WRAP && -0x8000_0000 <= n < 0x8000_0000
    requires forall v | v in extra :: v >= PgUp(WRAP)
    modifies k
    ensures ret == 0 || (ret == -1 && n > 0)
    ensures ret == 0 ==> size == if 0 <= sz + n < WRAP then sz + n else sz
    ensures ret == -1 ==> size == sz && r in k.trees && r in old(k.trees) && SameLeaves(old(k.V()), k.V(), r)
    ensures UserOk(k.V(), r, PgUp(size), extra)
    ensures Within(old(k.V()), k.V(), r, PgUp(if size < sz then size else sz))
    ensures r in old(k.trees)
    ensures ret == -1 <==>
              n > 0 && sz + n < WRAP && |old(k.free)| < Needed(old(k.trees)[r].Keys, PgUp(sz), PgUp(sz + n))
  {
    hide State.Inv, UserAt, Within, Grown, SameLeaves, Unmapped, State.LeafPte, OwnedLeaf, LeafBelow, Needed;
    ghost var m := k.V();
    UserOwned(m, r, PgUp(sz), extra);
    WithinRefl(m, r, PgUp(sz));
    size := sz;
    if n > 0 {
      var next := (size + n) % WRAP;
      size := Uvmalloc(k, r, size, next, extra);
      if size == 0 {
        return -1, sz;
      }
      if next >= sz { GrownWithin(m, k.V(), r, PgUp(sz), PgUp(next)); }
    } else if n < 0 {
      var next := (size + n) % WRAP;
      size := Uvmdealloc(k, r, size, next, extra);
      if next < sz { UnmappedWithin(m, k.V(), r, PgUp(next), PgUp(sz) - PgUp(next)); }
    }
    ret := 0;
  }

  lemma GrownWithin(m: State, m': State, r: nat, a: nat, b: nat)
    requires Grown(m, m', r, a, b)
    ensures Within(m, m', r, a)
  {
  }

  ghost predicate CopiedAt(m: State, m': State, old_: nat, new_: nat, b: nat, v: nat)
    requires old_ in m.trees && new_ in m.trees && new_ in m'.trees
  {
    if v < b then
      && OwnedLeaf(m, old_, v) && OwnedLeaf(m', new_, v)
      && m'.LeafPte(new_, v) % 1024 == m.LeafPte(old_, v) % 1024
      && m'.mem[Ppn(m'.LeafPte(new_, v))] == m.mem[Ppn(m.LeafPte(old_, v))]
    else m'.LeafPte(new_, v) == m.LeafPte(new_, v)
  }

  /** From `m` to `m'` the tree `new_` got copies of the user pages [0, b) of the tree `old_`. */
  ghost predicate Copied(m: State, m': State, old_: nat, new_: nat, b: nat) {
    Within(m, m', new_, 0) && old_ in m.trees && new_ in m'.trees && forall v: nat :: CopiedAt(m, m', old_, new_, b, v)
  }

  lemma CopiedNone(m: State, old_: nat, new_: nat)
    requires m.Inv() && old_ in m.trees && new_ in m.trees
    ensures Copied(m, m, old_, new_, 0)
  {
    WithinRefl(m, new_, 0);
    forall v: nat ensures CopiedAt(m, m, old_, new_, 0, v) {}
  }

  lemma CopiedStep(m: State, m1: State, m2: State, old_: nat, new_: nat, b: nat, perm: nat, page: Page)
    requires Copied(m, m1, old_, new_, b) && Added(m1, m2, new_, b, perm, page)
    requires OwnedLeaf(m, old_, b) && perm == m.LeafPte(old_, b) % 1024 && page == m.mem[Ppn(m.LeafPte(old_, b))]
    ensures Copied(m, m2, old_, new_, b + 1)
  {
    hide State.Inv, State.LeafPte, IsValid;
    WithinTrans(m, m1, m2, new_, 0, b);
    var c := b + 1;
    forall v: nat ensures CopiedAt(m, m2, old_, new_, c, v) {
      assert CopiedAt(m, m1, old_, new_, b, v) && AddedAt(m1, m2, new_, b, perm, page, v);
      if v < b { assert WithinAt(m1, m2, new_, b, Ppn(m1.LeafPte(new_, v))); }
    }
  }

  /** Work on one tree leaves the user pages of another as they are. */
  lemma OtherUser(m: State, m': State, r: nat, s: nat, n: nat, extra: map<nat, nat>)
    requires UserOk(m, s, n, extra) && Within(m, m', r, 0) && s != r
    ensures UserOk(m', s, n, extra)
    ensures forall v: nat | v < n :: OwnedLeaf(m, s, v) && s in m'.trees && m'.LeafPte(s, v) == m.LeafPte(s, v)
    ensures forall v: nat | v < n ::
              var p := Ppn(m.LeafPte(s, v)); p in m'.mem && m'.mem[p] == m.mem[p]
  {
    hide State.Inv, State.LeafPte, IsValid;
    WithinKeys(m, m', r, 0);
    forall v: nat ensures UserAt(m', s, n, extra, v) {
      assert UserAt(m, s, n, extra, v) && LeafSame(m, m', s, v);
      if v < n { assert WithinAt(m, m', r, 0, Ppn(m.LeafPte(s, v))); }
    }
    forall v: nat | v < n ensures OwnedLeaf(m, s, v) && m'.LeafPte(s, v) == m.LeafPte(s, v)
      ensures Ppn(m.LeafPte(s, v)) in m'.mem && m'.mem[Ppn(m.LeafPte(s, v))] == m.mem[Ppn(m.LeafPte(s, v))]
    {
      assert UserAt(m, s, n, extra, v) && LeafSame(m, m', s, v) && WithinAt(m, m', r, 0, Ppn(m.LeafPte(s, v)));
    }
    forall p | p in m'.owner ensures LeafBelow(m', s, n, p) {
      assert WithinAt(m, m', r, 0, p) && LeafBelow(m, s, n, p);
    }
  }

  lemma WithinKeys(m: State, m': State, r: nat, n: nat)
    requires Within(m, m', r, n)
    ensures m.owner.Keys == m.mem.Keys == m'.mem.Keys == m'.owner.Keys && m'.trees.Keys == m.trees.Keys
  {
  }

  lemma LeafData(m: State, r: nat, v: nat)
    requires m.Inv() && r in m.trees && OwnedLeaf(m, r, v)
    ensures IsData(m.mem[Ppn(m.LeafPte(r, v))]) && 1 < m.LeafPte(r, v) % 1024 == WithV(m.LeafPte(r, v) % 1024)
    ensures v < MAXVPN && Key(0, v / ENTRIES) in m.trees[r]
  {
    assert m.PageAt(Ppn(m.LeafPte(r, v)));
  }

  /** The entry of a mapped user page (kernel/vm.c:310-315). */
  method ReadLeaf(k: Memory, r: nat, va: nat) returns (pte: nat)
    requires k.V().Inv() && r in k.trees && va % PGSIZE == 0 && OwnedLeaf(k.V(), r, va / PGSIZE)
    modifies k
    ensures k.V() == old(k.V()) && pte == k.V().LeafPte(r, va / PGSIZE) && 1 < pte % 1024 == WithV(pte % 1024)
    ensures va < MAXVA && Ppn(pte) in k.mem && IsData(k.mem[Ppn(pte)])
  {
    hide State.Inv, State.LeafPte;
    LeafData(k.V(), r, va / PGSIZE);
    LeafEntry(k.V(), r, va / PGSIZE);
    var found, pt, idx := k.Walk(r, va, false);
    pte := k.mem[pt].ptes[idx];
  }

  lemma CopiedUndo(m: State, m1: State, m2: State, m3: State, old_: nat, new_: nat, b: nat, extra: map<nat, nat>)
    requires UserOk(m, new_, 0, extra) && Copied(m, m1, old_, new_, b) && forall v | v in extra :: v >= b
    requires Within(m1, m2, new_, b) && new_ in m2.trees && SameLeaves(m1, m2, new_) && UserOk(m2, new_, b, extra)
    requires Unmapped(m2, m3, new_, 0, b)
    ensures Within(m, m3, new_, 0) && new_ in m3.trees && SameLeaves(m, m3, new_) && UserOk(m3, new_, 0, extra)
  {
    hide State.Inv, State.LeafPte, IsValid;
    WithinTrans(m, m1, m2, new_, 0, b);
    UnmappedWithin(m2, m3, new_, 0, b);
    WithinTrans(m, m2, m3, new_, 0, 0);
    forall v: nat ensures LeafSame(m, m3, new_, v) {
      assert CopiedAt(m, m1, old_, new_, b, v) && LeafSame(m1, m2, new_, v) && ClearedAt(m2, m3, new_, 0, b, v);
      assert UserAt(m, new_, 0, extra, v);
    }
    UnmappedBelow(m2, m3, new_, 0, b, extra);
    WithinUser(m, m3, new_, 0, extra);
  }

  /** uvmcopy (kernel/vm.c:301-329): the child gets its own copy of every user page with the same
      flags, or, exactly when the free pages are too few for them and their page-table pages, no
      translation more than before: page-table pages made on the way stay in the child's tree. The
      parent's pages and every other tree stay as they are. */
  method Uvmcopy(k: Memory, old_: nat, new_: nat, sz: nat,
                 ghost extraOld: map<nat, nat>, ghost extraNew: map<nat, nat>) returns (ret: int)
    requires old_ != new_ && UserOk(k.V(), old_, PgUp(sz), extraOld) && UserOk(k.V(), new_, 0, extraNew)
    requires forall v | v in extraNew :: v >= PgUp(sz)
    modifies k
    ensures ret == 0 || ret == -1
    ensures Within(old(k.V()), k.V(), new_, 0) && UserOk(k.V(), old_, PgUp(sz), extraOld)
    ensures ret == 0 ==> Copied(old(k.V()), k.V(), old_, new_, PgUp(sz)) && UserOk(k.V(), new_, PgUp(sz), extraNew)
    ensures ret == -1 ==> UserOk(k.V(), new_, 0, extraNew) && new_ in old(k.trees)
    ensures ret == -1 ==> SameLeaves(old(k.V()), k.V(), new_)
    ensures new_ in old(k.trees) && (ret == 0 <==> |old(k.free)| >= Needed(old(k.trees)[new_].Keys, 0, PgUp(sz)))
  {
    hide State.Inv, UserAt, Within, Added, SameLeaves, Unmapped, State.LeafPte, OwnedLeaf, LeafBelow,
         Copied, IsData, LeafSame;
    hide Missing, Spent;
    ghost var m0 := k.V();
    UserOwned(m0, old_, PgUp(sz), extraOld);
    CopiedNone(m0, old_, new_);
    SpentNone(m0, new_, 0);
    var i := 0;
    ghost var n := 0;
    while i < sz
      invariant n <= PgUp(sz) && i == n * PGSIZE
      invariant Copied(m0, k.V(), old_, new_, n) && UserOk(k.V(), new_, n, extraNew)
      invariant Spent(m0, k.V(), new_, 0, n, n)
    {
      ghost var m1 := k.V();
      CopiedWithin(m0, m1, old_, new_, n);
      OtherUser(m0, m1, new_, old_, PgUp(sz), extraOld);
      UserOwned(m1, old_, PgUp(sz), extraOld);
      var pte := ReadLeaf(k, old_, i);
      var ok := MapFresh(k, new_, i / PGSIZE, pte % 1024, k.mem[Ppn(pte)], extraNew);
      if !ok {
        ghost var m2 := k.V();
        UserOwned(m2, new_, n, extraNew);
        k.Uvmunmap(new_, 0, i / PGSIZE, true);
        CopiedUndo(m0, m1, m2, k.V(), old_, new_, n, extraNew);
        OtherUser(m0, k.V(), new_, old_, PgUp(sz), extraOld);
        NeededFails(m0, m1, new_, 0, n, PgUp(sz));
        return -1;
      }
      SpentStep(m0, m1, k.V(), new_, 0, n, n, 1);
      CopiedStep(m0, m1, k.V(), old_, new_, n, pte % 1024, m0.mem[Ppn(pte)]);
      i := i + PGSIZE;
      n := n + 1;
    }
    CopiedWithin(m0, k.V(), old_, new_, n);
    OtherUser(m0, k.V(), new_, old_, PgUp(sz), extraOld);
    SpentFacts(m0, k.V(), new_, 0, n, n);
    ret := 0;
  }

  lemma CopiedWithin(m: State, m': State, old_: nat, new_: nat, b: nat)
    requires Copied(m, m', old_, new_, b)
    ensures Within(m, m', new_, 0)
  {
  }
}
