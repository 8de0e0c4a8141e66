/** A process's page table from creation to release (kernel/proc.c), and the boot of the page
    allocator (kernel/kalloc.c). */
module ProcVm {
  import opened PageState
  import opened Vm
  import opened UserVm
  import opened FreeTree

  const TRAMPOLINE: nat := MAXVA - PGSIZE
  const TRAPFRAME: nat := TRAMPOLINE - PGSIZE
  const USYSCALL: nat := TRAPFRAME - PGSIZE

  /** The entries above the user pages: trampoline, trapframe and the shared page. */
  function Extras(trampoline: nat, trapframe: nat, usyscall: nat): map<nat, nat> {
    map[TRAMPOLINE / PGSIZE := MakePte(trampoline, PTE_R + PTE_X),
        TRAPFRAME / PGSIZE := MakePte(trapframe, PTE_R + PTE_W),
        USYSCALL / PGSIZE := MakePte(usyscall, PTE_R + PTE_U)]
  }

  ghost predicate CreatedAt(m: State, m': State, r: nat, q: nat) {
    && q in m.mem && q in m.owner && q in m'.mem && q in m'.owner
    && if m.owner[q].InFree? then m'.owner[q].InFree? || (m'.owner[q].Node? && m'.owner[q].root == r)
       else m'.owner[q] == m.owner[q] && m'.mem[q] == m.mem[q]
  }

  /** From `m` to `m'` the tree `r` is new, made of free pages, and nothing else changed. */
  ghost predicate Created(m: State, m': State, r: nat) {
    && m.Inv() && m'.Inv() && r !in m.trees && r in m'.trees && m'.trees.Keys == m.trees.Keys + {r}
    && m'.mem.Keys == m.mem.Keys
    && (forall s | s in m.trees :: m'.trees[s] == m.trees[s])
    && (forall q | q in m.mem :: CreatedAt(m, m', r, q))
    && (forall s, v: nat | s in m.trees :: LeafSame(m, m', s, v))
  }

  ghost predicate RestoredAt(m: State, m': State, q: nat) {
    && q in m.mem && q in m.owner && q in m'.mem && q in m'.owner
    && if m.owner[q].InFree? then m'.owner[q].InFree? else m'.owner[q] == m.owner[q] && m'.mem[q] == m.mem[q]
  }

  /** `m'` is `m` up to the order of the free list. */
  ghost predicate Restored(m: State, m': State) {
    && m.Inv() && m'.Inv() && m'.trees == m.trees && m'.mem.Keys == m.mem.Keys
    && (forall q | q in m.mem :: RestoredAt(m, m', q))
    && (forall s, v: nat | s in m.trees :: LeafSame(m, m', s, v))
  }

  lemma NewTreeCreated(m: State)
    requires m.Inv() && m.free != []
    ensures var r := m.Top();
            r in m.mem && m.Pop().Inv() && Created(m, m.Pop().NewTree(r), r) && UserOk(m.Pop().NewTree(r), r, 0, map[])
  {
    hide State.Inv, State.LeafPte, UserOk, SameTrees;
    NewTreeFacts(m);
    var r := m.Top();
    var m' := m.Pop().NewTree(r);
    forall q | q in m.mem ensures CreatedAt(m, m', r, q) {}
    NewTreeLeaves(m);
    NewTreeUser(m.Pop(), r);
  }

  lemma NewTreeFacts(m: State)
    requires m.Inv() && m.free != []
    ensures m.owner.Keys == m.mem.Keys && m.Top() in m.mem && m.owner[m.Top()].InFree? && m.Top() !in m.trees
    ensures m.Pop().Inv() && SameTrees(m, m.Pop()) && m.Pop().NewTree(m.Top()).Inv()
  {
    PopInv(m);
    NewTreeInv(m.Pop(), m.Top());
  }

  lemma NewTreeLeaves(m: State)
    requires m.Inv() && m.free != [] && m.Pop().Inv() && SameTrees(m, m.Pop())
    requires m.Top() in m.mem && m.Pop().NewTree(m.Top()).Inv()
    ensures forall s, v: nat | s in m.trees :: LeafSame(m, m.Pop().NewTree(m.Top()), s, v)
  {
    SameTreesOk(m, m.Pop());
    NewTreeInv(m.Pop(), m.Top());
    hide State.Inv, State.TreesOk, State.LeafPte;
    forall s, v: nat | s in m.trees ensures LeafSame(m, m.Pop().NewTree(m.Top()), s, v) {}
  }

  lemma NewTreeUser(m: State, r: nat)
    requires m.Inv() && r in m.mem && m.owner[r] == Held
    ensures UserOk(m.NewTree(r), r, 0, map[])
  {
    NewTreeInv(m, r);
    var m' := m.NewTree(r);
    forall v: nat ensures UserAt(m', r, 0, map[], v) {}
    forall p | p in m'.owner ensures LeafBelow(m', r, 0, p) { assert p in m.owner && m.PageAt(p); }
  }

  lemma CreatedKept(m: State, m1: State, m2: State, r: nat)
    requires Created(m, m1, r) && Kept(m1, m2, r)
    ensures Created(m, m2, r)
  {
    hide State.Inv, State.LeafPte;
    forall q | q in m.mem ensures CreatedAt(m, m2, r, q) {
      assert CreatedAt(m, m1, r, q) && KeptAt(m1, m2, r, q);
      NoOwner(m, r, q);
    }
    forall s, v: nat | s in m.trees ensures LeafSame(m, m2, s, v) {
      assert LeafSame(m, m1, s, v) && LeafSame(m1, m2, s, v);
    }
  }

  lemma NoOwner(m: State, r: nat, q: nat)
    requires m.Inv() && r !in m.trees && q in m.owner
    ensures !((m.owner[q].Node? || m.owner[q].Leaf?) && m.owner[q].root == r)
  {
    assert m.PageAt(q);
  }

  lemma CreatedUnmapped(m: State, m1: State, m2: State, r: nat, a: nat)
    requires Created(m, m1, r) && Unmapped(m1, m2, r, a, 1)
    ensures Created(m, m2, r)
  {
    hide State.Inv, State.LeafPte;
    forall q | q in m.mem ensures CreatedAt(m, m2, r, q) {
      assert CreatedAt(m, m1, r, q) && FreedAt(m1, m2, r, a, 1, q);
      NoOwner(m, r, q);
    }
    forall s, v: nat | s in m.trees ensures LeafSame(m, m2, s, v) {
      assert LeafSame(m, m1, s, v) && LeafSame(m1, m2, s, v);
    }
  }

  /** A new tree given back leaves everything as it was. */
  lemma CreatedReturned(m: State, m1: State, m2: State, r: nat)
    requires Created(m, m1, r) && Returned(m1, m2, r)
    ensures Restored(m, m2)
  {
    hide State.Inv, State.LeafPte;
    forall q | q in m.mem ensures RestoredAt(m, m2, q) {
      assert CreatedAt(m, m1, r, q) && ReturnedAt(m1, m2, r, q);
      NoOwner(m, r, q);
    }
    forall s, v: nat | s in m.trees ensures LeafSame(m, m2, s, v) {
      assert LeafSame(m, m1, s, v) && LeafSame(m1, m2, s, v);
    }
  }

  /** Mapping a page that is not the tree's, above the user pages. */
  lemma MapExtra(m: State, m': State, r: nat, n: nat, k: nat, extra: map<nat, nat>, v: nat, ppn: nat, perm: nat)
    requires UserOk(m, r, n, extra) && Kept(m, m', r) && v >= n && v !in extra && perm < 1024 && k <= 1
    requires r in m'.trees && Mapped(m, m', r, v, k, ppn, perm)
    ensures UserOk(m', r, n, if k == 1 then extra[v := MakePte(ppn, perm)] else extra)
  {
    hide State.Inv, State.LeafPte, IsValid;
    KeptFacts(m, m', r);
    var extra' := if k == 1 then extra[v := MakePte(ppn, perm)] else extra;
    forall w: nat ensures UserAt(m', r, n, extra', w) {
      assert UserAt(m, r, n, extra, w) && MappedAt(m, m', r, v, k, ppn, perm, w);
      if w < n { assert KeptAt(m, m', r, Ppn(m.LeafPte(r, w))); }
    }
    forall p | p in m'.owner ensures LeafBelow(m', r, n, p) { assert KeptAt(m, m', r, p) && LeafBelow(m, r, n, p); }
  }

  lemma ExtraLent(m: State, r: nat, n: nat, extra: map<nat, nat>, v: nat)
    requires UserOk(m, r, n, extra) && n <= v < MAXVPN && v in extra && IsValid(extra[v]) && extra[v] % 1024 != 1
    ensures LentLeaf(m, r, v) && m.LeafPte(r, v) == extra[v]
  {
    hide State.Inv, State.LeafPte;
    assert UserAt(m, r, n, extra, v);
    forall p | p in m.owner ensures m.owner[p] != Leaf(r, v) { assert LeafBelow(m, r, n, p); }
  }

  lemma UnmapExtra(m: State, m': State, r: nat, n: nat, extra: map<nat, nat>, v: nat)
    requires UserOk(m, r, n, extra) && Unmapped(m, m', r, v, 1) && n <= v
    ensures UserOk(m', r, n, extra - {v})
  {
    hide State.Inv, State.LeafPte, IsValid;
    UnmappedKeys(m, m', r, v, 1);
    var less := extra - {v};
    forall w: nat ensures UserAt(m', r, n, less, w) {
      assert UserAt(m, r, n, extra, w) && ClearedAt(m, m', r, v, 1, w);
      if w < n { assert FreedAt(m, m', r, v, 1, Ppn(m.LeafPte(r, w))); }
    }
    forall p | p in m'.owner ensures LeafBelow(m', r, n, p) {
      assert FreedAt(m, m', r, v, 1, p) && LeafBelow(m, r, n, p);
    }
  }

  /** uvmcreate (kernel/vm.c:192-201) fails exactly when there is no free page. */
  method Uvmcreate(k: Memory) returns (r: nat)
    requires k.Valid()
    modifies k
    ensures r == 0 <==> old(k.free) == []
    ensures r == 0 ==> k.V() == old(k.V())
    ensures r != 0 ==> Created(old(k.V()), k.V(), r) && UserOk(k.V(), r, 0, map[])
    ensures r != 0 ==> r in k.trees && k.trees[r].Keys == {Root} && |old(k.free)| == |k.free| + 1
  {
    hide State.Inv, Created, UserOk;
    ghost var m := k.V();
    r := k.Kalloc();
    if r != 0 {
      NewTreeCreated(m);
      k.mem := k.mem[r := Table(seq(512, _ => 0))];
      k.owner := k.owner[r := Node(r, Root)];
      ghost var tree: map<Key, nat> := map[Root := r];
      k.trees := k.trees[r := tree];
      assert k.V() == m.Pop().NewTree(r);
    }
  }

  lemma CreatedFacts(m: State, m': State, r: nat)
    requires Created(m, m', r)
    ensures m.Inv() && m'.Inv() && r !in m.trees && r in m'.trees
  {
  }

  /** One mapping of proc_pagetable; without memory no translation changes. */
  method MapTop(k: Memory, r: nat, va: nat, ppn: nat, perm: nat, ghost m0: State, ghost extra: map<nat, nat>)
    returns (ok: bool)
    requires Created(m0, k.V(), r) && UserOk(k.V(), r, 0, extra) && va % PGSIZE == 0 && va + PGSIZE <= MAXVA
    requires va / PGSIZE !in extra && perm < 1024
    modifies k
    ensures Created(m0, k.V(), r)
    ensures UserOk(k.V(), r, 0, if ok then extra[va / PGSIZE := MakePte(ppn, perm)] else extra)
    ensures r in old(k.trees) && (ok <==> |old(k.free)| >= Missing(old(k.trees)[r].Keys, 0, va / PGSIZE))
    ensures ok ==> r in k.trees && k.trees[r].Keys == old(k.trees)[r].Keys + Path(0, va / PGSIZE)
    ensures ok ==> |old(k.free)| == |k.free| + Missing(old(k.trees)[r].Keys, 0, va / PGSIZE)
  {
    hide State.Inv, Created, Kept, Mapped, State.LeafPte, UserOk, Missing, Path, KeysTo, Tables;
    ghost var m := k.V();
    CreatedFacts(m0, m, r);
    UserEnds(m, r, extra, va / PGSIZE);
    OneMore(m.trees[r].Keys, va / PGSIZE);
    assert (va + PGSIZE - 1) / PGSIZE == va / PGSIZE && ppn * PGSIZE / PGSIZE == ppn;
    ghost var n;
    ok, n := k.Mappages(r, va, PGSIZE, ppn * PGSIZE, perm);
    MapExtra(m, k.V(), r, 0, n, extra, va / PGSIZE, ppn, perm);
    CreatedKept(m0, m, k.V(), r);
  }

  lemma UserEnds(m: State, r: nat, extra: map<nat, nat>, v: nat)
    requires UserOk(m, r, 0, extra) && v !in extra
    ensures m.Inv() && r in m.trees && m.LeafPte(r, v) == 0
  {
    hide State.Inv, State.LeafPte;
    assert UserAt(m, r, 0, extra, v);
  }

  /** uvmunmap of one page that is not the tree's. */
  method UnmapTop(k: Memory, r: nat, va: nat, ghost n: nat, ghost extra: map<nat, nat>)
    requires UserOk(k.V(), r, n, extra) && va % PGSIZE == 0 && n <= va / PGSIZE < MAXVPN && va / PGSIZE in extra
    requires IsValid(extra[va / PGSIZE]) && extra[va / PGSIZE] % 1024 != 1
    modifies k
    ensures Unmapped(old(k.V()), k.V(), r, va / PGSIZE, 1) && UserOk(k.V(), r, n, extra - {va / PGSIZE})
  {
    hide State.Inv, State.LeafPte, UserOk, Unmapped, LentLeaf, IsValid;
    ghost var m := k.V();
    UserRoot(m, r, n, extra);
    ExtraLent(m, r, n, extra, va / PGSIZE);
    k.Uvmunmap(r, va, 1, false);
    UnmapExtra(m, k.V(), r, n, extra, va / PGSIZE);
  }

  lemma UserRoot(m: State, r: nat, n: nat, extra: map<nat, nat>)
    requires UserOk(m, r, n, extra)
    ensures m.Inv() && r in m.trees
  {
  }

  /** The three top pages share their page-table pages: two besides the root. */
  lemma TopTables()
    ensures var k0, k1 := {Root}, {Root} + Path(0, TRAMPOLINE / PGSIZE);
            var k2 := k1 + Path(0, TRAPFRAME / PGSIZE);
            Missing(k0, 0, TRAMPOLINE / PGSIZE) + Missing(k1, 0, TRAPFRAME / PGSIZE)
              + Missing(k2, 0, USYSCALL / PGSIZE) == 2
  {
    var a, b, c := TRAMPOLINE / PGSIZE, TRAPFRAME / PGSIZE, USYSCALL / PGSIZE;
    assert KeyFor(0, a) == KeyFor(0, b) == KeyFor(0, c) && KeyFor(1, a) == KeyFor(1, b) == KeyFor(1, c);
    assert KeyFor(0, a) != Root && KeyFor(1, a) != Root;
    assert KeyFor(0, a) in Path(0, a) && KeyFor(1, a) in Path(1, a);
  }

  /** proc_pagetable (kernel/proc.c:179-216): a tree with no user pages and the three pages above, or,
      exactly when there are fewer than three free pages, everything as it was. */
  method ProcPagetable(k: Memory, trampoline: nat, trapframe: nat, usyscall: nat) returns (r: nat)
    requires k.Valid()
    modifies k
    ensures r == 0 ==> Restored(old(k.V()), k.V())
    ensures r != 0 ==> Created(old(k.V()), k.V(), r) && UserOk(k.V(), r, 0, Extras(trampoline, trapframe, usyscall))
    ensures r == 0 <==> |old(k.free)| < 3
    ensures r != 0 ==> r in k.trees && k.V().LeafPte(r, MAXVPN - 1) == trampoline * 1024 + (PTE_V + PTE_R + PTE_X)
    ensures r != 0 ==> k.V().LeafPte(r, MAXVPN - 2) == trapframe * 1024 + (PTE_V + PTE_R + PTE_W)
    ensures r != 0 ==> k.V().LeafPte(r, MAXVPN - 3) == usyscall * 1024 + (PTE_V + PTE_R + PTE_U)
    ensures r != 0 ==> forall v: nat | v < MAXVPN - 3 || v >= MAXVPN :: k.V().LeafPte(r, v) == 0
  {
    hide State.Inv, Created, UserOk, Unmapped, State.LeafPte, Restored, Returned, Missing, Path, KeyFor;
    TopTables();
    ghost var m0 := k.V();
    r := Uvmcreate(k);
    if r == 0 {
      RestoredRefl(m0);
      return;
    }
    ghost var none: map<nat, nat> := map[];
    var ok := MapTop(k, r, TRAMPOLINE, trampoline, PTE_R + PTE_X, m0, none);
    if !ok {
      GiveBack(k, r, m0);
      return 0;
    }
    ghost var one: map<nat, nat> := map[TRAMPOLINE / PGSIZE := MakePte(trampoline, PTE_R + PTE_X)];
    assert one == none[TRAMPOLINE / PGSIZE := MakePte(trampoline, PTE_R + PTE_X)];
    ok := MapTop(k, r, TRAPFRAME, trapframe, PTE_R + PTE_W, m0, one);
    if !ok {
      UnmapTopOf(k, r, TRAMPOLINE, m0, one);
      assert one - {TRAMPOLINE / PGSIZE} == none;
      GiveBack(k, r, m0);
      return 0;
    }
    ghost var two := one[TRAPFRAME / PGSIZE := MakePte(trapframe, PTE_R + PTE_W)];
    ok := MapTop(k, r, USYSCALL, usyscall, PTE_R + PTE_U, m0, two);
    if !ok {
      UnmapTopOf(k, r, TRAMPOLINE, m0, two);
      UnmapTopOf(k, r, TRAPFRAME, m0, two - {TRAMPOLINE / PGSIZE});
      assert two - {TRAMPOLINE / PGSIZE} - {TRAPFRAME / PGSIZE} == none;
      GiveBack(k, r, m0);
      return 0;
    }
    assert two[USYSCALL / PGSIZE := MakePte(usyscall, PTE_R + PTE_U)] == Extras(trampoline, trapframe, usyscall);
    TopEntries(k.V(), r, 0, trampoline, trapframe, usyscall);
  }

  /** What the three entries above the user pages are, and that there are no others. */
  lemma TopEntries(m: State, r: nat, n: nat, trampoline: nat, trapframe: nat, usyscall: nat)
    requires UserOk(m, r, n, Extras(trampoline, trapframe, usyscall)) && n <= MAXVPN - 3
    ensures r in m.trees && m.LeafPte(r, MAXVPN - 1) == trampoline * 1024 + (PTE_V + PTE_R + PTE_X)
    ensures m.LeafPte(r, MAXVPN - 2) == trapframe * 1024 + (PTE_V + PTE_R + PTE_W)
    ensures m.LeafPte(r, MAXVPN - 3) == usyscall * 1024 + (PTE_V + PTE_R + PTE_U)
    ensures forall v: nat | n <= v < MAXVPN - 3 || v >= MAXVPN :: m.LeafPte(r, v) == 0
  {
    hide State.Inv, State.LeafPte;
    var extra := Extras(trampoline, trapframe, usyscall);
    assert TRAMPOLINE / PGSIZE == MAXVPN - 1 && TRAPFRAME / PGSIZE == MAXVPN - 2 && USYSCALL / PGSIZE == MAXVPN - 3;
    assert UserAt(m, r, n, extra, MAXVPN - 1) && UserAt(m, r, n, extra, MAXVPN - 2);
    assert UserAt(m, r, n, extra, MAXVPN - 3);
    forall v: nat | n <= v < MAXVPN - 3 || v >= MAXVPN ensures m.LeafPte(r, v) == 0 {
      assert UserAt(m, r, n, extra, v);
    }
  }

  lemma RestoredRefl(m: State)
    requires m.Inv()
    ensures Restored(m, m)
  {
    forall q | q in m.mem ensures RestoredAt(m, m, q) {}
    forall s, v: nat | s in m.trees ensures LeafSame(m, m, s, v) {}
  }

  method GiveBack(k: Memory, r: nat, ghost m0: State)
    requires Created(m0, k.V(), r) && UserOk(k.V(), r, 0, map[])
    modifies k
    ensures Restored(m0, k.V())
  {
    hide State.Inv, Created, UserOk, Restored, Returned;
    ghost var m := k.V();
    Uvmfree(k, r, 0);
    CreatedReturned(m0, m, k.V(), r);
  }

  method UnmapTopOf(k: Memory, r: nat, va: nat, ghost m0: State, ghost extra: map<nat, nat>)
    requires Created(m0, k.V(), r) && UserOk(k.V(), r, 0, extra) && va % PGSIZE == 0 && va < MAXVA
    requires va / PGSIZE in extra
    requires IsValid(extra[va / PGSIZE]) && extra[va / PGSIZE] % 1024 != 1
    modifies k
    ensures Created(m0, k.V(), r) && UserOk(k.V(), r, 0, extra - {va / PGSIZE})
  {
    hide State.Inv, Created, UserOk, Unmapped;
    ghost var m := k.V();
    UnmapTop(k, r, va, 0, extra);
    CreatedUnmapped(m0, m, k.V(), r, va / PGSIZE);
  }

  /** proc_freepagetable (kernel/proc.c:220-227) gives back exactly what the tree owned. */
  method ProcFreepagetable(k: Memory, r: nat, sz: nat, ghost trampoline: nat, ghost trapframe: nat, ghost usyscall: nat)
    requires UserOk(k.V(), r, PgUp(sz), Extras(trampoline, trapframe, usyscall)) && PgUp(sz) <= USYSCALL / PGSIZE
    modifies k
    ensures Returned(old(k.V()), k.V(), r)
  {
    hide State.Inv, UserOk, Unmapped, State.LeafPte, Returned;
    ghost var m0, n := k.V(), PgUp(sz);
    ghost var three := Extras(trampoline, trapframe, usyscall);
    UnmapTop(k, r, TRAMPOLINE, n, three);
    ghost var m1 := k.V();
    UnmapTop(k, r, TRAPFRAME, n, three - {TRAMPOLINE / PGSIZE});
    ghost var m2 := k.V();
    UnmapTop(k, r, USYSCALL, n, three - {TRAMPOLINE / PGSIZE} - {TRAPFRAME / PGSIZE});
    ghost var m3 := k.V();
    ghost var none: map<nat, nat> := map[];
    assert three - {TRAMPOLINE / PGSIZE} - {TRAPFRAME / PGSIZE} - {USYSCALL / PGSIZE} == none;
    Uvmfree(k, r, sz);
    LentReturned(m2, m3, k.V(), r, USYSCALL / PGSIZE);
    LentReturned(m1, m2, k.V(), r, TRAPFRAME / PGSIZE);
    LentReturned(m0, m1, k.V(), r, TRAMPOLINE / PGSIZE);
  }

  lemma LentReturned(m: State, m1: State, m2: State, r: nat, v: nat)
    requires Unmapped(m, m1, r, v, 1) && Returned(m1, m2, r)
    ensures Returned(m, m2, r)
  {
    hide State.Inv, State.LeafPte;
    UnmappedKeys(m, m1, r, v, 1);
    forall q | q in m.mem ensures ReturnedAt(m, m2, r, q) {
      assert FreedAt(m, m1, r, v, 1, q) && ReturnedAt(m1, m2, r, q);
    }
    forall s, w: nat | s in m.trees && s != r ensures LeafSame(m, m2, s, w) {
      assert LeafSame(m, m1, s, w) && LeafSame(m1, m2, s, w);
    }
  }
}
