/** The pages of a process: allocproc and freeproc (kernel/proc.c:99-175). Nothing is lost on any failure path, and
    what a process got is exactly what it gives back. */
module ProcPages {
  import opened PageState
  import opened Vm
  import opened UserVm
  import opened FreeTree
  import opened ProcVm
  import opened Bits
  import CopyUser

  /** The memory of struct proc; 0 is the null pointer. */
  class Proc {
    var trapframe: nat
    var usyscall: nat
    var pagetable: nat
    var sz: nat

    constructor ()
      ensures trapframe == 0 && usyscall == 0 && pagetable == 0 && sz == 0
    {
      trapframe, usyscall, pagetable, sz := 0, 0, 0, 0;
    }
  }

  /** The pages a tree owns. */
  ghost function OwnedBy(m: State, r: nat): set<nat> {
    set q | q in m.owner && (m.owner[q].Node? || m.owner[q].Leaf?) && m.owner[q].root == r
  }

  ghost function NonNull(p: nat): set<nat> { if p == 0 then {} else {p} }

  /** All pages of a process. */
  ghost function PagesOf(m: State, tf: nat, us: nat, r: nat): set<nat> {
    NonNull(tf) + NonNull(us) + (if r == 0 then {} else OwnedBy(m, r))
  }

  ghost predicate FreedOne(m: State, m': State, pages: set<nat>, q: nat) {
    && q in m.mem && q in m.owner && q in m'.mem && q in m'.owner
    && if q in pages || m.owner[q].InFree? then m'.owner[q].InFree?
       else m'.owner[q] == m.owner[q] && m'.mem[q] == m.mem[q]
  }

  /** From `m` to `m'` exactly the pages `pages` were freed and the trees `roots` went. */
  ghost predicate Freed(m: State, m': State, pages: set<nat>, roots: set<nat>) {
    && m.Inv() && m'.Inv() && m'.mem.Keys == m.mem.Keys && m'.trees == m.trees - roots
    && (forall q | q in m.mem :: FreedOne(m, m', pages, q))
    && (forall s, v: nat | s in m'.trees :: LeafSame(m, m', s, v))
  }

  ghost predicate MadeOne(m: State, m': State, pages: set<nat>, q: nat) {
    && q in m.mem && q in m.owner && q in m'.mem && q in m'.owner
    && if m.owner[q].InFree? then m'.owner[q].InFree? <==> q !in pages
       else q !in pages && m'.owner[q] == m.owner[q] && m'.mem[q] == m.mem[q]
  }

  /** From `m` to `m'` exactly the pages `pages` were taken off the free list and the trees `roots` came. */
  ghost predicate Made(m: State, m': State, pages: set<nat>, roots: set<nat>) {
    && m.Inv() && m'.Inv() && m'.mem.Keys == m.mem.Keys && m.trees == m'.trees - roots
    && (forall q | q in m.mem :: MadeOne(m, m', pages, q))
    && (forall s, v: nat | s in m.trees :: LeafSame(m, m', s, v))
  }

  lemma FreedTrans(m: State, m1: State, m2: State, a: set<nat>, b: set<nat>, r: set<nat>, s: set<nat>)
    requires Freed(m, m1, a, r) && Freed(m1, m2, b, s)
    ensures Freed(m, m2, a + b, r + s)
  {
    hide State.Inv, State.LeafPte;
    forall q | q in m.mem ensures FreedOne(m, m2, a + b, q) { assert FreedOne(m, m1, a, q) && FreedOne(m1, m2, b, q); }
    forall t, v: nat | t in m2.trees ensures LeafSame(m, m2, t, v) {
      assert LeafSame(m, m1, t, v) && LeafSame(m1, m2, t, v);
    }
  }

  lemma MadeTrans(m: State, m1: State, m2: State, a: set<nat>, b: set<nat>, r: set<nat>, s: set<nat>)
    requires Made(m, m1, a, r) && Made(m1, m2, b, s)
    ensures Made(m, m2, a + b, r + s)
  {
    hide State.Inv, State.LeafPte;
    forall q | q in m.mem ensures MadeOne(m, m2, a + b, q) { assert MadeOne(m, m1, a, q) && MadeOne(m1, m2, b, q); }
    forall t, v: nat | t in m.trees ensures LeafSame(m, m2, t, v) {
      assert LeafSame(m, m1, t, v) && LeafSame(m1, m2, t, v);
    }
  }

  /** What was made and is freed again leaves physical memory as it was. */
  lemma MadeFreed(m: State, m1: State, m2: State, pages: set<nat>, roots: set<nat>)
    requires Made(m, m1, pages, roots) && Freed(m1, m2, pages, roots)
    ensures Restored(m, m2)
  {
    hide State.Inv, State.LeafPte;
    forall q | q in m.mem ensures RestoredAt(m, m2, q) {
      assert MadeOne(m, m1, pages, q) && FreedOne(m1, m2, pages, q);
    }
    forall s, v: nat | s in m.trees ensures LeafSame(m, m2, s, v) {
      assert LeafSame(m, m1, s, v) && LeafSame(m1, m2, s, v);
    }
  }

  lemma RestoredFreed(m: State, m': State)
    requires Restored(m, m')
    ensures Freed(m, m', {}, {})
  {
    hide State.Inv, State.LeafPte;
    forall q | q in m.mem ensures FreedOne(m, m', {}, q) { assert RestoredAt(m, m', q); }
    assert m.trees - {} == m.trees;
  }

  lemma FreedNothing(m: State)
    requires m.Inv()
    ensures Freed(m, m, {}, {})
  {
    RestoredRefl(m);
    RestoredFreed(m, m);
  }

  lemma PushFreed(m: State, p: nat)
    requires m.Inv() && p in m.mem && m.owner[p] == Held
    ensures Freed(m, m.Push(p), {p}, {})
  {
    PushLeaves(m, p);
    hide State.Inv, State.LeafPte;
    FreePagesCount(m);
    forall q | q in m.mem ensures FreedOne(m, m.Push(p), {p}, q) {}
    assert m.trees - {} == m.trees;
  }

  lemma ReturnedFreed(m: State, m': State, r: nat)
    requires Returned(m, m', r)
    ensures Freed(m, m', OwnedBy(m, r), {r})
  {
    hide State.Inv, State.LeafPte;
    FreePagesCount(m);
    forall q | q in m.mem ensures FreedOne(m, m', OwnedBy(m, r), q) { assert ReturnedAt(m, m', r, q); }
  }

  lemma PopMade(m: State)
    requires m.Inv() && m.free != []
    ensures Made(m, m.Pop(), {m.Top()}, {}) && m.Top() != 0
  {
    PopInv(m);
    MapFreshLeaves(m, m.Pop());
    hide State.Inv, State.LeafPte;
    FreePagesCount(m);
    forall q | q in m.mem ensures MadeOne(m, m.Pop(), {m.Top()}, q) {}
    assert m.Pop().trees - {} == m.trees;
  }

  lemma CreatedMade(m: State, m': State, r: nat)
    requires Created(m, m', r)
    ensures Made(m, m', OwnedBy(m', r), {r})
  {
    hide State.Inv, State.LeafPte;
    FreePagesCount(m);
    FreePagesCount(m');
    forall q | q in m.mem ensures MadeOne(m, m', OwnedBy(m', r), q) { assert CreatedAt(m, m', r, q); NoOwner(m, r, q); }
    assert m'.trees - {r} == m.trees;
  }

  /** What the fields of a struct proc refer to: two pages of its own, and a tree of user pages with the three
      mappings above them. */
  ghost predicate ProcOk(m: State, tf: nat, us: nat, r: nat, sz: nat, trampoline: nat) {
    && m.Inv() && HeldOrNull(m, tf) && HeldOrNull(m, us) && (tf != 0 ==> tf != us)
    && (r != 0 ==> UserOk(m, r, PgUp(sz), Extras(trampoline, tf, us)) && PgUp(sz) <= USYSCALL / PGSIZE)
  }

  ghost predicate HeldOrNull(m: State, p: nat) { p != 0 ==> p in m.mem && p in m.owner && m.owner[p] == Held }

  /** A page that only maps into a tree may be freed before the tree is. */
  lemma PushUser(m: State, p: nat, r: nat, n: nat, extra: map<nat, nat>)
    requires UserOk(m, r, n, extra) && p in m.mem && m.owner[p] == Held
    ensures UserOk(m.Push(p), r, n, extra)
  {
    hide State.Inv, State.LeafPte;
    var m' := m.Push(p);
    PushLeaves(m, p);
    FreePagesCount(m);
    forall v: nat ensures UserAt(m', r, n, extra, v) { assert UserAt(m, r, n, extra, v) && LeafSame(m, m', r, v); }
    forall q | q in m'.owner ensures LeafBelow(m', r, n, q) { assert LeafBelow(m, r, n, q); }
  }

  lemma PushOwned(m: State, p: nat, r: nat)
    requires m.Inv() && p in m.mem && m.owner[p] == Held
    ensures OwnedBy(m.Push(p), r) == OwnedBy(m, r)
  {
    FreePagesCount(m);
  }

  /** kfree of a page of the process, if there is one. */
  method FreeOne(k: Memory, p: nat)
    requires k.Valid() && HeldOrNull(k.V(), p)
    modifies k
    ensures Freed(old(k.V()), k.V(), NonNull(p), {}) && k.V() == if p == 0 then old(k.V()) else old(k.V()).Push(p)
  {
    hide State.Inv, Freed;
    FreedNothing(k.V());
    if p != 0 {
      PushFreed(k.V(), p);
      k.Kfree(p);
    }
  }

  /** freeproc (kernel/proc.c:151-175): exactly the pages of the process are freed. */
  method Freeproc(k: Memory, p: Proc, ghost trampoline: nat)
    requires ProcOk(k.V(), p.trapframe, p.usyscall, p.pagetable, p.sz, trampoline)
    modifies k, p
    ensures p.trapframe == p.usyscall == p.pagetable == p.sz == 0
    ensures Freed(old(k.V()), k.V(), PagesOf(old(k.V()), old(p.trapframe), old(p.usyscall), old(p.pagetable)),
            NonNull(old(p.pagetable)))
  {
    hide State.Inv, Freed, UserOk, OwnedBy, Extras;
    ghost var m, tf, us, r := k.V(), p.trapframe, p.usyscall, p.pagetable;
    FreeOne(k, p.trapframe);
    ghost var m1 := k.V();
    if tf != 0 {
      AfterPush(m, tf, us, r, p.sz, trampoline);
    }
    p.trapframe := 0;
    if p.pagetable != 0 {
      ProcFreepagetable(k, p.pagetable, p.sz, trampoline, tf, us);
      ReturnedFreed(m1, k.V(), r);
      HeldStays(m1, k.V(), r, us);
    } else {
      FreedNothing(m1);
    }
    ghost var m2 := k.V();
    FreedTrans(m, m1, m2, NonNull(tf), if r == 0 then {} else OwnedBy(m1, r), {}, NonNull(r));
    FreedInv(m, m2);
    FreeOne(k, p.usyscall);
    FreedTrans(m, m2, k.V(), NonNull(tf) + (if r == 0 then {} else OwnedBy(m1, r)), NonNull(us), {} + NonNull(r), {});
    assert NonNull(tf) + (if r == 0 then {} else OwnedBy(m, r)) + NonNull(us) == PagesOf(m, tf, us, r);
    assert {} + NonNull(r) + {} == NonNull(r);
    p.usyscall, p.pagetable, p.sz := 0, 0, 0;
  }

  lemma AfterPush(m: State, tf: nat, us: nat, r: nat, sz: nat, trampoline: nat)
    requires ProcOk(m, tf, us, r, sz, trampoline) && tf != 0
    ensures HeldOrNull(m.Push(tf), us) && m.Push(tf).Inv() && (r != 0 ==> OwnedBy(m.Push(tf), r) == OwnedBy(m, r))
    ensures r != 0 ==> UserOk(m.Push(tf), r, PgUp(sz), Extras(trampoline, tf, us))
  {
    hide State.Inv, UserOk, OwnedBy, Extras;
    PushInv(m, tf);
    if r != 0 {
      PushUser(m, tf, r, PgUp(sz), Extras(trampoline, tf, us));
      PushOwned(m, tf, r);
    }
  }

  lemma HeldStays(m: State, m': State, r: nat, p: nat)
    requires Returned(m, m', r) && HeldOrNull(m, p)
    ensures HeldOrNull(m', p)
  {
    hide State.Inv, State.LeafPte;
    assert p != 0 ==> ReturnedAt(m, m', r, p);
  }

  lemma FreedInv(m: State, m': State)
    ensures forall pages, roots :: Freed(m, m', pages, roots) ==> m'.Inv()
  {
  }

  /** The page shared with user code, as allocproc leaves it: the pid over the fives that kalloc fills
      pages with (kernel/kalloc.c:80, kernel/proc.c:133). */
  function SharedPage(pid: nat): (page: Page)
    ensures IsData(page) && page.bytes[..4] == Bytes4(pid)
  {
    Data(Bytes4(pid) + seq(PGSIZE - 4, _ => 5))
  }

  lemma FillMade(m: State, m': State, p: nat, page: Page, pages: set<nat>)
    requires Made(m, m', pages, {}) && p in pages && p in m'.mem && p in m'.owner && m'.owner[p] == Held
    ensures Made(m, m'.Fill(p, page), pages, {}) && m'.Fill(p, page).Inv()
  {
    FillLeaves(m', p, page);
    hide State.Inv, State.LeafPte;
    var m2 := m'.Fill(p, page);
    forall q | q in m.mem ensures MadeOne(m, m2, pages, q) { assert MadeOne(m, m', pages, q); }
    forall s, v: nat | s in m.trees ensures LeafSame(m, m2, s, v) {
      assert LeafSame(m, m', s, v) && LeafSame(m', m2, s, v);
    }
  }

  /** allocproc's two kalloc calls, and the pid in the shared page (kernel/proc.c:122-133). */
  method TakeTwo(k: Memory, p: Proc, pid: nat) returns (ok: bool)
    requires k.Valid() && p.trapframe == p.usyscall == 0
    modifies k, p`trapframe, p`usyscall
    ensures Made(old(k.V()), k.V(), NonNull(p.trapframe) + NonNull(p.usyscall), {})
    ensures ProcOk(k.V(), p.trapframe, p.usyscall, 0, 0, 0) && (ok <==> p.trapframe != 0 && p.usyscall != 0)
    ensures (ok <==> |old(k.free)| >= 2) && (ok ==> |old(k.free)| == |k.free| + 2)
    ensures ok ==> p.usyscall in k.mem && k.mem[p.usyscall] == SharedPage(pid)
  {
    hide State.Inv, Made;
    ghost var m := k.V();
    MadeNothing(m);
    p.trapframe := k.Kalloc();
    if p.trapframe == 0 {
      assert NonNull(0) + NonNull(0) == NonNull(0);
      return false;
    }
    PopMade(m);
    PopHeld(m);
    ghost var m1 := k.V();
    MadeNothing(m1);
    p.usyscall := k.Kalloc();
    if p.usyscall != 0 {
      PopMade(m1);
      PopHeld(m1);
    }
    ghost var none: set<nat> := {};
    MadeTrans(m, m1, k.V(), {p.trapframe}, NonNull(p.usyscall), none, none);
    assert none + none == none;
    if p.usyscall == 0 {
      return false;
    }
    FillMade(m, k.V(), p.usyscall, SharedPage(pid), NonNull(p.trapframe) + NonNull(p.usyscall));
    k.mem := k.mem[p.usyscall := SharedPage(pid)];
    ok := true;
  }

  lemma MadeNothing(m: State)
    requires m.Inv()
    ensures Made(m, m, {}, {})
  {
    hide State.LeafPte;
    FreePagesCount(m);
    forall q | q in m.mem ensures MadeOne(m, m, {}, q) {}
    forall s, v: nat | s in m.trees ensures LeafSame(m, m, s, v) {}
    assert m.trees - {} == m.trees;
  }

  /** The page taken is held, and so are those held before. */
  lemma PopHeld(m: State)
    requires m.Inv() && m.free != []
    ensures m.Pop().Inv() && HeldOrNull(m.Pop(), m.Top()) && forall p | p in m.mem && p in m.owner
            && m.owner[p] == Held :: p != m.Top() && HeldOrNull(m.Pop(), p)
  {
    PopInv(m);
    FreePagesCount(m);
  }

  /** freeproc on allocproc's failure paths. */
  method GiveUp(k: Memory, p: Proc, ghost m: State, ghost m2: State)
    requires Made(m, m2, NonNull(p.trapframe) + NonNull(p.usyscall), {}) && Freed(m2, k.V(), {}, {})
    requires p.pagetable == 0 && ProcOk(m2, p.trapframe, p.usyscall, 0, 0, 0)
    modifies k, p
    ensures Restored(m, k.V()) && p.trapframe == p.usyscall == p.pagetable == p.sz == 0
  {
    hide State.Inv, Freed, Made, Restored;
    ghost var m3, tf, us := k.V(), p.trapframe, p.usyscall;
    FreedInv(m2, m3);
    FreedHeld(m2, m3, tf);
    FreedHeld(m2, m3, us);
    Freeproc(k, p, 0);
    var none: set<nat> := {};
    assert PagesOf(m3, tf, us, 0) == NonNull(tf) + NonNull(us);
    FreedTrans(m2, m3, k.V(), {}, PagesOf(m3, tf, us, 0), {}, NonNull(0));
    assert {} + PagesOf(m3, tf, us, 0) == PagesOf(m3, tf, us, 0) && {} + NonNull(0) == none;
    MadeFreed(m, m2, k.V(), NonNull(tf) + NonNull(us), {});
  }

  lemma FreedHeld(m: State, m': State, p: nat)
    requires Freed(m, m', {}, {}) && HeldOrNull(m, p)
    ensures HeldOrNull(m', p)
  {
    assert p != 0 ==> FreedOne(m, m', {}, p);
  }

  lemma CreatedHeld(m: State, m': State, r: nat, p: nat)
    requires Created(m, m', r) && HeldOrNull(m, p)
    ensures HeldOrNull(m', p) && m'.Inv() && (p != 0 ==> p in m.mem && p in m'.mem && m'.mem[p] == m.mem[p])
  {
    hide State.Inv;
    assert p != 0 ==> CreatedAt(m, m', r, p);
  }

  /** allocproc (kernel/proc.c:99-149), once a slot and its pid are found: the process has two pages and a tree of its
      own, made of free pages, or, exactly when there are fewer than five, everything is as it was. */
  method Allocproc(k: Memory, p: Proc, pid: nat, trampoline: nat) returns (ok: bool)
    requires k.Valid() && p.trapframe == p.usyscall == p.pagetable == p.sz == 0
    modifies k, p
    ensures !ok ==> Restored(old(k.V()), k.V()) && p.trapframe == p.usyscall == p.pagetable == p.sz == 0
    ensures ok ==> p.sz == 0 && ProcOk(k.V(), p.trapframe, p.usyscall, p.pagetable, 0, trampoline)
    ensures ok ==> p.trapframe != 0 && p.usyscall != 0 && p.pagetable != 0
    ensures ok ==> Made(old(k.V()), k.V(), PagesOf(k.V(), p.trapframe, p.usyscall, p.pagetable), {p.pagetable})
    ensures ok <==> |old(k.free)| >= 5
    ensures ok ==> p.usyscall in k.mem && k.mem[p.usyscall] == SharedPage(pid) && p.pagetable in k.trees
    ensures ok ==> k.V().LeafPte(p.pagetable, MAXVPN - 1) == trampoline * 1024 + (PTE_V + PTE_R + PTE_X)
    ensures ok ==> k.V().LeafPte(p.pagetable, MAXVPN - 2) == p.trapframe * 1024 + (PTE_V + PTE_R + PTE_W)
    ensures ok ==> k.V().LeafPte(p.pagetable, MAXVPN - 3) == p.usyscall * 1024 + (PTE_V + PTE_R + PTE_U)
    ensures ok ==> forall v: nat | v < MAXVPN - 3 || v >= MAXVPN :: k.V().LeafPte(p.pagetable, v) == 0
  {
    hide State.Inv, Freed, Made, Created, UserOk, OwnedBy, Restored, Extras, HeldOrNull, SharedPage, State.LeafPte;
    ghost var m := k.V();
    ok := TakeTwo(k, p, pid);
    ghost var m2 := k.V();
    FreedNothing(m2);
    if !ok {
      GiveUp(k, p, m, m2);
      return;
    }
    var r := ProcPagetable(k, trampoline, p.trapframe, p.usyscall);
    p.pagetable := r;
    if r == 0 {
      RestoredFreed(m2, k.V());
      GiveUp(k, p, m, m2);
      return false;
    }
    CreatedMade(m2, k.V(), r);
    CreatedHeld(m2, k.V(), r, p.trapframe);
    CreatedHeld(m2, k.V(), r, p.usyscall);
    ghost var two := NonNull(p.trapframe) + NonNull(p.usyscall);
    MadeTrans(m, m2, k.V(), two, OwnedBy(k.V(), r), {}, {r});
    assert two + OwnedBy(k.V(), r) == PagesOf(k.V(), p.trapframe, p.usyscall, r) && {} + {r} == {r} && PgUp(0) == 0;
  }

  lemma UserFlag(ppn: nat, perm: nat)
    requires perm < 1024
    ensures CopyUser.IsUser(MakePte(ppn, perm)) <==> WithV(perm) / 16 % 2 == 1
  {
    var f := WithV(perm);
    UserFlagArith(32 * ppn, f / 16, f % 16);
    assert MakePte(ppn, perm) == 32 * (32 * ppn) + 16 * (f / 16) + f % 16;
  }

  lemma UserFlagArith(h: nat, u: nat, b: nat)
    requires b < 16
    ensures (32 * h + 16 * u + b) / 16 % 2 == u % 2
  {
    CopyUser.Over16(2 * h + u, b);
    assert 32 * h + 16 * u + b == 16 * (2 * h + u) + b;
  }

  /** Of the pages above the user pages, user code reaches only the shared one. */
  lemma ExtrasUser(trampoline: nat, tf: nat, us: nat)
    ensures var extra := Extras(trampoline, tf, us);
            && Ppn(extra[USYSCALL / PGSIZE]) == us && CopyUser.IsUser(extra[USYSCALL / PGSIZE])
            && forall v | v in extra && v != USYSCALL / PGSIZE :: !CopyUser.IsUser(extra[v])
  {
    hide CopyUser.IsUser;
    UserFlag(trampoline, PTE_R + PTE_X);
    UserFlag(tf, PTE_R + PTE_W);
    UserFlag(us, PTE_R + PTE_U);
  }

  /** The copy functions work on the tree of a process, and user code reads its own pid at USYSCALL. */
  lemma SharedPid(m: State, tf: nat, us: nat, r: nat, sz: nat, trampoline: nat, pid: nat)
    requires ProcOk(m, tf, us, r, sz, trampoline) && r != 0 && us != 0 && m.mem[us] == SharedPage(pid)
    ensures CopyUser.Open(m, r, CopyUser.Who(m, r)[us := USYSCALL / PGSIZE])
    ensures CopyUser.Loaded(m, r, USYSCALL, Bytes4(pid))
  {
    hide State.Inv, State.LeafPte, Extras, Bytes4, CopyUser.IsUser, MakePte;
    ExtrasUser(trampoline, tf, us);
    var extra, v := Extras(trampoline, tf, us), USYSCALL / PGSIZE;
    ExtraThere(trampoline, tf, us);
    CopyUser.UserIsOpen(m, r, PgUp(sz), extra, v);
    assert UserAt(m, r, PgUp(sz), extra, v);
    var bytes := m.mem[us].bytes;
    forall x: nat | USYSCALL <= x < USYSCALL + 4 ensures x / PGSIZE == v && x % PGSIZE == x - USYSCALL {}
    forall i: nat | i < 4 ensures CopyUser.LoadedAt(m, r, USYSCALL, Bytes4(pid), i) {
      assert bytes[..4][i] == Bytes4(pid)[i] && (USYSCALL + i) / PGSIZE == v && (USYSCALL + i) % PGSIZE == i;
    }
  }

  lemma ExtraThere(trampoline: nat, tf: nat, us: nat)
    ensures var extra, v := Extras(trampoline, tf, us), USYSCALL / PGSIZE; v in extra && IsValid(extra[v]) && v < MAXVPN
  {
  }
}
