/** The page allocator of kernel/kalloc.c and the page-table code of kernel/vm.c and kernel/proc.c.

    Addresses are byte addresses as in the source; `PGSIZE` is 4096 and page numbers are addresses
    divided by it. Every method states the new translation of every page of every tree. */
module Vm {
  import opened PageState

  const MAXVA: nat := MAXVPN * PGSIZE

  /** PGROUNDUP(x) / PGSIZE. */
  function PgUp(x: nat): nat { (x + PGSIZE - 1) / PGSIZE }

  /** PX(level, va), on page numbers (kernel/riscv.h:355-357). */
  function Px(level: nat, v: nat): (e: nat)
    ensures e < ENTRIES
  {
    (if level == 0 then v else if level == 1 then v / 512 else v / 262144) % ENTRIES
  }

  /** The page-table page that walk is at on `level`, on its way to page `v`. */
  function KeyFor(level: nat, v: nat): Key {
    Key(level, if level == 0 then v / 512 else if level == 1 then v / 262144 else 0)
  }

  lemma LevelOf(level: nat, v: nat)
    ensures KeyFor(level, v).level == level
  {
  }

  lemma PxChild(level: nat, v: nat)
    requires 1 <= level <= 2 && v < MAXVPN
    ensures KeyFor(level, v).Child(Px(level, v)) == KeyFor(level - 1, v)
    ensures KeyFor(level - 1, v).Parent() == KeyFor(level, v) && KeyFor(level - 1, v).Entry() == Px(level, v)
  {
    assert v / 512 / 512 == v / 262144;
  }

  /** The page-table pages for page `v` from `level` up, without the root. */
  function Path(level: nat, v: nat): set<Key>
    decreases 2 - level
  {
    if level >= 2 then {} else {KeyFor(level, v)} + Path(level + 1, v)
  }

  /** How many of them a tree of the page-table pages `keys` lacks. */
  function Missing(keys: set<Key>, level: nat, v: nat): nat
    decreases 2 - level
  {
    if level >= 2 then 0 else (if KeyFor(level, v) in keys then 0 else 1) + Missing(keys, level + 1, v)
  }

  /** The page-table pages of the tree once the pages [a, b) are mapped. */
  function KeysTo(keys: set<Key>, a: nat, b: nat): set<Key>
    decreases b
  {
    if b <= a then keys else KeysTo(keys, a, b - 1) + Path(0, b - 1)
  }

  /** How many of them must be made for that. */
  function Tables(keys: set<Key>, a: nat, b: nat): nat
    decreases b
  {
    if b <= a then 0 else Tables(keys, a, b - 1) + Missing(KeysTo(keys, a, b - 1), 0, b - 1)
  }

  /** These are as many as the tree then has more. */
  lemma {:induction false} TablesCount(keys: set<Key>, a: nat, b: nat)
    ensures |KeysTo(keys, a, b)| == |keys| + Tables(keys, a, b) && keys <= KeysTo(keys, a, b)
    decreases b
  {
    hide Path, Missing, KeyFor;
    if b > a {
      TablesCount(keys, a, b - 1);
      MissingCount(KeysTo(keys, a, b - 1), b - 1);
    }
  }

  lemma MissingCount(keys: set<Key>, v: nat)
    ensures |keys + Path(0, v)| == |keys| + Missing(keys, 0, v)
  {
    var one, two := keys + {KeyFor(1, v)}, keys + {KeyFor(1, v)} + {KeyFor(0, v)};
    assert keys + Path(0, v) == two;
    assert KeyFor(0, v) in one <==> KeyFor(0, v) in keys;
    if KeyFor(1, v) in keys { assert one == keys; }
    if KeyFor(0, v) in keys { assert two == one; }
  }

  lemma {:induction false} KeysToMember(keys: set<Key>, a: nat, b: nat, k: Key)
    ensures k in KeysTo(keys, a, b) <==> k in keys || exists v: nat | a <= v < b :: k in Path(0, v)
    decreases b
  {
    if b > a {
      KeysToMember(keys, a, b - 1, k);
      assert k in Path(0, b - 1) ==> exists v: nat | a <= v < b :: k in Path(0, v);
    }
  }

  /** From `m` to `m'` exactly the page-table pages missing for the pages [a, b) were added to tree `r`,
      and `own` pages more were taken from the free list. */
  ghost predicate Spent(m: State, m': State, r: nat, a: nat, b: nat, own: nat) {
    && r in m.trees && r in m'.trees && m'.trees[r].Keys == KeysTo(m.trees[r].Keys, a, b)
    && |m.free| == |m'.free| + own + Tables(m.trees[r].Keys, a, b)
  }

  lemma SpentNone(m: State, r: nat, a: nat)
    requires r in m.trees
    ensures Spent(m, m, r, a, a, 0)
  {
  }

  lemma SpentStep(m: State, m1: State, m2: State, r: nat, a: nat, b: nat, own: nat, more: nat)
    requires Spent(m, m1, r, a, b, own) && Spent(m1, m2, r, b, b + 1, more) && a <= b
    ensures Spent(m, m2, r, a, b + 1, own + more)
  {
    OneMore(m1.trees[r].Keys, b);
  }

  lemma OneMore(keys: set<Key>, b: nat)
    ensures KeysTo(keys, b, b + 1) == keys + Path(0, b) && Tables(keys, b, b + 1) == Missing(keys, 0, b)
  {
    assert KeysTo(keys, b, b) == keys;
  }

  lemma SpentFacts(m: State, m': State, r: nat, a: nat, b: nat, own: nat)
    requires Spent(m, m', r, a, b, own)
    ensures r in m.trees && |m.free| >= own + Tables(m.trees[r].Keys, a, b)
  {
  }

  /** Too few page-table pages for the next page are too few for all. */
  lemma SpentFails(m: State, m1: State, r: nat, a: nat, b: nat, c: nat, own: nat)
    requires Spent(m, m1, r, a, b, own) && a <= b < c && |m1.free| < Missing(m1.trees[r].Keys, 0, b)
    ensures r in m.trees && |m.free| < own + Tables(m.trees[r].Keys, a, c)
  {
    TablesGrow(m.trees[r].Keys, a, b + 1, c);
  }

  lemma {:induction false} TablesGrow(keys: set<Key>, a: nat, b: nat, c: nat)
    requires b <= c
    ensures Tables(keys, a, b) <= Tables(keys, a, c)
    decreases c
  {
    if b < c { TablesGrow(keys, a, b, c - 1); }
  }

  /** Walking down with `alloc`: the page-table pages from `level` up are there, and those that were
      missing came from the free list. */
  ghost predicate Descended(m: State, m': State, r: nat, level: nat, v: nat) {
    && r in m.trees && r in m'.trees && m'.trees[r].Keys == m.trees[r].Keys + Path(level, v)
    && |m.free| == |m'.free| + Missing(m.trees[r].Keys, level, v)
  }

  lemma {:induction false} PathLevel(level: nat, up: nat, v: nat)
    requires level < up
    ensures KeyFor(level, v) !in Path(up, v)
    decreases 2 - up
  {
    if up < 2 { PathLevel(level, up + 1, v); }
  }

  lemma DescendedStep(m: State, m1: State, m2: State, r: nat, level: nat, v: nat)
    requires Descended(m, m1, r, level, v) && 0 < level <= 2 && r in m2.trees
    requires var child := KeyFor(level - 1, v);
             if child in m1.trees[r] then m2 == m1
             else m2.trees[r].Keys == m1.trees[r].Keys + {child} && |m1.free| == |m2.free| + 1
    ensures Descended(m, m2, r, level - 1, v)
  {
    PathLevel(level - 1, level, v);
  }

  lemma DescendedNone(m: State, r: nat, v: nat)
    requires r in m.trees
    ensures Descended(m, m, r, 2, v)
  {
  }

  lemma DescendedSpent(m: State, m': State, r: nat, v: nat)
    requires Descended(m, m', r, 0, v)
    ensures Spent(m, m', r, v, v + 1, 0) && |m.free| >= Missing(m.trees[r].Keys, 0, v)
  {
    OneMore(m.trees[r].Keys, v);
  }

  /** When the free list runs out on the way, it was too short. */
  lemma DescendedFails(m: State, m': State, r: nat, level: nat, v: nat)
    requires Descended(m, m', r, level, v) && 0 < level <= 2 && KeyFor(level - 1, v) !in m'.trees[r] && m'.free == []
    ensures |m.free| < Missing(m.trees[r].Keys, 0, v)
  {
    MissingGrows(m.trees[r].Keys, level - 1, v);
  }

  lemma MissingGrows(keys: set<Key>, level: nat, v: nat)
    requires level <= 1
    ensures Missing(keys, level, v) <= Missing(keys, 0, v)
  {
  }

  /** What growing tree `r` may do to page `p`: free pages become its page-table pages, all else but
      the tables of `r` stays. */
  ghost predicate KeptAt(m: State, m': State, r: nat, p: nat) {
    && p in m.mem && p in m.owner && p in m'.mem && p in m'.owner
    && (m'.owner[p] == m.owner[p] || (m.owner[p].InFree? && m'.owner[p].Node? && m'.owner[p].root == r))
    && (m'.mem[p] == m.mem[p] || m.owner[p].InFree? || (m.owner[p].Node? && m.owner[p].root == r))
  }

  ghost predicate LeafSame(m: State, m': State, s: nat, v: nat)
    requires s in m.trees && s in m'.trees
  {
    m'.LeafPte(s, v) == m.LeafPte(s, v)
  }

  ghost predicate KeySame(m: State, m': State, s: nat, k: Key)
    requires s in m.trees && s in m'.trees && k in m.trees[s]
  {
    k in m'.trees[s] && m'.trees[s][k] == m.trees[s][k]
  }

  /** From `m` to `m'` only tree `r` changed, and it only took pages from the free list. */
  ghost predicate Kept(m: State, m': State, r: nat) {
    && m.Inv() && m'.Inv()
    && r in m.trees && m'.trees.Keys == m.trees.Keys && m'.mem.Keys == m.mem.Keys
    && (forall s | s in m.trees && s != r :: m'.trees[s] == m.trees[s])
    && (forall k | k in m.trees[r] :: KeySame(m, m', r, k))
    && m'.free <= m.free
    && (forall p | p in m.mem :: KeptAt(m, m', r, p))
    && (forall s, v: nat | s in m.trees && s != r :: LeafSame(m, m', s, v))
  }

  /** No translation of tree `r` changed. */
  ghost predicate SameLeaves(m: State, m': State, r: nat)
    requires r in m.trees && r in m'.trees
  {
    forall v: nat :: LeafSame(m, m', r, v)
  }

  lemma KeptRefl(m: State, r: nat)
    requires m.Inv() && r in m.trees
    ensures Kept(m, m, r) && SameLeaves(m, m, r)
  {
    assert m.owner.Keys == m.mem.Keys;
    hide State.Inv;
    forall p | p in m.mem ensures KeptAt(m, m, r, p) {}
    forall k | k in m.trees[r] ensures KeySame(m, m, r, k) {}
    forall s, v: nat | s in m.trees ensures LeafSame(m, m, s, v) {}
  }

  lemma KeptTrans(m: State, m1: State, m2: State, r: nat)
    requires Kept(m, m1, r) && Kept(m1, m2, r)
    ensures Kept(m, m2, r)
    ensures SameLeaves(m, m1, r) && SameLeaves(m1, m2, r) ==> SameLeaves(m, m2, r)
  {
    hide State.Inv, State.LeafPte;
    forall p | p in m.mem ensures KeptAt(m, m2, r, p) {
      assert KeptAt(m, m1, r, p) && KeptAt(m1, m2, r, p);
    }
    forall k | k in m.trees[r] ensures KeySame(m, m2, r, k) {
      assert KeySame(m, m1, r, k) && KeySame(m1, m2, r, k);
    }
    forall s, v: nat | s in m.trees && s != r ensures LeafSame(m, m2, s, v) {
      assert LeafSame(m, m1, s, v) && LeafSame(m1, m2, s, v);
    }
    if SameLeaves(m, m1, r) && SameLeaves(m1, m2, r) {
      forall v: nat ensures LeafSame(m, m2, r, v) { assert LeafSame(m, m1, r, v) && LeafSame(m1, m2, r, v); }
    }
  }

  /** Taking a page from the free list and hanging it in the tree. */
  lemma GrowKept(m: State, r: nat, key: Key)
    requires m.Inv() && m.free != [] && r in m.trees && key.level < 2 && key.Parent() in m.trees[r]
    requires key !in m.trees[r]
    ensures m.Top() in m.mem && m.Pop().Inv() && m.Pop().NodeAt(r, key.Parent()) && key.Entry() < ENTRIES
    ensures var m' := m.Pop().AddNode(r, key, m.Top());
            Kept(m, m', r) && SameLeaves(m, m', r)
  {
    hide State.Inv, State.TreesOk, State.LeafPte;
    GrowInv(m, r, key);
    var m' := m.Pop().AddNode(r, key, m.Top());
    GrowKeptAt(m, r, key);
    forall s, v: nat | s in m.trees ensures LeafSame(m, m', s, v) { GrowLeaf(m, r, key, s, v); }
    forall k | k in m.trees[r] ensures KeySame(m, m', r, k) {}
  }

  lemma GrowInv(m: State, r: nat, key: Key)
    requires m.Inv() && m.free != [] && r in m.trees && key.level < 2 && key.Parent() in m.trees[r]
    requires key !in m.trees[r]
    ensures m.Top() in m.mem && m.owner[m.Top()].InFree? && m.Pop().Inv()
    ensures m.Pop().NodeAt(r, key.Parent()) && key.Entry() < ENTRIES && m.Pop().AddNode(r, key, m.Top()).Inv()
  {
    PopInv(m);
    AddNodeInv(m.Pop(), r, key, m.Top());
  }

  lemma GrowLeaf(m: State, r: nat, key: Key, s: nat, v: nat)
    requires m.Inv() && m.free != [] && r in m.trees && key.level < 2 && key.Parent() in m.trees[r]
    requires key !in m.trees[r]
    requires m.Top() in m.mem && m.Pop().NodeAt(r, key.Parent()) && key.Entry() < ENTRIES && s in m.trees
    ensures LeafSame(m, m.Pop().AddNode(r, key, m.Top()), s, v)
  {
    PopInv(m);
    SameTreesOk(m, m.Pop());
    AddNodeInv(m.Pop(), r, key, m.Top());
    hide State.Inv, State.TreesOk;
  }

  lemma GrowKeptAt(m: State, r: nat, key: Key)
    requires m.Inv() && m.free != [] && r in m.trees && key.Parent() in m.trees[r]
    requires m.Top() in m.mem && m.Pop().NodeAt(r, key.Parent()) && key.Entry() < ENTRIES && m.owner[m.Top()].InFree?
    ensures forall q | q in m.mem :: KeptAt(m, m.Pop().AddNode(r, key, m.Top()), r, q)
  {
    assert m.NodeAt(r, key.Parent());
    hide State.TreesOk;
    forall q | q in m.mem ensures KeptAt(m, m.Pop().AddNode(r, key, m.Top()), r, q) {}
  }

  /** perm | PTE_V. */
  function WithV(perm: nat): (flags: nat)
    ensures flags % 2 == 1 && (perm < 1024 ==> flags < 1024)
  {
    perm + (if perm % 2 == 0 then 1 else 0)
  }

  /** The PTE of a mapped page (kernel/vm.c:154): PA2PTE(pa) | perm | PTE_V. */
  function MakePte(ppn: nat, perm: nat): (pte: nat)
    requires perm < 1024
    ensures IsValid(pte) && Ppn(pte) == ppn && pte % 1024 == WithV(perm)
  {
    PteArith(ppn, WithV(perm));
    ppn * 1024 + WithV(perm)
  }

  lemma PteArith(ppn: nat, flags: nat)
    requires flags < 1024 && flags % 2 == 1
    ensures (ppn * 1024 + flags) / 1024 == ppn && (ppn * 1024 + flags) % 1024 == flags && (ppn * 1024 + flags) % 2 == 1
  {
    assert ppn * 1024 == 2 * (ppn * 512);
  }

  /** The entry of page `w` after pages [a, a+n) are mapped to the physical pages from `ppn` on. */
  ghost predicate MappedAt(m: State, m': State, r: nat, a: nat, n: nat, ppn: nat, perm: nat, w: nat)
    requires r in m.trees && r in m'.trees && perm < 1024
  {
    m'.LeafPte(r, w) == if a <= w < a + n then MakePte(ppn + (w - a), perm) else m.LeafPte(r, w)
  }

  ghost predicate Mapped(m: State, m': State, r: nat, a: nat, n: nat, ppn: nat, perm: nat)
    requires r in m.trees && r in m'.trees && perm < 1024
  {
    forall w: nat :: MappedAt(m, m', r, a, n, ppn, perm, w)
  }

  /** Mapping one more page. */
  lemma MappedStep(m: State, m1: State, m2: State, r: nat, a: nat, n: nat, ppn: nat, perm: nat)
    requires r in m.trees && r in m1.trees && r in m2.trees && perm < 1024
    requires Mapped(m, m1, r, a, n, ppn, perm) && Mapped(m1, m2, r, a + n, 1, ppn + n, perm)
    ensures Mapped(m, m2, r, a, n + 1, ppn, perm)
  {
    var k := n + 1;
    forall w: nat ensures MappedAt(m, m2, r, a, k, ppn, perm, w) {
      assert MappedAt(m, m1, r, a, n, ppn, perm, w) && MappedAt(m1, m2, r, a + n, 1, ppn + n, perm, w);
    }
  }

  lemma MappedSame(m: State, m1: State, m2: State, r: nat, a: nat, n: nat, ppn: nat, perm: nat)
    requires r in m.trees && r in m1.trees && r in m2.trees && perm < 1024
    requires Mapped(m, m1, r, a, n, ppn, perm) && SameLeaves(m1, m2, r)
    ensures Mapped(m, m2, r, a, n, ppn, perm)
  {
    forall w: nat ensures MappedAt(m, m2, r, a, n, ppn, perm, w) {
      assert MappedAt(m, m1, r, a, n, ppn, perm, w) && LeafSame(m1, m2, r, w);
    }
  }

  lemma MappedNone(m: State, r: nat, a: nat, ppn: nat, perm: nat)
    requires m.Inv() && r in m.trees && perm < 1024
    ensures Kept(m, m, r) && Mapped(m, m, r, a, 0, ppn, perm)
  {
    KeptRefl(m, r);
    forall w: nat ensures MappedAt(m, m, r, a, 0, ppn, perm, w) {}
  }

  lemma MappedRest(m: State, m': State, r: nat, a: nat, n: nat, ppn: nat, perm: nat, w: nat)
    requires r in m.trees && r in m'.trees && perm < 1024 && Mapped(m, m', r, a, n, ppn, perm) && w >= a + n
    ensures m'.LeafPte(r, w) == m.LeafPte(r, w)
  {
    assert MappedAt(m, m', r, a, n, ppn, perm, w);
  }

  /** The user page `v` is mapped and its physical page belongs to the tree. */
  ghost predicate OwnedLeaf(m: State, r: nat, v: nat)
    requires r in m.trees
  {
    var pte := m.LeafPte(r, v);
    && v < MAXVPN && IsValid(pte) && pte % 1024 != 1
    && Ppn(pte) in m.mem && Ppn(pte) in m.owner && m.owner[Ppn(pte)] == Leaf(r, v)
  }

  /** The page `v` is mapped to memory the tree does not own. */
  ghost predicate LentLeaf(m: State, r: nat, v: nat)
    requires r in m.trees
  {
    && v < MAXVPN && IsValid(m.LeafPte(r, v)) && m.LeafPte(r, v) % 1024 != 1
    && forall p | p in m.owner :: m.owner[p] != Leaf(r, v)
  }

  /** The entry of page `w` after pages [a, a+n) are unmapped. */
  ghost predicate ClearedAt(m: State, m': State, r: nat, a: nat, n: nat, w: nat)
    requires r in m.trees && r in m'.trees
  {
    m'.LeafPte(r, w) == if a <= w < a + n then 0 else m.LeafPte(r, w)
  }

  /** Physical page `q` after they are: the tree's own pages in the range are free. */
  ghost predicate FreedAt(m: State, m': State, r: nat, a: nat, n: nat, q: nat) {
    && q in m.mem && q in m.owner && q in m'.mem && q in m'.owner
    && if m.owner[q].Leaf? && m.owner[q].root == r && a <= m.owner[q].vpn < a + n then m'.owner[q].InFree?
       else m'.owner[q] == m.owner[q] && (m'.mem[q] == m.mem[q] || (m.owner[q].Node? && m.owner[q].root == r))
  }

  /** From `m` to `m'` the pages [a, a+n) of tree `r` are unmapped, the physical pages among them that
      the tree owns are on the free list, and nothing else changed. */
  ghost predicate Unmapped(m: State, m': State, r: nat, a: nat, n: nat) {
    && m.Inv() && m'.Inv() && r in m.trees && m'.trees == m.trees && m'.mem.Keys == m.mem.Keys && m.free <= m'.free
    && (forall w: nat :: ClearedAt(m, m', r, a, n, w))
    && (forall q | q in m.mem :: FreedAt(m, m', r, a, n, q))
    && (forall s, v: nat | s in m.trees && s != r :: LeafSame(m, m', s, v))
  }

  lemma UnmappedNone(m: State, r: nat, a: nat)
    requires m.Inv() && r in m.trees
    ensures Unmapped(m, m, r, a, 0)
  {
    assert m.owner.Keys == m.mem.Keys;
    hide State.Inv, State.LeafPte;
    forall w: nat ensures ClearedAt(m, m, r, a, 0, w) {}
    forall q | q in m.mem ensures FreedAt(m, m, r, a, 0, q) {}
    forall s, v: nat | s in m.trees ensures LeafSame(m, m, s, v) {}
  }

  lemma UnmappedStep(m: State, m1: State, m2: State, r: nat, a: nat, n: nat)
    requires Unmapped(m, m1, r, a, n) && Unmapped(m1, m2, r, a + n, 1)
    ensures Unmapped(m, m2, r, a, n + 1)
  {
    hide State.Inv, State.LeafPte;
    var k := n + 1;
    forall w: nat ensures ClearedAt(m, m2, r, a, k, w) {
      assert ClearedAt(m, m1, r, a, n, w) && ClearedAt(m1, m2, r, a + n, 1, w);
    }
    forall q | q in m.mem ensures FreedAt(m, m2, r, a, k, q) {
      assert FreedAt(m, m1, r, a, n, q) && FreedAt(m1, m2, r, a + n, 1, q);
    }
    forall s, v: nat | s in m.trees && s != r ensures LeafSame(m, m2, s, v) {
      assert LeafSame(m, m1, s, v) && LeafSame(m1, m2, s, v);
    }
  }

  lemma UnmappedFacts(m: State, m': State, r: nat, a: nat, n: nat)
    requires Unmapped(m, m', r, a, n)
    ensures m'.Inv() && r in m.trees && m'.trees == m.trees
    ensures forall w: nat | w >= a + n :: OwnedLeaf(m, r, w) ==> OwnedLeaf(m', r, w)
    ensures forall w: nat | w >= a + n :: LentLeaf(m, r, w) ==> LentLeaf(m', r, w)
  {
    assert m.owner.Keys == m.mem.Keys && m'.owner.Keys == m'.mem.Keys;
    hide State.Inv, State.LeafPte, IsValid;
    forall w: nat | w >= a + n && OwnedLeaf(m, r, w) ensures OwnedLeaf(m', r, w) {
      assert ClearedAt(m, m', r, a, n, w) && FreedAt(m, m', r, a, n, Ppn(m.LeafPte(r, w)));
    }
    forall w: nat | w >= a + n && LentLeaf(m, r, w) ensures LentLeaf(m', r, w) {
      assert ClearedAt(m, m', r, a, n, w);
      forall p | p in m'.owner ensures m'.owner[p] != Leaf(r, w) { assert FreedAt(m, m', r, a, n, p); }
    }
  }

  /** Clearing the entry of a page that is not the tree's. */
  lemma UnmapLent(m: State, r: nat, v: nat)
    requires m.Inv() && r in m.trees && LentLeaf(m, r, v)
    ensures Key(0, v / ENTRIES) in m.trees[r] && m.NodeAt(r, Key(0, v / ENTRIES))
    ensures Unmapped(m, m.SetLeaf(r, v, 0), r, v, 1)
  {
    hide State.Inv, State.TreesOk;
    SetLeafKept(m, r, v, 0);
    var m' := m.SetLeaf(r, v, 0);
    KeptFacts(m, m', r);
    forall w: nat ensures ClearedAt(m, m', r, v, 1, w) {}
    forall q | q in m.mem ensures FreedAt(m, m', r, v, 1, q) { assert KeptAt(m, m', r, q); }
  }

  /** Freeing a leaf page before its entry is cleared, as uvmunmap does. */
  lemma FreeLeaf(m: State, r: nat, v: nat)
    requires m.Inv() && r in m.trees && OwnedLeaf(m, r, v)
    ensures var p := Ppn(m.LeafPte(r, v));
            var m1 := m.Give(p, Held);
            var m2 := m1.Push(p);
            && m1.Inv() && m2.Inv() && m2.trees == m.trees && LentLeaf(m2, r, v)
            && (forall s, w: nat | s in m.trees :: LeafSame(m, m2, s, w))
  {
    var p := Ppn(m.LeafPte(r, v));
    DisownInv(m, p);
    var m1 := m.Give(p, Held);
    PushInv(m1, p);
    var m2 := m1.Push(p);
    FreeLeafSame(m, m1, m2);
    forall q | q in m2.owner ensures m2.owner[q] != Leaf(r, v) { assert m.PageAt(q); }
    assert LeafSame(m, m2, r, v);
  }

  lemma FreeLeafSame(m: State, m1: State, m2: State)
    requires m.TreesOk() && SameTrees(m, m1) && SameTrees(m1, m2)
    ensures forall s, w: nat | s in m.trees :: LeafSame(m, m2, s, w)
  {
    SameTreesOk(m, m1);
    SameTreesOk(m1, m2);
    hide State.LeafPte, State.TreesOk;
    forall s, w: nat | s in m.trees ensures LeafSame(m, m2, s, w) {}
  }

  lemma UnmapOwned(m: State, r: nat, v: nat)
    requires m.Inv() && r in m.trees && OwnedLeaf(m, r, v)
    ensures Key(0, v / ENTRIES) in m.trees[r]
    ensures var p := Ppn(m.LeafPte(r, v));
            var m2 := m.Give(p, Held).Push(p);
            m2.Inv() && m2.NodeAt(r, Key(0, v / ENTRIES)) && Unmapped(m, m2.SetLeaf(r, v, 0), r, v, 1)
  {
    assert m.owner.Keys == m.mem.Keys;
    var p := Ppn(m.LeafPte(r, v));
    var m2 := m.Give(p, Held).Push(p);
    FreeLeaf(m, r, v);
    UnmapLent(m2, r, v);
    var m' := m2.SetLeaf(r, v, 0);
    UnmapOwnedStep(m, m2, m', r, v, p);
  }

  lemma UnmapOwnedStep(m: State, m2: State, m': State, r: nat, v: nat, p: nat)
    requires m.Inv() && r in m.trees && p in m.mem && m2 == m.Give(p, Held).Push(p) && m.owner[p] == Leaf(r, v)
    requires m.owner.Keys == m.mem.Keys
    requires forall s, w: nat | s in m.trees :: LeafSame(m, m2, s, w)
    requires Unmapped(m2, m', r, v, 1)
    ensures Unmapped(m, m', r, v, 1)
  {
    hide State.Inv, State.LeafPte;
    OneLeafPage(m, r, v, p);
    forall w: nat ensures ClearedAt(m, m', r, v, 1, w) {
      assert ClearedAt(m2, m', r, v, 1, w) && LeafSame(m, m2, r, w);
    }
    forall q | q in m.mem ensures FreedAt(m, m', r, v, 1, q) { assert FreedAt(m2, m', r, v, 1, q); }
    forall s, w: nat | s in m.trees && s != r ensures LeafSame(m, m', s, w) {
      assert LeafSame(m, m2, s, w) && LeafSame(m2, m', s, w);
    }
  }

  /** A user page has one physical page. */
  lemma OneLeafPage(m: State, r: nat, v: nat, p: nat)
    requires m.Inv() && p in m.owner && m.owner[p] == Leaf(r, v)
    ensures forall q | q in m.owner && m.owner[q] == Leaf(r, v) :: q == p
  {
    forall q | q in m.owner && m.owner[q] == Leaf(r, v) ensures q == p { assert m.PageAt(q) && m.PageAt(p); }
  }

  /** Writing one leaf entry. */
  lemma SetLeafKept(m: State, r: nat, v: nat, pte: nat)
    requires m.Inv() && r in m.trees && v < MAXVPN && Key(0, v / ENTRIES) in m.trees[r]
    requires MaySet(m, r, v, pte)
    ensures m.NodeAt(r, Key(0, v / ENTRIES))
    ensures Kept(m, m.SetLeaf(r, v, pte), r)
    ensures forall w: nat :: m.SetLeaf(r, v, pte).LeafPte(r, w) == if w == v then pte else m.LeafPte(r, w)
  {
    SetLeafInv(m, r, v, pte);
    var m' := m.SetLeaf(r, v, pte);
    assert m.owner.Keys == m.mem.Keys;
    hide State.Inv, State.TreesOk;
    forall p | p in m.mem ensures KeptAt(m, m', r, p) {}
    forall k | k in m.trees[r] ensures KeySame(m, m', r, k) {}
    forall s, w: nat | s in m.trees && s != r ensures LeafSame(m, m', s, w) {}
  }

  /** The leaf entry is written after walk has made the page-table pages. */
  lemma MapOneKept(m0: State, m: State, r: nat, v: nat, ppn: nat, perm: nat)
    requires Kept(m0, m, r) && r in m.trees && SameLeaves(m0, m, r)
    requires v < MAXVPN && perm < 1024 && Key(0, v / ENTRIES) in m.trees[r] && !IsValid(m0.LeafPte(r, v))
    ensures m.NodeAt(r, Key(0, v / ENTRIES))
    ensures var m' := m.SetLeaf(r, v, MakePte(ppn, perm));
            Kept(m0, m', r) && Mapped(m0, m', r, v, 1, ppn, perm)
  {
    hide State.Inv, Kept, State.LeafPte, IsValid, MakePte;
    KeptFacts(m0, m, r);
    assert LeafSame(m0, m, r, v);
    NotLeaf(m, r, v);
    var pte := MakePte(ppn, perm);
    SetLeafKept(m, r, v, pte);
    var m' := m.SetLeaf(r, v, pte);
    KeptTrans(m0, m, m', r);
    forall w: nat ensures MappedAt(m0, m', r, v, 1, ppn, perm, w) { assert LeafSame(m0, m, r, w); }
  }

  lemma RootEntry(m: State, r: nat, v: nat)
    requires m.Inv() && r in m.trees
    ensures Root in m.trees[r] && m.trees[r][Root] == r && Px(0, v) == v % ENTRIES
  {
    assert m.NodeAt(r, Root);
  }

  lemma KeptFacts(m: State, m': State, r: nat)
    requires Kept(m, m', r)
    ensures m.Inv() && m'.Inv() && r in m.trees && r in m'.trees
    ensures m.owner.Keys == m.mem.Keys == m'.mem.Keys == m'.owner.Keys
  {
  }

  lemma LeafEntry(m: State, r: nat, v: nat)
    requires m.Inv() && r in m.trees && Key(0, v / ENTRIES) in m.trees[r]
    ensures m.NodeAt(r, Key(0, v / ENTRIES))
    ensures m.LeafPte(r, v) == m.mem[m.trees[r][Key(0, v / ENTRIES)]].ptes[v % ENTRIES]
  {
  }

  /** What walk reads on a level: the entry of the next page-table page, if there is one. */
  lemma EntryFor(m: State, r: nat, level: nat, v: nat)
    requires m.Inv() && r in m.trees && 1 <= level <= 2 && v < MAXVPN && KeyFor(level, v) in m.trees[r]
    ensures m.NodeAt(r, KeyFor(level, v))
    ensures var pte := m.mem[m.trees[r][KeyFor(level, v)]].ptes[Px(level, v)];
            var child := KeyFor(level - 1, v);
            && (IsValid(pte) <==> child in m.trees[r])
            && (IsValid(pte) ==> Ppn(pte) == m.trees[r][child] && pte == NodePte(Ppn(pte)))
  {
    hide KeyFor, Px;
    LevelOf(level, v);
    PxChild(level, v);
    NodeEntry(m, r, KeyFor(level, v), Px(level, v));
  }

  /** Without the page-table page on a level there is none on the levels below. */
  lemma NoLeafTable(m: State, r: nat, level: nat, v: nat)
    requires m.Inv() && r in m.trees && level <= 1 && v < MAXVPN && KeyFor(level, v) !in m.trees[r]
    ensures Key(0, v / ENTRIES) !in m.trees[r]
  {
    PxChild(1, v);
    assert KeyFor(0, v) in m.trees[r] ==> m.NodeAt(r, KeyFor(0, v));
  }

  class Memory {
    var mem: map<nat, Page>
    var freelist: nat
    ghost var free: seq<nat>
    ghost var owner: map<nat, Owner>
    ghost var trees: map<nat, map<Key, nat>>

    ghost function V(): State
      reads this
    {
      State(mem, freelist, free, owner, trees)
    }

    ghost predicate Valid()
      reads this
    {
      V().Inv()
    }

    /** kinit (kernel/kalloc.c:26-31): all whole pages between the end of the kernel and PHYSTOP. */
    constructor (ram: map<nat, Page>, start: nat, end: nat)
      requires start > 0 && forall p: nat :: p in ram <==> PgUp(start) <= p < end / PGSIZE
      ensures Valid() && trees == map[] && mem.Keys == ram.Keys
      ensures forall p | p in mem :: owner[p].InFree?
    {
      mem := ram;
      freelist := 0;
      free := [];
      owner := map p | p in ram :: Held;
      trees := map[];
      new;
      Freerange(start, end);
    }

    /** freerange (kernel/kalloc.c:33-40) frees exactly the whole pages of the range. */
    method Freerange(start: nat, end: nat)
      requires Valid() && forall p: nat | PgUp(start) <= p < end / PGSIZE :: p in mem && owner[p] == Held
      modifies this
      ensures Valid() && trees == old(trees) && mem.Keys == old(mem.Keys)
      ensures forall p | p in mem :: if PgUp(start) <= p < end / PGSIZE then owner[p].InFree?
              else owner[p] == old(owner[p]) && mem[p] == old(mem[p])
    {
      hide State.TreesOk, State.FreeAt, State.PageAt;
      var p := PgUp(start) * PGSIZE;
      ghost var n := PgUp(start);
      while p + PGSIZE <= end
        invariant p == n * PGSIZE && PgUp(start) <= n && (n <= end / PGSIZE || n == PgUp(start))
        invariant Valid() && trees == old(trees) && mem.Keys == old(mem.Keys)
        invariant forall q | q in mem ::
                if PgUp(start) <= q < n then owner[q].InFree? else owner[q] == old(owner[q]) && mem[q] == old(mem[q])
        decreases end - p
      {
        Kfree(p / PGSIZE);
        p := p + PGSIZE;
        n := n + 1;
      }
    }

    /** kalloc (kernel/kalloc.c:69-82): 0 when no page is free. */
    method Kalloc() returns (p: nat)
      requires Valid()
      modifies this
      ensures Valid()
      ensures p == 0 <==> old(free) == []
      ensures p == 0 ==> V() == old(V())
      ensures p != 0 ==> p == old(V()).Top() && p in mem && owner[p] == Held && V() == old(V()).Pop()
    {
      ghost var m := V();
      var r := freelist;
      if r != 0 {
        PopInv(m);
        freelist := mem[r].next;
        mem := mem[r := Junk];
        free, owner := m.Pop().free, m.Pop().owner;
      } else if free != [] {
        PopInv(m);
        assert false;
      }
      p := r;
    }

    /** kfree (kernel/kalloc.c:46-63) of a page its caller owns. */
    method Kfree(p: nat)
      requires Valid() && p in mem && owner[p] == Held
      modifies this
      ensures Valid() && V() == old(V()).Push(p)
    {
      PushInv(V(), p);
      mem := mem[p := Free(freelist)];
      freelist := p;
      owner := owner[p := InFree(|free|)];
      free := free + [p];
    }

    /** walk (kernel/vm.c:81-99): the page-table page and index holding the leaf entry of `va`. With
        `alloc`, missing page-table pages are made; no translation of any tree changes. */
    method Walk(r: nat, va: nat, alloc: bool) returns (found: bool, pt: nat, idx: nat)
      requires Valid() && r in trees && va < MAXVA
      modifies this
      ensures Valid() && Kept(old(V()), V(), r) && SameLeaves(old(V()), V(), r)
      ensures !alloc ==> V() == old(V())
      ensures found <==> Key(0, va / PGSIZE / ENTRIES) in trees[r]
      ensures found ==> pt == trees[r][Key(0, va / PGSIZE / ENTRIES)] && idx == va / PGSIZE % ENTRIES
      ensures !found && alloc ==> free == []
      ensures alloc ==> (found <==> |old(free)| >= Missing(old(trees[r]).Keys, 0, va / PGSIZE))
      ensures alloc && found ==> Spent(old(V()), V(), r, va / PGSIZE, va / PGSIZE + 1, 0)
    {
      hide State.Inv, Kept, SameLeaves, Px, Ppn, Descended, Missing, Spent;
      var v := va / PGSIZE;
      ghost var m0 := V();
      KeptRefl(m0, r);
      pt, idx := r, Px(0, v);
      RootEntry(m0, r, v);
      DescendedNone(m0, r, v);
      var level := 2;
      while level > 0
        invariant 0 <= level <= 2 && (alloc ==> Descended(m0, V(), r, level, v))
        invariant Kept(m0, V(), r) && r in m0.trees && r in trees && SameLeaves(m0, V(), r)
        invariant !alloc ==> V() == m0
        invariant KeyFor(level, v) in trees[r] && trees[r][KeyFor(level, v)] == pt
      {
        ghost var m := V();
        KeptFacts(m0, m, r);
        EntryFor(m, r, level, v);
        var pte := mem[pt].ptes[Px(level, v)];
        if IsValid(pte) {
          pt := Ppn(pte);
        } else {
          if !alloc {
            NoLeafTable(m, r, level - 1, v);
            return false, pt, idx;
          }
          var page := Kalloc();
          if page == 0 {
            NoLeafTable(m, r, level - 1, v);
            DescendedFails(m0, m, r, level, v);
            return false, pt, idx;
          }
          Hang(r, v, level, pt, page, m);
          KeptTrans(m0, m, V(), r);
          pt := page;
        }
        if alloc { DescendedStep(m0, m, V(), r, level, v); }
        level := level - 1;
      }
      KeptFacts(m0, V(), r);
      if alloc { DescendedSpent(m0, V(), r, v); }
      found := true;
    }

    /** One iteration of mappages (kernel/vm.c:150-154). */
    method MapOne(r: nat, v: nat, ppn: nat, perm: nat) returns (ok: bool)
      requires Valid() && r in trees && v < MAXVPN && perm < 1024 && !IsValid(V().LeafPte(r, v))
      modifies this
      ensures Valid() && r in trees && r in old(trees) && Kept(old(V()), V(), r)
      ensures ok ==> Mapped(old(V()), V(), r, v, 1, ppn, perm)
      ensures !ok ==> SameLeaves(old(V()), V(), r) && free == []
      ensures ok <==> |old(free)| >= Missing(old(trees[r]).Keys, 0, v)
      ensures ok ==> Spent(old(V()), V(), r, v, v + 1, 0)
    {
      ghost var m0 := V();
      hide State.Inv, State.LeafPte, Kept, SameLeaves, Mapped, Missing, KeysTo, Tables;
      var found, pt, idx := Walk(r, v * PGSIZE, true);
      ghost var m := V();
      KeptFacts(m0, m, r);
      if !found {
        return false;
      }
      MapOneKept(m0, m, r, v, ppn, perm);
      mem := mem[pt := Table(mem[pt].ptes[idx := MakePte(ppn, perm)])];
      assert V() == m.SetLeaf(r, v, MakePte(ppn, perm));
      KeptFacts(m0, V(), r);
      ok := true;
    }

    /** mappages (kernel/vm.c:139-161): the pages from `va` to `va + size - 1` are mapped to the
        physical pages from `pa` on, or, when page-table pages run out, only the first `n` of them;
        no other translation changes. The panics of lines 85, 145 and 153 are preconditions. */
    method Mappages(r: nat, va: nat, size: nat, pa: nat, perm: nat) returns (ok: bool, ghost n: nat)
      requires Valid() && r in trees && size > 0 && va + size <= MAXVA && perm < 1024
      requires forall v: nat | va / PGSIZE <= v <= (va + size - 1) / PGSIZE :: !IsValid(V().LeafPte(r, v))
      modifies this
      ensures Valid() && r in trees && r in old(trees) && Kept(old(V()), V(), r)
      ensures Mapped(old(V()), V(), r, va / PGSIZE, n, pa / PGSIZE, perm)
      ensures ok ==> n == (va + size - 1) / PGSIZE - va / PGSIZE + 1
      ensures !ok ==> n <= (va + size - 1) / PGSIZE - va / PGSIZE && free == []
      ensures var a, b := va / PGSIZE, (va + size - 1) / PGSIZE + 1;
              && (ok <==> |old(free)| >= Tables(old(trees[r]).Keys, a, b))
              && (ok ==> Spent(old(V()), V(), r, a, b, 0))
    {
      hide State.Inv, State.LeafPte, Kept, SameLeaves, Mapped, IsValid, Spent, Missing, Tables, KeysTo;
      ghost var m0 := V();
      var a, ppn := va / PGSIZE, pa / PGSIZE;
      var last := (va + size - 1) / PGSIZE;
      ghost var first, ppn0 := a, ppn;
      n := 0;
      MappedNone(m0, r, first, ppn0, perm);
      SpentNone(m0, r, first);
      while true
        invariant first <= a <= last && a == first + n && ppn == ppn0 + n
        invariant Valid() && r in trees && Kept(m0, V(), r) && Mapped(m0, V(), r, first, n, ppn0, perm)
        invariant Spent(m0, V(), r, first, a, 0)
        decreases last - a
      {
        ghost var m := V();
        MappedRest(m0, m, r, first, n, ppn0, perm, a);
        var done := MapOne(r, a, ppn, perm);
        KeptTrans(m0, m, V(), r);
        if !done {
          MappedSame(m0, m, V(), r, first, n, ppn0, perm);
          SpentFails(m0, m, r, first, a, last + 1, 0);
          return false, n;
        }
        SpentStep(m0, m, V(), r, first, a, 0, 0);
        MappedStep(m0, m, V(), r, first, n, ppn0, perm);
        n := n + 1;
        if a == last { break; }
        a := a + 1;
        ppn := ppn + 1;
      }
      SpentFacts(m0, V(), r, first, last + 1, 0);
      ok := true;
    }

    /** One iteration of uvmunmap (kernel/vm.c:176-186). */
    method UnmapOne(r: nat, v: nat, doFree: bool)
      requires Valid() && r in trees
      requires if doFree then OwnedLeaf(V(), r, v) else LentLeaf(V(), r, v)
      modifies this
      ensures Unmapped(old(V()), V(), r, v, 1)
    {
      hide State.Inv, Unmapped;
      ghost var m := V();
      if doFree { UnmapOwned(m, r, v); } else { UnmapLent(m, r, v); }
      var found, pt, idx := Walk(r, v * PGSIZE, false);
      LeafEntry(m, r, v);
      var pte := mem[pt].ptes[idx];
      if doFree {
        var p := Ppn(pte);
        DisownInv(m, p);
        owner := owner[p := Held];
        Kfree(p);
      }
      mem := mem[pt := Table(mem[pt].ptes[idx := 0])];
    }

    /** uvmunmap (kernel/vm.c:166-188): unmaps exactly `npages` pages from `va` on, and with `doFree`
        gives their physical pages back. The panics of lines 173-181 are preconditions. */
    method Uvmunmap(r: nat, va: nat, npages: nat, doFree: bool)
      requires Valid() && r in trees && va % PGSIZE == 0
      requires doFree ==> forall v: nat | va / PGSIZE <= v < va / PGSIZE + npages :: OwnedLeaf(V(), r, v)
      requires !doFree ==> forall v: nat | va / PGSIZE <= v < va / PGSIZE + npages :: LentLeaf(V(), r, v)
      modifies this
      ensures Valid() && Unmapped(old(V()), V(), r, va / PGSIZE, npages)
    {
      hide State.Inv, Unmapped, OwnedLeaf, LentLeaf;
      ghost var m0 := V();
      var a := va;
      ghost var first, n := va / PGSIZE, 0;
      UnmappedNone(m0, r, first);
      while a < va + npages * PGSIZE
        invariant a == va + n * PGSIZE && n <= npages
        invariant Valid() && r in trees && Unmapped(m0, V(), r, first, n)
        invariant doFree ==> forall v: nat | first + n <= v < first + npages :: OwnedLeaf(V(), r, v)
        invariant !doFree ==> forall v: nat | first + n <= v < first + npages :: LentLeaf(V(), r, v)
      {
        ghost var m := V();
        assert a / PGSIZE == first + n;
        UnmapOne(r, a / PGSIZE, doFree);
        UnmappedFacts(m, V(), r, first + n, 1);
        UnmappedStep(m0, m, V(), r, first, n);
        a := a + PGSIZE;
        n := n + 1;
      }
      assert n == npages;
    }

    /** walk's installation of a new page-table page (kernel/vm.c:94-95). */
    method Hang(r: nat, v: nat, level: nat, pt: nat, page: nat, ghost m: State)
      requires m.Inv() && r in m.trees && 1 <= level <= 2 && v < MAXVPN
      requires KeyFor(level, v) in m.trees[r] && m.trees[r][KeyFor(level, v)] == pt
      requires KeyFor(level - 1, v) !in m.trees[r]
      requires m.free != [] && page == m.Top() && V() == m.Pop()
      modifies this
      ensures Valid() && r in trees && Kept(m, V(), r) && SameLeaves(m, V(), r)
      ensures KeyFor(level - 1, v) in trees[r] && trees[r][KeyFor(level - 1, v)] == page
      ensures trees[r].Keys == m.trees[r].Keys + {KeyFor(level - 1, v)} && |m.free| == |free| + 1
    {
      hide State.Inv, Kept, SameLeaves, Px, KeyFor, Key.Parent, Key.Entry, Key.Child;
      ghost var child := KeyFor(level - 1, v);
      PxChild(level, v);
      assert KeyFor(level, v).level == level && child.level == level - 1
      by { LevelOf(level, v); LevelOf(level - 1, v); }
      GrowKept(m, r, child);
      mem := mem[page := Table(seq(ENTRIES, _ => 0))];
      mem := mem[pt := Table(mem[pt].ptes[Px(level, v) := NodePte(page)])];
      owner := owner[page := Node(r, child)];
      ghost var tree: map<Key, nat> := trees[r][child := page];
      trees := trees[r := tree];
      assert V() == m.Pop().AddNode(r, child, page);
      KeptFacts(m, V(), r);
    }
  }
}
