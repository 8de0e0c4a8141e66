/** Physical pages, their owners, and the Sv39 page-table trees held in them (kernel/kalloc.c,
    kernel/vm.c). The format is section 4.4 (Sv39) of the RISC-V Privileged Architecture,
    version 20211203.

    Everything is counted in pages: a virtual page number is an address divided by PGSIZE. This
    module holds the state as a value, its invariant, and the elementary changes the kernel code
    makes, each with a proof that it keeps the invariant. */
module PageState {
  const ENTRIES: nat := 512
  const MAXVPN: nat := 0x400_0000   // MAXVA / PGSIZE
  const PGSIZE: nat := 4096

  /** A page-table page: the root is Key(2, 0), and Key(0, v / 512) holds the leaf of page v. */
  datatype Key = Key(level: nat, idx: nat) {
    function Child(e: nat): Key
      requires level > 0
    {
      Key(level - 1, idx * ENTRIES + e)
    }
    function Parent(): Key { Key(level + 1, idx / ENTRIES) }
    function Entry(): nat { idx % ENTRIES }
  }

  const Root := Key(2, 0)

  /** What a physical page holds: a link of the free list, junk, page-table entries or bytes. */
  datatype Page = Free(next: nat) | Junk | Table(ptes: seq<nat>) | Data(bytes: seq<nat>)

  /** Who owns a physical page. `InFree(k)` is the k-th page from the end of the free list; `Held`
      stands for any other single owner in the kernel. */
  datatype Owner = InFree(k: nat) | Node(root: nat, key: Key) | Leaf(root: nat, vpn: nat) | Held

  /** The PTE of a page-table page (kernel/vm.c:95): valid, no permission bits. */
  function NodePte(p: nat): nat { p * 1024 + 1 }

  /** PTE2PA, in pages. */
  function Ppn(pte: nat): nat { pte / 1024 }

  /** PTE_V. */
  predicate IsValid(pte: nat) { pte % 2 == 1 }

  /** A page of user memory. */
  predicate IsData(page: Page) { page.Data? && |page.bytes| == PGSIZE }

  datatype State = State(
    mem: map<nat, Page>,                  // RAM, by physical page number
    freelist: nat,                        // kmem.freelist, 0 for the null pointer
    free: seq<nat>,                       // the free list, last page first
    owner: map<nat, Owner>,
    trees: map<nat, map<Key, nat>>)       // the page-table pages of each tree
  {
    /** The free list threads through the free pages. */
    ghost predicate FreeAt(k: nat)
      requires k < |free|
    {
      free[k] in mem && free[k] in owner && owner[free[k]] == InFree(k)
      && mem[free[k]] == Free(if k == 0 then 0 else free[k - 1])
    }

    ghost function Top(): nat {
      if free == [] then 0 else free[|free| - 1]
    }

    /** A tree's page-table page is the one its owner says, and hangs under its parent. */
    ghost predicate NodeAt(r: nat, key: Key)
      requires r in trees && key in trees[r]
    {
      var p := trees[r][key];
      && p in mem && p in owner && owner[p] == Node(r, key)
      && mem[p].Table? && |mem[p].ptes| == ENTRIES
      && key.level <= 2
      && (key.level == 2 ==> key == Root && p == r)
      && (key.level < 2 ==> key.Parent() in trees[r])
    }

    /** An entry of an inner page-table page points to the child page, or is zero. */
    ghost predicate EntryAt(r: nat, key: Key, e: nat)
      requires r in trees && key in trees[r] && NodeAt(r, key) && key.level > 0 && e < ENTRIES
    {
      mem[trees[r][key]].ptes[e] == if key.Child(e) in trees[r] then NodePte(trees[r][key.Child(e)]) else 0
    }

    /** The leaf entry of page `v`, zero when no page-table page covers it. */
    ghost function LeafPte(r: nat, v: nat): nat
      requires r in trees
    {
      var key := Key(0, v / ENTRIES);
      if key in trees[r] && trees[r][key] in mem && mem[trees[r][key]].Table? && |mem[trees[r][key]].ptes| == ENTRIES
      then mem[trees[r][key]].ptes[v % ENTRIES] else 0
    }

    /** A page is where its owner puts it. */
    ghost predicate PageAt(p: nat)
      requires p in mem && p in owner
    {
      match owner[p]
      case InFree(k) => k < |free| && free[k] == p
      case Node(r, key) => r in trees && key in trees[r] && trees[r][key] == p
      case Leaf(r, v) => r in trees && v < MAXVPN && Key(0, v / ENTRIES) in trees[r] && IsValid(LeafPte(r, v))
        && Ppn(LeafPte(r, v)) == p && IsData(mem[p])
      case Held => true
    }

    ghost predicate TreesOk() {
      && (forall r | r in trees :: Root in trees[r])
      && (forall r, key | r in trees && key in trees[r] :: NodeAt(r, key))
      && (forall r, key, e: nat | r in trees && key in trees[r] && key.level > 0 && e < ENTRIES :: EntryAt(r, key, e))
    }

    /** Every physical page is in exactly one place: the free list, an inner node of one tree, a leaf
        of one tree, or another owner's hands; and the trees are well formed. */
    ghost predicate Inv() {
      && owner.Keys == mem.Keys && 0 !in mem
      && freelist == Top()
      && (forall k: nat | k < |free| :: FreeAt(k))
      && (forall p | p in mem :: PageAt(p))
      && TreesOk()
    }

    /** kalloc takes the first page of the free list (kernel/kalloc.c:74-76). */
    ghost function Pop(): State
      requires free != []
    {
      var p := Top();
      State(mem[p := Junk], if |free| == 1 then 0 else free[|free| - 2], free[..|free| - 1], owner[p := Held], trees)
    }

    /** kfree puts a page in front (kernel/kalloc.c:60-61). */
    ghost function Push(p: nat): State {
      State(mem[p := Free(freelist)], p, free + [p], owner[p := InFree(|free|)], trees)
    }

    /** A held page's contents are replaced. */
    ghost function Fill(p: nat, page: Page): State {
      this.(mem := mem[p := page])
    }

    /** walk installs a zeroed page-table page under its parent (kernel/vm.c:94-95). */
    ghost function AddNode(r: nat, key: Key, p: nat): State
      requires r in trees && key.Parent() in trees[r] && trees[r][key.Parent()] in mem
      requires mem[trees[r][key.Parent()]].Table?
      requires key.Entry() < |mem[trees[r][key.Parent()]].ptes|
    {
      var up := trees[r][key.Parent()];
      var tree: map<Key, nat> := trees[r][key := p];
      State(mem[p := Table(seq(ENTRIES, _ => 0))][up := Table(mem[up].ptes[key.Entry() := NodePte(p)])],
            freelist, free, owner[p := Node(r, key)], trees[r := tree])
    }

    /** A leaf entry is overwritten. */
    ghost function SetLeaf(r: nat, v: nat, pte: nat): State
      requires r in trees && Key(0, v / ENTRIES) in trees[r]
      requires trees[r][Key(0, v / ENTRIES)] in mem && mem[trees[r][Key(0, v / ENTRIES)]].Table?
      requires |mem[trees[r][Key(0, v / ENTRIES)]].ptes| == ENTRIES
    {
      var p := trees[r][Key(0, v / ENTRIES)];
      this.(mem := mem[p := Table(mem[p].ptes[v % ENTRIES := pte])])
    }

    /** A page changes hands. */
    ghost function Give(p: nat, o: Owner): State {
      this.(owner := owner[p := o])
    }

    /** A zeroed held page becomes the root of a new, empty tree (kernel/vm.c:196-199). */
    ghost function NewTree(p: nat): State {
      var tree: map<Key, nat> := map[Root := p];
      State(mem[p := Table(seq(ENTRIES, _ => 0))], freelist, free, owner[p := Node(p, Root)], trees[p := tree])
    }

    /** The tree's page-table pages pass to the code that frees them. */
    ghost function Detach(r: nat): State {
      State(mem, freelist, free,
            map p | p in owner :: if owner[p].Node? && owner[p].root == r then Held else owner[p],
            trees - {r})
    }
  }

  /** `m'` has the trees of `m`, in the same pages. */
  ghost predicate SameTrees(m: State, m': State) {
    && m'.trees == m.trees
    && forall p | p in m.mem && p in m.owner && m.owner[p].Node? ::
      p in m'.mem && p in m'.owner && m'.mem[p] == m.mem[p] && m'.owner[p] == m.owner[p]
  }

  lemma SameTreesOk(m: State, m': State)
    requires m.TreesOk() && SameTrees(m, m')
    ensures m'.TreesOk()
    ensures forall r, v: nat | r in m.trees :: m'.LeafPte(r, v) == m.LeafPte(r, v)
  {
    forall r, key | r in m'.trees && key in m'.trees[r] ensures m'.NodeAt(r, key) { assert m.NodeAt(r, key); }
    forall r, key, e: nat | r in m'.trees && key in m'.trees[r] && key.level > 0 && e < ENTRIES
      ensures m'.EntryAt(r, key, e)
    {
      assert m.NodeAt(r, key) && m.EntryAt(r, key, e);
    }
    forall r, v: nat | r in m.trees ensures m'.LeafPte(r, v) == m.LeafPte(r, v) {
      var key := Key(0, v / ENTRIES);
      if key in m.trees[r] { assert m.NodeAt(r, key); }
    }
  }

  lemma NodePteFields(p: nat)
    ensures IsValid(NodePte(p)) && Ppn(NodePte(p)) == p
  {
    var k := 512 * p;
    assert NodePte(p) == 2 * k + 1 && (2 * k + 1) % 2 == 1;
  }

  /** What an entry of an inner page-table page says: whether there is a child page, and where. */
  lemma NodeEntry(m: State, r: nat, key: Key, e: nat)
    requires m.TreesOk() && r in m.trees && key in m.trees[r] && key.level > 0 && e < ENTRIES
    ensures m.NodeAt(r, key)
    ensures var pte := m.mem[m.trees[r][key]].ptes[e];
            && (IsValid(pte) <==> key.Child(e) in m.trees[r])
            && (IsValid(pte) ==> Ppn(pte) == m.trees[r][key.Child(e)] && pte == NodePte(Ppn(pte)))
  {
    hide NodePte, Ppn;
    assert m.NodeAt(r, key) && m.EntryAt(r, key, e);
    if key.Child(e) in m.trees[r] { NodePteFields(m.trees[r][key.Child(e)]); }
  }

  lemma KeyArith(key: Key)
    requires key.level < 2
    ensures key.Entry() < ENTRIES && key.Parent().Child(key.Entry()) == key
    ensures forall e: nat | e < ENTRIES && key.Parent().Child(e) == key :: e == key.Entry()
  {
  }

  /** kalloc keeps the invariant; the page it returns is not used anywhere else. */
  lemma PopInv(m: State)
    requires m.Inv() && m.free != []
    ensures m.Top() in m.mem && m.Top() != 0 && m.owner[m.Top()].InFree?
    ensures m.mem[m.Top()] == Free(m.Pop().freelist) && m.Pop().Inv() && SameTrees(m, m.Pop())
  {
    var m' := m.Pop();
    hide State.TreesOk;
    assert m.FreeAt(|m.free| - 1);
    forall k: nat | k < |m'.free| ensures m'.FreeAt(k) { assert m.FreeAt(k); }
    SameTreesOk(m, m');
    forall q | q in m'.mem ensures m'.PageAt(q) {
      assert m.PageAt(q);
      assert m.owner[q].InFree? ==> m.FreeAt(m.owner[q].k);
    }
  }

  /** kfree keeps the invariant for a page its caller owns. */
  lemma PushInv(m: State, p: nat)
    requires m.Inv() && p in m.mem && m.owner[p] == Held
    ensures m.Push(p).Inv() && SameTrees(m, m.Push(p))
  {
    var m' := m.Push(p);
    hide State.TreesOk;
    forall k: nat | k < |m'.free| ensures m'.FreeAt(k) {
      if k < |m.free| { assert m.FreeAt(k); }
    }
    SameTreesOk(m, m');
    forall q | q in m'.mem ensures m'.PageAt(q) { assert m.PageAt(q); }
  }

  /** A page that is neither free nor in a tree may be written freely. */
  lemma FillInv(m: State, p: nat, page: Page)
    requires m.Inv() && p in m.mem && (m.owner[p] == Held || (m.owner[p].Leaf? && IsData(page)))
    ensures m.Fill(p, page).Inv() && SameTrees(m, m.Fill(p, page))
  {
    var m' := m.Fill(p, page);
    hide State.TreesOk;
    forall k: nat | k < |m'.free| ensures m'.FreeAt(k) { assert m.FreeAt(k); }
    SameTreesOk(m, m');
    forall q | q in m'.mem ensures m'.PageAt(q) { assert m.PageAt(q); }
  }

  lemma AddNodeTrees(m: State, r: nat, key: Key, p: nat)
    requires m.Inv() && r in m.trees && key.level < 2 && key.Parent() in m.trees[r] && key !in m.trees[r]
    requires p in m.mem && m.owner[p] == Held
    ensures m.NodeAt(r, key.Parent()) && key.Entry() < ENTRIES
    ensures var m' := m.AddNode(r, key, p);
            && m'.TreesOk()
            && forall s, v: nat | s in m.trees :: m'.LeafPte(s, v) == m.LeafPte(s, v)
  {
    KeyArith(key);
    assert m.NodeAt(r, key.Parent());
    var m' := m.AddNode(r, key, p);
    forall s, k | s in m'.trees && k in m'.trees[s] ensures m'.NodeAt(s, k) {
      if (s, k) != (r, key) { assert m.NodeAt(s, k); }
    }
    forall s, k, e: nat | s in m'.trees && k in m'.trees[s] && k.level > 0 && e < ENTRIES ensures m'.EntryAt(s, k, e) {
      assert m'.NodeAt(s, k);
      AddNodeEntry(m, r, key, p, s, k, e);
    }
    forall s, v: nat | s in m.trees ensures m'.LeafPte(s, v) == m.LeafPte(s, v) { AddNodeLeaf(m, r, key, p, s, v); }
  }

  lemma AddNodeLeaf(m: State, r: nat, key: Key, p: nat, s: nat, v: nat)
    requires m.Inv() && r in m.trees && key.level < 2 && key.Parent() in m.trees[r] && key !in m.trees[r]
    requires p in m.mem && m.owner[p] == Held && m.NodeAt(r, key.Parent()) && key.Entry() < ENTRIES && s in m.trees
    ensures m.AddNode(r, key, p).LeafPte(s, v) == m.LeafPte(s, v)
  {
    hide State.FreeAt, State.PageAt, State.EntryAt;
    var k, up := Key(0, v / ENTRIES), m.trees[r][key.Parent()];
    var m' := m.AddNode(r, key, p);
    if k in m.trees[s] {
      assert m.NodeAt(s, k) && m.trees[s][k] != p && m.trees[s][k] != up;
      assert m'.trees[s][k] == m.trees[s][k] && m'.mem[m.trees[s][k]] == m.mem[m.trees[s][k]];
    } else if k in m'.trees[s] {
      assert m'.mem[p] == Table(seq(ENTRIES, _ => 0));
    }
  }

  /** Hanging a zeroed page under its parent keeps the trees and changes no translation. */
  lemma AddNodeInv(m: State, r: nat, key: Key, p: nat)
    requires m.Inv() && r in m.trees && key.level < 2 && key.Parent() in m.trees[r] && key !in m.trees[r]
    requires p in m.mem && m.owner[p] == Held
    ensures m.NodeAt(r, key.Parent()) && key.Entry() < ENTRIES
    ensures var m' := m.AddNode(r, key, p);
            && m'.Inv()
            && forall s, v: nat | s in m.trees :: m'.LeafPte(s, v) == m.LeafPte(s, v)
  {
    AddNodeTrees(m, r, key, p);
    var m' := m.AddNode(r, key, p);
    forall k: nat | k < |m'.free| ensures m'.FreeAt(k) { assert m.FreeAt(k); }
    forall q | q in m'.mem ensures m'.PageAt(q) { AddNodePage(m, r, key, p, q); }
  }

  lemma AddNodePage(m: State, r: nat, key: Key, p: nat, q: nat)
    requires m.Inv() && r in m.trees && key.level < 2 && key.Parent() in m.trees[r] && key !in m.trees[r]
    requires p in m.mem && m.owner[p] == Held && q in m.mem && m.NodeAt(r, key.Parent()) && key.Entry() < ENTRIES
    ensures var m' := m.AddNode(r, key, p);
            q in m'.mem && q in m'.owner && m'.PageAt(q)
  {
    assert m.PageAt(q);
    AddNodeTrees(m, r, key, p);
  }

  lemma AddNodeEntry(m: State, r: nat, key: Key, p: nat, s: nat, k: Key, e: nat)
    requires m.Inv() && r in m.trees && key.level < 2 && key.Parent() in m.trees[r] && key !in m.trees[r]
    requires p in m.mem && m.owner[p] == Held && m.NodeAt(r, key.Parent()) && key.Entry() < ENTRIES
    requires var m' := m.AddNode(r, key, p);
             s in m'.trees && k in m'.trees[s] && k.level > 0 && e < ENTRIES && m'.NodeAt(s, k)
    ensures m.AddNode(r, key, p).EntryAt(s, k, e)
  {
    KeyArith(key);
    if s == r && k == key {
      var c := k.Child(e);
      assert c.Parent() == key;
      assert c in m.trees[r] ==> m.NodeAt(r, c);
      assert c != key;
    } else {
      assert m.NodeAt(s, k) && m.EntryAt(s, k, e);
      if s == r && k.Child(e) == key { assert k.Child(e).Parent() == k; }
    }
  }

  /** Overwriting a leaf entry changes the translation of one page of one tree. */
  lemma SetLeafTrees(m: State, r: nat, v: nat, pte: nat)
    requires m.Inv() && r in m.trees && Key(0, v / ENTRIES) in m.trees[r]
    ensures m.NodeAt(r, Key(0, v / ENTRIES))
    ensures var m' := m.SetLeaf(r, v, pte);
            && m'.TreesOk()
            && forall s, w: nat | s in m.trees :: m'.LeafPte(s, w) == if s == r && w == v then pte else m.LeafPte(s, w)
  {
    assert m.NodeAt(r, Key(0, v / ENTRIES));
    var m' := m.SetLeaf(r, v, pte);
    forall s, k | s in m'.trees && k in m'.trees[s] ensures m'.NodeAt(s, k) { assert m.NodeAt(s, k); }
    forall s, k, e: nat | s in m'.trees && k in m'.trees[s] && k.level > 0 && e < ENTRIES ensures m'.EntryAt(s, k, e) {
      assert m.NodeAt(s, k) && m.EntryAt(s, k, e);
    }
    forall s, w: nat | s in m.trees ensures m'.LeafPte(s, w) == if s == r && w == v then pte else m.LeafPte(s, w) {
      SetLeafAt(m, r, v, pte, s, w);
    }
  }

  /** Distinct pages below MAXVA reach distinct leaf slots, in one tree or in two. */
  lemma SetLeafAt(m: State, r: nat, v: nat, pte: nat, s: nat, w: nat)
    requires m.Inv() && r in m.trees && Key(0, v / ENTRIES) in m.trees[r] && m.NodeAt(r, Key(0, v / ENTRIES))
    requires s in m.trees
    ensures m.SetLeaf(r, v, pte).LeafPte(s, w) == if s == r && w == v then pte else m.LeafPte(s, w)
  {
    var k := Key(0, w / ENTRIES);
    if k in m.trees[s] { assert m.NodeAt(s, k); }
    assert w / ENTRIES == v / ENTRIES && w % ENTRIES == v % ENTRIES ==> w == v;
  }

  /** An entry that no leaf page hangs on may be set and cleared freely; of others, the flags. */
  ghost predicate MaySet(m: State, r: nat, v: nat, pte: nat)
    requires r in m.trees
  {
    || (forall p | p in m.owner :: m.owner[p] != Leaf(r, v))
    || (IsValid(pte) && Ppn(pte) == Ppn(m.LeafPte(r, v)))
  }

  lemma SetLeafInv(m: State, r: nat, v: nat, pte: nat)
    requires m.Inv() && r in m.trees && Key(0, v / ENTRIES) in m.trees[r] && v < MAXVPN && MaySet(m, r, v, pte)
    ensures m.NodeAt(r, Key(0, v / ENTRIES))
    ensures var m' := m.SetLeaf(r, v, pte);
            && m'.Inv()
            && forall s, w: nat | s in m.trees :: m'.LeafPte(s, w) == if s == r && w == v then pte else m.LeafPte(s, w)
  {
    hide State.TreesOk, State.LeafPte, State.PageAt;
    SetLeafTrees(m, r, v, pte);
    var m' := m.SetLeaf(r, v, pte);
    forall k: nat | k < |m'.free| ensures m'.FreeAt(k) { assert m.FreeAt(k); }
    forall q | q in m'.mem ensures m'.PageAt(q) { SetLeafPage(m, r, v, pte, q); }
  }

  lemma SetLeafPage(m: State, r: nat, v: nat, pte: nat, q: nat)
    requires m.Inv() && r in m.trees && Key(0, v / ENTRIES) in m.trees[r] && v < MAXVPN
    requires m.NodeAt(r, Key(0, v / ENTRIES))
    requires q in m.mem && MaySet(m, r, v, pte)
    ensures var m' := m.SetLeaf(r, v, pte);
            q in m'.mem && m'.PageAt(q)
  {
    assert m.PageAt(q);
    SetLeafTrees(m, r, v, pte);
  }

  /** A held data page that an entry points to becomes a leaf of the tree. */
  lemma OwnInv(m: State, r: nat, v: nat, p: nat)
    requires m.Inv() && r in m.trees && v < MAXVPN && Key(0, v / ENTRIES) in m.trees[r]
    requires IsValid(m.LeafPte(r, v)) && Ppn(m.LeafPte(r, v)) == p
    requires p in m.mem && m.owner[p] == Held && IsData(m.mem[p])
    ensures m.Give(p, Leaf(r, v)).Inv() && SameTrees(m, m.Give(p, Leaf(r, v)))
  {
    var m' := m.Give(p, Leaf(r, v));
    hide State.TreesOk;
    forall k: nat | k < |m'.free| ensures m'.FreeAt(k) { assert m.FreeAt(k); }
    SameTreesOk(m, m');
    forall q | q in m'.mem ensures m'.PageAt(q) { assert m.PageAt(q); }
  }

  /** A leaf page passes back to the kernel code at work. */
  lemma DisownInv(m: State, p: nat)
    requires m.Inv() && p in m.mem && m.owner[p].Leaf?
    ensures m.Give(p, Held).Inv() && SameTrees(m, m.Give(p, Held))
  {
    var m' := m.Give(p, Held);
    hide State.TreesOk;
    forall k: nat | k < |m'.free| ensures m'.FreeAt(k) { assert m.FreeAt(k); }
    SameTreesOk(m, m');
    forall q | q in m'.mem ensures m'.PageAt(q) { assert m.PageAt(q); }
  }

  /** A page with no valid entry has no leaf page. */
  lemma NotLeaf(m: State, r: nat, v: nat)
    requires m.Inv() && r in m.trees && !IsValid(m.LeafPte(r, v))
    ensures forall p | p in m.owner :: m.owner[p] != Leaf(r, v)
  {
    forall p | p in m.owner ensures m.owner[p] != Leaf(r, v) { assert m.PageAt(p); }
  }

  /** A fresh root is an empty tree. */
  lemma NewTreeInv(m: State, p: nat)
    requires m.Inv() && p in m.mem && m.owner[p] == Held
    ensures p !in m.trees && m.NewTree(p).Inv()
    ensures forall v: nat :: m.NewTree(p).LeafPte(p, v) == 0
    ensures forall s, v: nat | s in m.trees :: m.NewTree(p).LeafPte(s, v) == m.LeafPte(s, v)
  {
    hide State.TreesOk, State.LeafPte;
    NewTreeTrees(m, p);
    var m' := m.NewTree(p);
    forall k: nat | k < |m'.free| ensures m'.FreeAt(k) { assert m.FreeAt(k); }
    forall q | q in m'.mem ensures m'.PageAt(q) { assert m.PageAt(q); }
  }

  lemma NewTreeTrees(m: State, p: nat)
    requires m.Inv() && p in m.mem && m.owner[p] == Held
    ensures p !in m.trees && m.NewTree(p).TreesOk()
    ensures forall v: nat :: m.NewTree(p).LeafPte(p, v) == 0
    ensures forall s, v: nat | s in m.trees :: m.NewTree(p).LeafPte(s, v) == m.LeafPte(s, v)
  {
    assert p in m.trees ==> m.NodeAt(p, Root);
    var m' := m.NewTree(p);
    forall s, k | s in m'.trees && k in m'.trees[s] ensures m'.NodeAt(s, k) {
      if s != p { assert m.NodeAt(s, k); }
    }
    forall s, k, e: nat | s in m'.trees && k in m'.trees[s] && k.level > 0 && e < ENTRIES ensures m'.EntryAt(s, k, e) {
      if s != p { assert m.NodeAt(s, k) && m.EntryAt(s, k, e); }
    }
    forall s, v: nat | s in m.trees ensures m'.LeafPte(s, v) == m.LeafPte(s, v) { NewTreeLeaf(m, p, s, v); }
  }

  lemma NewTreeLeaf(m: State, p: nat, s: nat, v: nat)
    requires m.Inv() && p in m.mem && m.owner[p] == Held && p !in m.trees && s in m.trees
    ensures m.NewTree(p).LeafPte(s, v) == m.LeafPte(s, v)
  {
    if Key(0, v / ENTRIES) in m.trees[s] { assert m.NodeAt(s, Key(0, v / ENTRIES)); }
  }

  /** A tree without leaf pages can be taken apart: its page-table pages become the caller's, and
      nothing else changes. */
  lemma DetachInv(m: State, r: nat)
    requires m.Inv() && r in m.trees
    requires forall p | p in m.owner :: !(m.owner[p].Leaf? && m.owner[p].root == r)
    ensures m.Detach(r).Inv()
    ensures forall key | key in m.trees[r] :: m.Detach(r).owner[m.trees[r][key]] == Held
  {
    hide State.TreesOk;
    DetachTrees(m, r);
    var m' := m.Detach(r);
    forall k: nat | k < |m'.free| ensures m'.FreeAt(k) { assert m.FreeAt(k); }
    forall q | q in m'.mem ensures m'.PageAt(q) { assert m.PageAt(q); }
  }

  lemma DetachTrees(m: State, r: nat)
    requires m.TreesOk() && r in m.trees
    ensures m.Detach(r).TreesOk()
    ensures forall key | key in m.trees[r] :: m.trees[r][key] in m.owner && m.Detach(r).owner[m.trees[r][key]] == Held
  {
    var m' := m.Detach(r);
    forall s, k | s in m'.trees && k in m'.trees[s] ensures m'.NodeAt(s, k) { assert m.NodeAt(s, k); }
    forall s, k, e: nat | s in m'.trees && k in m'.trees[s] && k.level > 0 && e < ENTRIES ensures m'.EntryAt(s, k, e) {
      assert m.NodeAt(s, k) && m.EntryAt(s, k, e);
    }
    forall key | key in m.trees[r] ensures m.trees[r][key] in m.owner && m'.owner[m.trees[r][key]] == Held {
      assert m.NodeAt(r, key);
    }
  }

  /** The pages of the free list, of inner nodes, of leaves, and those other code holds. */
  ghost function FreePages(m: State): set<nat> { set p | p in m.owner && m.owner[p].InFree? }
  ghost function NodePages(m: State): set<nat> { set p | p in m.owner && m.owner[p].Node? }
  ghost function LeafPages(m: State): set<nat> { set p | p in m.owner && m.owner[p].Leaf? }
  ghost function HeldPages(m: State): set<nat> { set p | p in m.owner && m.owner[p].Held? }

  /** Conservation: the four kinds of pages partition memory, and the free list holds each free page
      once. */
  lemma Conservation(m: State)
    requires m.Inv()
    ensures FreePages(m) + NodePages(m) + LeafPages(m) + HeldPages(m) == m.mem.Keys
    ensures |m.mem| == |m.free| + |NodePages(m)| + |LeafPages(m)| + |HeldPages(m)|
  {
    hide State.Inv;
    FreePagesCount(m);
    FourSizes(m.mem.Keys, FreePages(m), NodePages(m), LeafPages(m), HeldPages(m));
  }

  lemma FourSizes(all: set<nat>, a: set<nat>, b: set<nat>, c: set<nat>, d: set<nat>)
    requires all == a + b + c + d && a !! b !! c !! d
    ensures |all| == |a| + |b| + |c| + |d|
  {
    assert |a + b + c + d| == |a + b + c| + |d| && |a + b + c| == |a + b| + |c|;
  }

  lemma FreePagesCount(m: State)
    requires m.Inv()
    ensures |FreePages(m)| == |m.free| && m.owner.Keys == m.mem.Keys
  {
    hide State.TreesOk;
    FreeCount(m, |m.free|);
    forall p | p in FreePages(m) ensures exists k: nat | k < |m.free| :: m.free[k] == p { assert m.PageAt(p); }
    forall k: nat | k < |m.free| ensures m.free[k] in FreePages(m) { assert m.FreeAt(k); }
    assert FreePages(m) == set k: nat | k < |m.free| :: m.free[k];
  }

  lemma {:induction false} FreeCount(m: State, n: nat)
    requires m.Inv() && n <= |m.free|
    ensures |set k: nat | k < n :: m.free[k]| == n
  {
    if n > 0 {
      FreeCount(m, n - 1);
      var less, all := set k: nat | k < n - 1 :: m.free[k], set k: nat | k < n :: m.free[k];
      forall k: nat | k < n - 1 ensures m.free[k] != m.free[n - 1] { assert m.FreeAt(k) && m.FreeAt(n - 1); }
      assert all == less + {m.free[n - 1]};
    }
  }
}
