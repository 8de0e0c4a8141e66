/** Page tables as the hardware reads them: the translation process of section 4.3.2 of the RISC-V Privileged
    Architecture, version 20211203, for Sv39 (section 4.4), over the contents of physical memory. */
module Sv39 {
  import opened PageState
  import opened Vm
  import opened FreeTree

  /** A page fault, or the leaf PTE that was found and on which level. */
  datatype Found = Fault | Leaf(pte: nat, level: nat)

  /** VPN[level] of a virtual page number: nine bits. */
  function Vpn(v: nat, level: nat): (e: nat)
    ensures e < 512
  {
    if level == 0 then v % 512 else Vpn(v / 512, level - 1)
  }

  /** Steps 2 to 5: an invalid PTE faults, one with R, W or X set is a leaf, any other points to the next table. */
  function From(mem: map<nat, Page>, table: nat, v: nat, level: nat): Found
    decreases level
  {
    if table !in mem || !mem[table].Table? || |mem[table].ptes| != 512 then Fault else
      var pte := mem[table].ptes[Vpn(v, level)];
      if pte % 2 == 0 then Fault
      else if pte / 2 % 8 != 0 then Found.Leaf(pte, level)
      else if level == 0 then Fault
      else From(mem, pte / 1024, v, level - 1)
  }

  /** The whole translation: three levels from the root that satp holds. */
  function Translate(mem: map<nat, Page>, root: nat, v: nat): Found { From(mem, root, v, 2) }

  lemma VpnIs(v: nat)
    requires v < MAXVPN
    ensures Vpn(v, 0) == Px(0, v) && Vpn(v, 1) == Px(1, v) && Vpn(v, 2) == Px(2, v)
  {
    assert Vpn(v, 1) == Vpn(v / 512, 0) && Vpn(v, 2) == Vpn(v / 512, 1) == Vpn(v / 512 / 512, 0);
    assert v / 512 / 512 == v / 262144;
  }

  /** On an inner level the hardware goes to the page-table page that walk goes to, or faults where there is none. */
  lemma InnerLevel(m: State, r: nat, v: nat, level: nat)
    requires m.Inv() && r in m.trees && v < MAXVPN && 1 <= level <= 2 && KeyFor(level, v) in m.trees[r]
    ensures var child := KeyFor(level - 1, v);
            From(m.mem, m.trees[r][KeyFor(level, v)], v, level) ==
              if child in m.trees[r] then From(m.mem, m.trees[r][child], v, level - 1) else Fault
  {
    hide State.Inv, KeyFor, Px, Vpn;
    EntryFor(m, r, level, v);
    VpnIs(v);
    var pte := m.mem[m.trees[r][KeyFor(level, v)]].ptes[Px(level, v)];
    if IsValid(pte) { NodePteFlags(Ppn(pte)); }
  }

  /** The hardware finds for every page exactly the leaf entry that the kernel's code says it has. */
  lemma HardwareView(m: State, r: nat, v: nat)
    requires m.Inv() && r in m.trees && v < MAXVPN
    ensures var pte := m.LeafPte(r, v);
            Translate(m.mem, r, v) == if IsValid(pte) && pte / 2 % 8 != 0 then Found.Leaf(pte, 0) else Fault
  {
    RootEntry(m, r, v);
    assert KeyFor(2, v) == Root && KeyFor(0, v) == Key(0, v / ENTRIES);
    hide State.Inv, From;
    InnerLevel(m, r, v, 2);
    if KeyFor(1, v) in m.trees[r] {
      InnerLevel(m, r, v, 1);
      if KeyFor(0, v) in m.trees[r] {
        LeafEntry(m, r, v);
        LeafLevel(m, r, v);
      }
    } else {
      NoLeafTable(m, r, 1, v);
    }
  }

  lemma LeafLevel(m: State, r: nat, v: nat)
    requires m.Inv() && r in m.trees && v < MAXVPN && Key(0, v / ENTRIES) in m.trees[r]
    requires m.NodeAt(r, Key(0, v / ENTRIES))
    requires m.LeafPte(r, v) == m.mem[m.trees[r][Key(0, v / ENTRIES)]].ptes[v % ENTRIES]
    ensures var pte := m.LeafPte(r, v);
            From(m.mem, m.trees[r][Key(0, v / ENTRIES)], v, 0) ==
              if IsValid(pte) && pte / 2 % 8 != 0 then Found.Leaf(pte, 0) else Fault
  {
    hide State.Inv, State.LeafPte;
  }
}
