/** malloc, free and morecore (user/umalloc.c). */
module Malloc {
  import opened Basics
  import opened HeapState

  /** Steps from place `k` to place `i` of a ring of `n`. */
  function Dist(k: nat, i: nat, n: nat): nat
    requires k < n && i < n
  {
    if k <= i then i - k else n - k + i
  }

  /** There is a block in the list before every address above the base. */
  lemma {:induction false} FindBefore(s: State, b: nat, n: nat) returns (i: nat)
    requires s.Inv({}) && s.base < b && b !in s.list && 0 < n <= |s.list| && (n < |s.list| ==> b < s.list[n])
    ensures s.Before(i, b)
    decreases n
  {
    if s.list[n - 1] < b {
      i := n - 1;
    } else {
      i := FindBefore(s, b, n - 1);
    }
  }

  /** free's search stops exactly at the block before `b` (user/umalloc.c:30-32). */
  lemma StopsAt(s: State, i: nat, b: nat, k: nat)
    requires s.Inv({}) && s.Before(i, b) && k < |s.list| && b !in s.list && s.base < b
    ensures s.list[k] in s.ptr
    ensures var p, q := s.list[k], s.ptr[s.list[k]];
            (b > p && b < q) || (p >= q && (b > p || b < q)) <==> k == i
  {
    assert s.Link(k);
    if k < i { Rising(s, k, i, {}); if k + 1 < i { Rising(s, k + 1, i, {}); } }
    if i < k { Rising(s, i, k, {}); if i + 1 < k { Rising(s, i + 1, k, {}); } }
    if k + 1 < |s.list| { Rising(s, k, k + 1, {}); } else if k > 0 { Rising(s, 0, k, {}); }
  }

  /** free's merging (user/umalloc.c:33-42) turns the inserted block into the invariant again. */
  lemma MergeRight(s: State, i: nat, b: nat)
    requires s.Inv({}) && b in s.alloc && s.Before(i, b) && i + 1 < |s.list| && b + s.alloc[b] == s.list[i + 1]
    ensures s.list[i] in s.ptr && b in s.size && s.list[i + 1] in s.size && s.list[i + 1] in s.ptr
    ensures s.Insert(i, b).list[i + 1] == b && s.Insert(i, b).list[i + 2] == s.list[i + 1]
    ensures s.Insert(i, b).Merge(i + 1).Inv({i})
  {
    InsertInv(s, i, b);
    assert s.AllocOk(b) && s.Link(i) && s.Link(i + 1);
    assert {i} + {i + 1} == {i, i + 1};
    MergeInv(s.Insert(i, b), i + 1, {i});
  }

  lemma NoMergeRight(s: State, i: nat, b: nat)
    requires s.Inv({}) && b in s.alloc && s.Before(i, b) && (i + 1 < |s.list| ==> b + s.alloc[b] != s.list[i + 1])
    ensures s.list[i] in s.ptr && b in s.size && s.Insert(i, b).Inv({i})
  {
    InsertInv(s, i, b);
    assert s.AllocOk(b);
    assert {i} + {i + 1} == {i, i + 1};
    Tighten(s.Insert(i, b), {i}, i + 1);
  }

  lemma MergeLeft(s: State, i: nat)
    requires s.Inv({i}) && i + 1 < |s.list|
    ensures s.list[i] in s.size && s.list[i + 1] in s.size && s.list[i + 1] in s.ptr
    ensures if s.list[i] + s.size[s.list[i]] == s.list[i + 1] then i > 0 && s.Merge(i).Inv({}) else s.Inv({})
  {
    assert s.Link(i) && s.Link(i + 1) && s.FreeOk(i + 1);
    assert {} + {i} == {i};
    if s.list[i] + s.size[s.list[i]] == s.list[i + 1] { MergeInv(s, i, {}); } else { Tighten(s, {}, i); }
  }

  /** The place `t + 1` steps after place `f`, going round. */
  function Idx(f: nat, t: nat, n: nat): (k: nat)
    requires f < n && t < n
    ensures k < n
  {
    if f + 1 + t < n then f + 1 + t else f + 1 + t - n
  }

  /** Units that morecore asks for. */
  function Units(nu: nat): nat { if nu < 4096 then 4096 else nu }

  /** Units that malloc needs for `nbytes` bytes: enough for them, and one for the header. */
  function Needed(nbytes: nat): (n: nat)
    ensures (n - 1) * 16 >= nbytes && (n - 2) * 16 < nbytes
  {
    (nbytes + 15) / 16 + 1
  }

  /** The memory morecore gets. */
  ghost function Gained(asked: bool, brk: Option<nat>, n: nat): set<nat> {
    if asked && brk.Some? then Span(brk.value, Units(n), brk.value).Keys else {}
  }

  ghost predicate NoneFits(s: State, n: nat) {
    forall k: nat | k < |s.list| :: s.list[k] in s.size && s.size[s.list[k]] < n
  }

  ghost function IndexOf(l: seq<nat>, x: nat): (k: nat)
    requires x in l
    ensures k < |l| && l[k] == x
  {
    var k: nat :| k < |l| && l[k] == x; k
  }

  /** The first `d` blocks after place `f` are too small. */
  ghost predicate SmallTo(s: State, f: nat, d: nat, n: nat)
    requires f < |s.list| && d <= |s.list|
  {
    forall t: nat | t < d :: SmallAt(s, f, t, n)
  }

  ghost predicate SmallAt(s: State, f: nat, t: nat, n: nat)
    requires f < |s.list| && t < |s.list|
  {
    s.list[Idx(f, t, |s.list|)] in s.size && s.size[s.list[Idx(f, t, |s.list|)]] < n
  }

  /** One that is large enough comes later. */
  ghost predicate BigFrom(s: State, f: nat, d: nat, n: nat)
    requires f < |s.list|
  {
    exists t: nat :: d <= t < |s.list| && !SmallAt(s, f, t, n)
  }

  class Heap {
    const base: nat
    var ptr: map<nat, nat>
    var size: map<nat, nat>
    var freep: nat               // 0 for the null pointer
    ghost var list: seq<nat>
    ghost var alloc: map<nat, nat>
    ghost var cover: map<nat, nat>

    ghost function V(): State
      reads this
    {
      State(base, ptr, size, list, alloc, cover)
    }

    ghost predicate Valid()
      reads this
    {
      base > 0 && if freep == 0 then alloc == map[] && cover == map[] else V().Inv({}) && freep in list
    }

    constructor (base: nat)
      requires base > 0
      ensures Valid() && this.base == base && freep == 0 && alloc == map[] && cover == map[]
    {
      this.base := base;
      ptr, size, freep, list, alloc, cover := map[], map[], 0, [], map[], map[];
    }

    /** free's search (user/umalloc.c:30-32) ends, at the block before `bp`. */
    method Search(bp: nat) returns (p: nat, ghost i: nat)
      requires Valid() && freep != 0 && bp in alloc
      ensures V().Before(i, bp) && list[i] == p && p in ptr
    {
      ghost var s, n := V(), |list|;
      NotListed(s, bp, {});
      assert s.AllocOk(bp);
      i := FindBefore(s, bp, n);
      p := freep;
      ghost var k: nat :| k < n && list[k] == p;
      StopsAt(s, i, bp, k);
      while !(bp > p && bp < ptr[p])
        invariant k < n && list[k] == p && p in ptr
        decreases Dist(k, i, n)
      {
        StopsAt(s, i, bp, k);
        if p >= ptr[p] && (bp > p || bp < ptr[p]) {
          break;
        }
        assert s.Link(k);
        p := ptr[p];
        k := Next(k, n);
        StopsAt(s, i, bp, k);
      }
      StopsAt(s, i, bp, k);
    }
  
    /** free (user/umalloc.c:24-44): the block is free memory again and nothing else changes; the freed
        memory is in block `freep` or the one after it. */
    method Free(ap: nat) returns (ghost k: nat)
      requires Valid() && freep != 0 && ap > 0 && ap - 1 in alloc
      modifies this
      ensures Valid() && freep != 0 && alloc == old(alloc) - {ap - 1} && cover.Keys == old(cover).Keys
      ensures k < |list| && list[k] == freep && freep in size
      ensures size[freep] >= old(alloc)[ap - 1]
              || (k + 1 < |list| && list[k + 1] in size && size[list[k + 1]] >= old(alloc)[ap - 1])
    {
      hide State.Inv;
      ghost var s := V();
      var bp := ap - 1;
      var p;
      ghost var i;
      p, i := Search(bp);
      FreeFacts(s, i, bp);
      if bp + size[bp] == ptr[p] {
        size, ptr := size[bp := size[bp] + size[ptr[p]]], ptr[bp := ptr[ptr[p]]];
      } else {
        ptr := ptr[bp := ptr[p]];
      }
      ghost var s1 := RightDone(s, i, bp, ptr, size);
      if p + size[p] == bp {
        size, ptr := size[p := size[p] + size[bp]], ptr[p := ptr[bp]];
      } else {
        ptr := ptr[p := bp];
      }
      ghost var s2 := LeftDone(s1, i, p, bp, ptr, size);
      freep := p;
      list, alloc, cover := s2.list, s2.alloc, s2.cover;
      k := i;
    }

    /** morecore (user/umalloc.c:46-61), where sbrk's answer is `brk`. */
    method Morecore(nu: nat, brk: Option<nat>) returns (p: nat, ghost k: nat)
      requires Valid() && freep != 0 && (brk.Some? ==> base < brk.value && forall u | u in cover :: u < brk.value)
      modifies this
      ensures Valid() && freep != 0 && alloc == old(alloc)
      ensures p == 0 <==> brk.None?
      ensures p == 0 ==> V() == old(V()) && freep == old(freep)
      ensures p != 0 ==> p == freep && cover.Keys == old(cover).Keys + Span(brk.value, Units(nu), brk.value).Keys
      ensures p != 0 ==> k < |list| && list[k] == freep && freep in size
      ensures p != 0 ==> size[freep] >= nu || (k + 1 < |list| && list[k + 1] in size && size[list[k + 1]] >= nu)
    {
      hide State.Inv;
      k := 0;
      if brk.None? {
        return 0, 0;
      }
      ghost var s := V();
      var hp, n := brk.value, Units(nu);
      NotYet(s, hp);
      ExtendInv(s, hp, n);
      size := size[hp := n];
      ghost var s1 := s.Extend(hp, n);
      alloc, cover := s1.alloc, s1.cover;
      k := Free(hp + 1);
      assert alloc == old(alloc);
      assert cover.Keys == old(cover).Keys + Span(hp, n, hp).Keys;
      RingAt(V(), k);
      p := freep;
    }

    /** The first call makes the list of the base header alone (user/umalloc.c:70-73). */
    method Begin(ghost n: nat)
      requires Valid() && n > 0
      modifies this
      ensures Valid() && freep != 0 && alloc == old(alloc) && cover == old(cover)
      ensures if old(freep) == 0 then NoneFits(V(), n) else V() == old(V()) && freep == old(freep)
    {
      if freep == 0 {
        ptr, size := ptr[base := base], size[base := 0];
        list := [base];
        freep := base;
        FirstInv(V());
      }
    }

    /** malloc (user/umalloc.c:63-90) of at most `nunits - 1` units of payload, where sbrk's answer is
        `brk`. It gives out a new block of exactly that size, disjoint from all others by the
        invariant, and asks sbrk at most once, only when no free block is large enough; it fails
        exactly when sbrk is asked and fails. */
    method Malloc(nbytes: nat, brk: Option<nat>) returns (r: nat, ghost asked: bool)
      requires Valid() && (brk.Some? ==> base < brk.value && forall u | u in cover :: u < brk.value)
      modifies this
      ensures Valid() && freep != 0
      ensures asked <==> old(freep == 0 || NoneFits(V(), Needed(nbytes)))
      ensures r == 0 <==> asked && brk.None?
      ensures r == 0 ==> alloc == old(alloc) && cover == old(cover)
      ensures r != 0 ==> r - 1 !in old(alloc) && alloc == old(alloc)[r - 1 := Needed(nbytes)]
      ensures r != 0 ==> cover.Keys == old(cover).Keys + Gained(asked, brk, Needed(nbytes))
    {
      hide State.Inv, NoneFits, SmallTo, BigFrom, Idx, PrevIdx, Next, Span, Gained, Units, Needed;
      var nunits := (nbytes + 15) / 16 + 1;
      NeededIs(nbytes);
      asked := false;
      Begin(nunits);
      ghost var s0 := V();
      ghost var full := NoneFits(s0, nunits);
      assert full == old(freep == 0 || NoneFits(V(), Needed(nbytes)));
      ghost var f: nat, d: nat := IndexOf(list, freep), 0;
      RingStep(s0, f, 0);
      NoneSeen(s0, f, nunits);
      NoSpan(cover, brk, nunits);
      var prevp := freep;
      var p := ptr[prevp];
      while true
        invariant Valid() && freep != 0 && f < |list| && list[f] == freep && d < |list|
        invariant p == list[Idx(f, d, |list|)] && prevp == list[PrevIdx(f, d, |list|)] && alloc == old(alloc)
        invariant !asked ==> V() == s0 && SmallTo(V(), f, d, nunits)
        invariant asked ==> brk.Some? && full && BigFrom(V(), f, d, nunits)
        invariant cover.Keys == old(cover).Keys + Gained(asked, brk, nunits)
        decreases !asked, |list| - d
      {
        ghost var at := Idx(f, d, |list|);
        RingStep(V(), f, d);
        if size[p] >= nunits {
          if !asked { SomeFits(s0, at, nunits); }
          p := Take(p, prevp, nunits, at);
          freep := prevp;
          return p + 1, asked;
        }
        if p == freep {
          AllSeen(V(), f, d, nunits, asked);
          asked := true;
          ghost var k;
          p, k := Morecore(nunits, brk);
          GainedIs(brk, nunits);
          if p == 0 {
            return 0, true;
          }
          f, d := k, 0;
          BigNear(V(), f, nunits);
        } else {
          NotLast(V(), f, d);
          d := d + 1;
          StepSeen(V(), f, d, nunits);
        }
        RingStep(V(), f, d);
        prevp := p;
        p := ptr[p];
      }
    }

    /** malloc's taking of a block (user/umalloc.c:76-82), after `prevp` in the list. */
    method Take(p: nat, prevp: nat, nunits: nat, ghost at: nat) returns (b: nat)
      requires Valid() && freep != 0 && at < |list| && p == list[at] && p in ptr && p in size && 0 < nunits <= size[p]
      requires at > 0 ==> prevp == list[at - 1]
      modifies `ptr, `size, `list, `alloc, `cover
      ensures V().Inv({}) && prevp in list && b !in old(alloc) && alloc == old(alloc)[b := nunits]
      ensures cover.Keys == old(cover).Keys
    {
      hide State.Inv;
      ghost var s := V();
      TakeFacts(s, at);
      if size[p] == nunits {
        TakeWholeInv(s, at - 1);
        ghost var s1 := s.TakeWhole(at - 1);
        ptr := ptr[prevp := ptr[p]];
        list, alloc := s1.list, s1.alloc;
        assert list[at - 1] == prevp;
        b := p;
      } else {
        TakeTailInv(s, at, nunits);
        ghost var s1 := s.TakeTail(at, nunits);
        size := size[p := size[p] - nunits];
        b := p + size[p];
        size := size[b := nunits];
        alloc, cover := s1.alloc, s1.cover;
      }
    }
  }

  function PrevIdx(f: nat, d: nat, n: nat): (k: nat)
    requires f < n && d < n
    ensures k < n
  {
    if d == 0 then f else Idx(f, d - 1, n)
  }

  /** Going round from place `f`, one step leads to the next block. */
  lemma RingStep(s: State, f: nat, d: nat)
    requires s.Inv({}) && f < |s.list| && d < |s.list|
    ensures var q, k := PrevIdx(f, d, |s.list|), Idx(f, d, |s.list|);
            && s.list[q] in s.ptr && s.ptr[s.list[q]] == s.list[k] && s.base <= s.list[q]
            && s.list[k] in s.ptr && s.list[k] in s.size && (k > 0 ==> q == k - 1)
            && q == if d == 0 then f else Idx(f, d - 1, |s.list|)
  {
    hide State.Inv;
    RingAt(s, PrevIdx(f, d, |s.list|));
    RingAt(s, Idx(f, d, |s.list|));
  }

  lemma NeededIs(nbytes: nat)
    ensures Needed(nbytes) == (nbytes + 15) / 16 + 1
  {
  }

  lemma GainedIs(brk: Option<nat>, n: nat)
    ensures brk.Some? ==> Gained(true, brk, n) == Span(brk.value, Units(n), brk.value).Keys
  {
  }

  lemma NoSpan(cover: map<nat, nat>, brk: Option<nat>, n: nat)
    ensures cover.Keys + Gained(false, brk, n) == cover.Keys
  {
  }

  lemma NoneSeen(s: State, f: nat, n: nat)
    requires f < |s.list|
    ensures SmallTo(s, f, 0, n)
  {
  }

  lemma RingAt(s: State, k: nat)
    requires s.Inv({}) && k < |s.list|
    ensures s.list[k] in s.ptr && s.list[k] in s.size && s.ptr[s.list[k]] == s.list[Next(k, |s.list|)]
    ensures s.base <= s.list[k]
  {
    assert s.Link(k);
    if k > 0 { Rising(s, 0, k, {}); }
  }

  lemma TakeFacts(s: State, at: nat)
    requires s.Inv({}) && at < |s.list| && s.list[at] in s.size && s.size[s.list[at]] > 0
    ensures at > 0 && s.list[at] !in s.alloc
  {
    assert at > 0 ==> s.FreeOk(at);
  }

  lemma SomeFits(s: State, at: nat, n: nat)
    requires at < |s.list| && s.list[at] in s.size && s.size[s.list[at]] >= n
    ensures !NoneFits(s, n)
  {
  }

  lemma NotLast(s: State, f: nat, d: nat)
    requires s.Inv({}) && f < |s.list| && d < |s.list| && s.list[Idx(f, d, |s.list|)] != s.list[f]
    ensures d + 1 < |s.list|
  {
  }

  lemma StepSeen(s: State, f: nat, d: nat, n: nat)
    requires f < |s.list| && 0 < d < |s.list| && SmallAt(s, f, d - 1, n)
    ensures SmallTo(s, f, d - 1, n) ==> SmallTo(s, f, d, n)
    ensures BigFrom(s, f, d - 1, n) ==> BigFrom(s, f, d, n)
  {
  }

  /** Once round the list: then nothing fits, and sbrk was not asked before. */
  lemma AllSeen(s: State, f: nat, d: nat, n: nat, asked: bool)
    requires s.Inv({}) && f < |s.list| && d < |s.list| && s.list[Idx(f, d, |s.list|)] == s.list[f]
    requires SmallAt(s, f, d, n)
    requires if asked then BigFrom(s, f, d, n) else SmallTo(s, f, d, n)
    ensures !asked && NoneFits(s, n)
  {
    var at, len := Idx(f, d, |s.list|), |s.list|;
    if at < f { Rising(s, at, f, {}); } else if f < at { Rising(s, f, at, {}); }
    assert d == len - 1;
    forall k: nat | !asked && k < len ensures s.list[k] in s.size && s.size[s.list[k]] < n {
      var t := if k > f then k - f - 1 else k + len - f - 1;
      assert Idx(f, t, len) == k && (t < d ==> SmallAt(s, f, t, n));
    }
  }

  lemma BigNear(s: State, f: nat, n: nat)
    requires s.Inv({}) && f < |s.list| && s.list[f] in s.size
    requires s.size[s.list[f]] >= n || (f + 1 < |s.list| && s.list[f + 1] in s.size && s.size[s.list[f + 1]] >= n)
    ensures BigFrom(s, f, 0, n)
  {
    var len := |s.list|;
    assert Idx(f, len - 1, len) == f;
    if s.size[s.list[f]] >= n { assert !SmallAt(s, f, len - 1, n); }
      else { assert Idx(f, 0, len) == f + 1 && !SmallAt(s, f, 0, n); }
  }

  lemma FirstInv(s: State)
    requires s.list == [s.base] && s.base in s.ptr && s.ptr[s.base] == s.base && s.base in s.size && s.size[s.base] == 0
    requires s.alloc == map[] && s.cover == map[]
    ensures s.Inv({})
    ensures forall n: nat | n > 0 :: NoneFits(s, n)
  {
  }

  lemma NotYet(s: State, a: nat)
    requires s.Inv({}) && s.base < a && forall u | u in s.cover :: u < a
    ensures a !in s.list && a !in s.alloc
  {
    forall k: nat | k < |s.list| ensures s.list[k] != a {
      if k > 0 { assert s.FreeOk(k) && CoversAt(s.cover, s.list[k], s.list[k]); }
    }
    assert a in s.alloc ==> s.AllocOk(a) && CoversAt(s.cover, a, a);
  }

  /** The first half of free's merging, as if `p` already pointed to the block. */
  lemma RightDone(s: State, i: nat, b: nat, ptr: map<nat, nat>, size: map<nat, nat>) returns (s': State)
    requires s.Inv({}) && b in s.alloc && s.Before(i, b) && s.list[i] in s.ptr && b in s.size && s.size[b] == s.alloc[b]
    requires var q := s.ptr[s.list[i]];
             q in s.size && q in s.ptr
             && if b + s.size[b] == q then size == s.size[b := s.size[b] + s.size[q]] && ptr == s.ptr[b := s.ptr[q]]
                else size == s.size && ptr == s.ptr[b := q]
    ensures s'.Inv({i}) && i + 1 < |s'.list| && s'.list[i] == s.list[i] && s'.list[i + 1] == b && s'.base == s.base
    ensures s'.size == size && s'.ptr == ptr[s.list[i] := b] && s'.alloc == s.alloc - {b}
    ensures s'.cover.Keys == s.cover.Keys && size[b] >= s.alloc[b]
  {
    hide State.Inv;
    FreeFacts(s, i, b);
    if b + s.size[b] == s.ptr[s.list[i]] {
      MergeRight(s, i, b);
      s' := s.Insert(i, b).Merge(i + 1);
      RightMaps(s, i, b);
    } else {
      NoMergeRight(s, i, b);
      s' := s.Insert(i, b);
    }
  }

  lemma RightMaps(s: State, i: nat, b: nat)
    requires i + 1 < |s.list| && s.list[i] in s.ptr && b in s.size && s.list[i + 1] in s.size && s.list[i + 1] in s.ptr
    requires s.list[i] < b < s.list[i + 1] && s.ptr[s.list[i]] == s.list[i + 1]
    ensures var q := s.list[i + 1];
            var s' := s.Insert(i, b).Merge(i + 1);
            && s'.size == s.size[b := s.size[b] + s.size[q]] && s'.ptr == s.ptr[b := s.ptr[q]][s.list[i] := b]
            && i + 1 < |s'.list| && s'.list[i] == s.list[i] && s'.list[i + 1] == b && s'.cover.Keys == s.cover.Keys
  {
  }

  /** The second half. */
  lemma LeftDone(s: State, i: nat, p: nat, b: nat, ptr: map<nat, nat>, size: map<nat, nat>) returns (s': State)
    requires s.Inv({i}) && i + 1 < |s.list| && s.list[i] == p && s.list[i + 1] == b && p in s.size && b in s.size
    requires b in s.ptr && p != b
    requires if p + s.size[p] == b then size == s.size[p := s.size[p] + s.size[b]] && ptr == s.ptr[p := s.ptr[b]]
            else size == s.size && ptr == s.ptr[p := b]
    ensures s'.Inv({}) && s'.base == s.base && s'.size == size && s'.ptr == ptr && s'.alloc == s.alloc
    ensures s'.cover.Keys == s.cover.Keys
    ensures i < |s'.list| && s'.list[i] == p && p in size
    ensures (size[p] >= s.size[b] || (i + 1 < |s'.list| && s'.list[i + 1] == b && size[b] == s.size[b]))
  {
    hide State.Inv;
    MergeLeft(s, i);
    PtrAt(s, i);
    s' := if p + s.size[p] == b then s.Merge(i) else s;
  }

  lemma PtrAt(s: State, i: nat)
    requires s.Inv({i}) && i + 1 < |s.list|
    ensures s.list[i] in s.ptr && s.ptr[s.list[i]] == s.list[i + 1]
  {
    assert s.Link(i);
  }

  lemma FreeFacts(s: State, i: nat, b: nat)
    requires s.Inv({}) && b in s.alloc && s.Before(i, b)
    ensures b in s.size && s.size[b] == s.alloc[b] && s.list[i] in s.ptr && s.list[i] in s.size
    ensures s.base <= s.list[i] < b
    ensures var q := s.ptr[s.list[i]];
            q == s.list[Next(i, |s.list|)] && q in s.size && q in s.ptr && q != b && (i + 1 == |s.list| ==> q == s.base)
  {
    assert s.AllocOk(b) && s.Link(i) && s.Link(Next(i, |s.list|));
    NotListed(s, b, {});
    if i > 0 { Rising(s, 0, i, {}); }
  }
}
