/** The heap of user/umalloc.c (after section 8.7 of The C Programming Language, 2nd edition) as a value:
    block headers, the circular free list, and what memory belongs to which block.

    Addresses count units of sizeof(Header). `base` is the address of the static header, below all
    memory obtained from sbrk. */
module HeapState {
  /** The place after `k` in a ring of `n`. */
  function Next(k: nat, n: nat): (j: nat)
    requires k < n
    ensures j < n
  {
    if k + 1 == n then 0 else k + 1
  }

  /** The units [a, a+n), all in block `b`. */
  ghost function Span(a: nat, n: nat, b: nat): (m: map<nat, nat>)
    ensures forall u: nat :: u in m <==> a <= u < a + n
    ensures forall u | u in m :: m[u] == b
  {
    if n == 0 then map[] else Span(a, n - 1, b)[a + n - 1 := b]
  }

  /** The units [a, a+n) belong to block `a`. */
  ghost predicate Covers(cover: map<nat, nat>, a: nat, n: nat) {
    forall u: nat | a <= u < a + n :: CoversAt(cover, a, u)
  }

  ghost predicate CoversAt(cover: map<nat, nat>, a: nat, u: nat) { u in cover && cover[u] == a }

  datatype State = State(
    base: nat,
    ptr: map<nat, nat>, size: map<nat, nat>,   // the headers
    list: seq<nat>,                            // the free list from the base header on, rising
    alloc: map<nat, nat>,                      // blocks given out, with their sizes
    cover: map<nat, nat>)                      // the block each unit obtained belongs to
  {
    /** The links of the list. */
    ghost predicate Link(k: nat)
      requires k < |list|
    {
      list[k] in ptr && list[k] in size && ptr[list[k]] == list[Next(k, |list|)]
    }

    /** Blocks rise in the list and do not touch; at the places `loose` they may. */
    ghost predicate Order(k: nat, loose: set<nat>)
      requires k + 1 < |list|
    {
      && list[k] in size
      && (list[k] + size[list[k]] < list[k + 1] || (k in loose && list[k] + size[list[k]] == list[k + 1]))
    }

    ghost predicate FreeOk(k: nat)
      requires 0 < k < |list|
    {
      && base < list[k] && list[k] in size && size[list[k]] > 0
      && Covers(cover, list[k], size[list[k]]) && list[k] !in alloc
    }

    ghost predicate AllocOk(a: nat)
      requires a in alloc
    {
      base < a && alloc[a] > 0 && a in size && size[a] == alloc[a] && Covers(cover, a, alloc[a])
    }

    /** Each unit lies in its block, which is free or given out. */
    ghost predicate UnitOk(u: nat)
      requires u in cover
    {
      var a := cover[u];
      base < a <= u && if a in alloc then u < a + alloc[a] else a in list && a in size && u < a + size[a]
    }

    /** Free and allocated blocks tile all memory obtained, and the list is in order. */
    ghost predicate Inv(loose: set<nat>) {
      && list != [] && list[0] == base && base in size && size[base] == 0
      && (forall k: nat | k < |list| :: Link(k))
      && (forall k: nat | k + 1 < |list| :: Order(k, loose))
      && (forall k: nat | 0 < k < |list| :: FreeOk(k))
      && (forall a | a in alloc :: AllocOk(a))
      && (forall u | u in cover :: UnitOk(u))
    }

    /** Block `i` of the list is the one before address `b`. */
    ghost predicate Before(i: nat, b: nat) {
      i < |list| && list[i] < b && (i + 1 < |list| ==> b < list[i + 1])
    }

    /** The units [a, a+n) pass to block `b`. */
    ghost function Recover(a: nat, n: nat, b: nat): map<nat, nat> {
      map u | u in cover :: if a <= u < a + n then b else cover[u]
    }

    /** free puts `b` after block `i`, without merging. */
    ghost function Insert(i: nat, b: nat): State
      requires i < |list| && list[i] in ptr
    {
      State(base, ptr[b := ptr[list[i]]][list[i] := b], size, list[..i + 1] + [b] + list[i + 1..], alloc - {b}, cover)
    }

    /** Block `i` of the list takes in the next one. */
    ghost function Merge(i: nat): State
      requires i + 1 < |list| && list[i] in size && list[i + 1] in size && list[i + 1] in ptr
    {
      var a, b := list[i], list[i + 1];
      State(base, ptr[a := ptr[b]], size[a := size[a] + size[b]], list[..i + 1] + list[i + 2..],
            alloc, Recover(b, size[b], a))
    }

    /** malloc takes block `i + 1` of the list as a whole. */
    ghost function TakeWhole(i: nat): State
      requires i + 1 < |list| && list[i + 1] in ptr && list[i + 1] in size
    {
      var b := list[i + 1];
      State(base, ptr[list[i] := ptr[b]], size, list[..i + 1] + list[i + 2..], alloc[b := size[b]], cover)
    }

    /** malloc cuts `n` units off the end of block `k`. */
    ghost function TakeTail(k: nat, n: nat): State
      requires k < |list| && list[k] in size && n < size[list[k]]
    {
      var a := list[k];
      var q := a + size[a] - n;
      State(base, ptr, size[a := size[a] - n][q := n], list, alloc[q := n], Recover(q, n, q))
    }

    /** sbrk gave the units [a, a+n), which start as a block in use. */
    ghost function Extend(a: nat, n: nat): State {
      State(base, ptr, size[a := n], list, alloc[a := n], cover + Span(a, n, a))
    }
  }

  /** The list is strictly rising. */
  lemma {:induction false} Rising(s: State, i: nat, j: nat, loose: set<nat>)
    requires s.Inv(loose) && i < j < |s.list|
    ensures s.list[i] in s.size && s.list[i] + s.size[s.list[i]] <= s.list[j] && s.list[i] < s.list[j]
    decreases j - i
  {
    assert s.Order(j - 1, loose);
    if i == 0 { assert s.Link(0); } else { assert s.FreeOk(i); }
    if i < j - 1 {
      Rising(s, i, j - 1, loose);
    }
    assert s.FreeOk(j);
    if j - 1 > 0 { assert s.FreeOk(j - 1); }
  }

  /** Two blocks share no unit. */
  lemma Apart(s: State, a: nat, m: nat, b: nat, n: nat)
    requires Covers(s.cover, a, m) && Covers(s.cover, b, n) && m > 0 && n > 0 && a < b
    ensures a + m <= b
  {
    assert CoversAt(s.cover, b, b) && (b < a + m ==> CoversAt(s.cover, a, b));
  }

  /** No block given out is in the list. */
  lemma NotListed(s: State, b: nat, loose: set<nat>)
    requires s.Inv(loose) && b in s.alloc
    ensures b !in s.list
  {
    assert s.AllocOk(b);
    forall k: nat | k < |s.list| ensures s.list[k] != b { if k > 0 { assert s.FreeOk(k); } }
  }

  lemma InsertLink(s: State, i: nat, b: nat, k: nat)
    requires s.Inv({}) && i < |s.list| && b !in s.list && b in s.size && s.list[i] in s.ptr && k <= |s.list|
    ensures s.Insert(i, b).Link(k)
  {
    var s' := s.Insert(i, b);
    assert s.Link(i);
    if k < i {
      assert s.Link(k);
      Rising(s, k, i, {});
    } else if k > i + 1 {
      assert s.Link(k - 1);
      Rising(s, i, k - 1, {});
    }
  }

  /** free's first step: the block goes back into the list, and may touch its neighbours. */
  lemma InsertInv(s: State, i: nat, b: nat)
    requires s.Inv({}) && b in s.alloc && s.Before(i, b)
    ensures s.list[i] in s.ptr && b in s.size && s.Insert(i, b).Inv({i, i + 1})
  {
    assert s.Link(i) && s.AllocOk(b);
    NotListed(s, b, {});
    var s' := s.Insert(i, b);
    forall k: nat | k < |s'.list| ensures s'.Link(k) { InsertLink(s, i, b, k); }
    var loose := {i, i + 1};
    forall k: nat | k + 1 < |s'.list| ensures s'.Order(k, loose) { InsertOrder(s, i, b, k); }
    forall k: nat | 0 < k < |s'.list| ensures s'.FreeOk(k) {
      if k <= i { assert s.FreeOk(k) && s'.list[k] == s.list[k]; } else if k > i + 1 { assert s.FreeOk(k - 1); }
    }
    forall a | a in s'.alloc ensures s'.AllocOk(a) { assert s.AllocOk(a); }
    forall u | u in s'.cover ensures s'.UnitOk(u) { assert s.UnitOk(u); InsertKeeps(s.list, i, b, s.cover[u]); }
  }

  lemma InsertKeeps(l: seq<nat>, i: nat, b: nat, x: nat)
    requires i < |l|
    ensures x in l || x == b ==> x in l[..i + 1] + [b] + l[i + 1..]
  {
    assert l == l[..i + 1] + l[i + 1..];
  }

  lemma InsertOrder(s: State, i: nat, b: nat, k: nat)
    requires s.Inv({}) && b in s.alloc && s.Before(i, b) && s.list[i] in s.ptr && k < |s.list|
    ensures s.Insert(i, b).Order(k, {i, i + 1})
  {
    assert s.AllocOk(b) && s.Link(i);
    if k < i {
      assert s.Order(k, {});
    } else if k == i {
      if i > 0 { assert s.FreeOk(i); Apart(s, s.list[i], s.size[s.list[i]], b, s.alloc[b]); }
    } else if k == i + 1 {
      assert s.FreeOk(i + 1);
      Apart(s, b, s.alloc[b], s.list[i + 1], s.size[s.list[i + 1]]);
    } else {
      assert s.Order(k - 1, {});
    }
  }

  /** Neighbours that do not touch. */
  lemma Tighten(s: State, loose: set<nat>, k: nat)
    requires s.Inv(loose + {k})
    requires (k + 1 < |s.list| ==> s.list[k] in s.size && s.list[k] + s.size[s.list[k]] != s.list[k + 1])
    ensures s.Inv(loose)
  {
    forall j: nat | j + 1 < |s.list| ensures s.Order(j, loose) { assert s.Order(j, loose + {k}); }
  }

  lemma MergeLink(s: State, i: nat, loose: set<nat>, k: nat)
    requires s.Inv(loose) && 0 < i && i + 1 < |s.list| && s.list[i] in s.size && s.list[i + 1] in s.size
    requires s.list[i + 1] in s.ptr
    requires k + 1 < |s.list|
    ensures s.Merge(i).Link(k)
  {
    assert s.Link(i) && s.Link(i + 1);
    if k < i {
      assert s.Link(k);
      Rising(s, k, i, loose);
    } else if k > i {
      assert s.Link(k + 1);
      Rising(s, i, k + 1, loose);
    }
  }

  /** free merges two neighbours that touch. */
  lemma MergeInv(s: State, i: nat, loose: set<nat>)
    requires s.Inv(loose + {i}) && 0 < i && i + 1 < |s.list| && s.list[i] in s.size && (forall k | k in loose :: k < i)
    requires s.list[i] + s.size[s.list[i]] == s.list[i + 1]
    ensures s.list[i + 1] in s.size && s.list[i + 1] in s.ptr && s.Merge(i).Inv(loose)
  {
    assert s.Link(i) && s.Link(i + 1) && s.FreeOk(i) && s.FreeOk(i + 1);
    var s' := s.Merge(i);
    forall k: nat | k < |s'.list| ensures s'.Link(k) { MergeLink(s, i, loose + {i}, k); }
    forall k: nat | k + 1 < |s'.list| ensures s'.Order(k, loose) { MergeOrder(s, i, loose, k); }
    forall k: nat | 0 < k < |s'.list| ensures s'.FreeOk(k) { MergeFree(s, i, loose + {i}, k); }
    forall a | a in s'.alloc ensures s'.AllocOk(a) { MergeAlloc(s, i, loose + {i}, a); }
    forall u | u in s'.cover ensures s'.UnitOk(u) { MergeUnit(s, i, loose + {i}, u); }
  }

  lemma MergeOrder(s: State, i: nat, loose: set<nat>, k: nat)
    requires s.Inv(loose + {i}) && 0 < i && i + 1 < |s.list| && s.list[i] in s.size && s.list[i + 1] in s.size
    requires s.list[i + 1] in s.ptr
    requires (forall j | j in loose :: j < i) && k + 2 < |s.list| && s.list[i] + s.size[s.list[i]] == s.list[i + 1]
    ensures s.Merge(i).Order(k, loose)
  {
    assert s.FreeOk(i + 1);
    if k < i {
      assert s.Order(k, loose + {i});
      Rising(s, k, i, loose + {i});
    } else {
      assert s.Order(k + 1, loose + {i});
      Rising(s, i, k + 1, loose + {i});
    }
  }

  lemma MergeFree(s: State, i: nat, loose: set<nat>, k: nat)
    requires s.Inv(loose) && 0 < i && i + 1 < |s.list| && s.list[i] in s.size && s.list[i + 1] in s.size
    requires s.list[i + 1] in s.ptr
    requires s.list[i] + s.size[s.list[i]] == s.list[i + 1] && 0 < k < |s.list| - 1
    ensures s.Merge(i).FreeOk(k)
  {
    var s' := s.Merge(i);
    var j := if k <= i then k else k + 1;
    assert s.FreeOk(j) && s.FreeOk(i) && s.FreeOk(i + 1) && s'.list[k] == s.list[j];
    var a, n := s'.list[k], s'.size[s'.list[k]];
    if j < i { Rising(s, j, i, loose); } else if j > i { Rising(s, i, j, loose); Rising(s, i + 1, j, loose); }
    forall u: nat | a <= u < a + n ensures CoversAt(s'.cover, a, u) {
      if j == i && u >= s.list[i + 1] {
        assert CoversAt(s.cover, s.list[i + 1], u);
      } else {
        assert CoversAt(s.cover, a, u);
      }
    }
  }

  lemma MergeAlloc(s: State, i: nat, loose: set<nat>, a: nat)
    requires s.Inv(loose) && 0 < i && i + 1 < |s.list| && s.list[i] in s.size && s.list[i + 1] in s.size
    requires s.list[i + 1] in s.ptr && a in s.alloc
    ensures s.Merge(i).AllocOk(a)
  {
    assert s.AllocOk(a) && s.FreeOk(i) && s.FreeOk(i + 1);
    var b := s.list[i + 1];
    if a < b { Apart(s, a, s.alloc[a], b, s.size[b]); } else { Apart(s, b, s.size[b], a, s.alloc[a]); }
    forall u: nat | a <= u < a + s.alloc[a] ensures CoversAt(s.Merge(i).cover, a, u) { assert CoversAt(s.cover, a, u); }
  }

  lemma MergeUnit(s: State, i: nat, loose: set<nat>, u: nat)
    requires s.Inv(loose) && 0 < i && i + 1 < |s.list| && s.list[i] in s.size && s.list[i + 1] in s.size
    requires s.list[i + 1] in s.ptr && u in s.cover
    requires s.list[i] + s.size[s.list[i]] == s.list[i + 1]
    ensures s.Merge(i).UnitOk(u)
  {
    var s', a, b := s.Merge(i), s.list[i], s.list[i + 1];
    assert s.UnitOk(u) && s.FreeOk(i) && s.FreeOk(i + 1);
    RemoveKeeps(s.list, i + 1, s.cover[u]);
    RemoveKeeps(s.list, i + 1, a);
    assert b <= u < b + s.size[b] ==> CoversAt(s.cover, b, u);
    assert s.cover[u] == b ==> u < b + s.size[b];
  }

  lemma RemoveKeeps(l: seq<nat>, i: nat, x: nat)
    requires i < |l|
    ensures x in l && x != l[i] ==> x in l[..i] + l[i + 1..]
  {
    assert l == l[..i] + [l[i]] + l[i + 1..];
  }

  /** malloc of a block that fits exactly. */
  lemma TakeWholeInv(s: State, i: nat)
    requires s.Inv({}) && i + 1 < |s.list|
    ensures s.list[i + 1] in s.ptr && s.list[i + 1] in s.size && s.TakeWhole(i).Inv({})
  {
    assert s.Link(i) && s.Link(i + 1) && s.FreeOk(i + 1);
    var s', b := s.TakeWhole(i), s.list[i + 1];
    forall k: nat | k < |s'.list| ensures s'.Link(k) { WholeLink(s, i, k); }
    forall k: nat | k + 1 < |s'.list| ensures s'.Order(k, {}) { WholeOrder(s, i, k); }
    forall k: nat | 0 < k < |s'.list| ensures s'.FreeOk(k) {
      var j := if k <= i then k else k + 1;
      assert s.FreeOk(j) && s'.list[k] == s.list[j];
      if j <= i { Rising(s, j, i + 1, {}); } else { Rising(s, i + 1, j, {}); }
    }
    forall a | a in s'.alloc ensures s'.AllocOk(a) { if a != b { assert s.AllocOk(a); } }
    forall u | u in s'.cover ensures s'.UnitOk(u) { assert s.UnitOk(u); RemoveKeeps(s.list, i + 1, s.cover[u]); }
  }

  lemma WholeLink(s: State, i: nat, k: nat)
    requires s.Inv({}) && i + 1 < |s.list| && k + 1 < |s.list| && s.list[i + 1] in s.ptr && s.list[i + 1] in s.size
    ensures s.TakeWhole(i).Link(k)
  {
    assert s.Link(i) && s.Link(i + 1);
    if k < i {
      assert s.Link(k);
      Rising(s, k, i, {});
    } else if k > i {
      assert s.Link(k + 1);
      Rising(s, i, k + 1, {});
    }
  }

  lemma WholeOrder(s: State, i: nat, k: nat)
    requires s.Inv({}) && i + 1 < |s.list| && k + 2 < |s.list| && s.list[i + 1] in s.ptr && s.list[i + 1] in s.size
    ensures s.TakeWhole(i).Order(k, {})
  {
    if k < i {
      assert s.Order(k, {});
    } else {
      assert s.Order(k + 1, {}) && s.Order(k, {}) && s.FreeOk(k + 1);
    }
  }

  /** malloc of the end of a larger block. */
  lemma TakeTailInv(s: State, k: nat, n: nat)
    requires s.Inv({}) && 0 < k < |s.list| && s.list[k] in s.size && 0 < n < s.size[s.list[k]]
    ensures s.TakeTail(k, n).Inv({})
    ensures s.list[k] + s.size[s.list[k]] - n !in s.alloc
  {
    TailNew(s, k, n);
    var s' := s.TakeTail(k, n);
    forall j: nat | j < |s.list| ensures s'.Link(j) { assert s.Link(j); }
    forall j: nat | j + 1 < |s.list| ensures s'.Order(j, {}) { TailOrder(s, k, n, j); }
    forall j: nat | 0 < j < |s.list| ensures s'.FreeOk(j) { TailFree(s, k, n, j); }
    forall b | b in s'.alloc ensures s'.AllocOk(b) { TailAlloc(s, k, n, b); }
    forall u | u in s'.cover ensures s'.UnitOk(u) { TailUnit(s, k, n, u); }
  }

  lemma TailNew(s: State, k: nat, n: nat)
    requires s.Inv({}) && 0 < k < |s.list| && s.list[k] in s.size && 0 < n < s.size[s.list[k]]
    ensures var q := s.list[k] + s.size[s.list[k]] - n; q !in s.alloc && q !in s.list
  {
    var a := s.list[k];
    var q := a + s.size[a] - n;
    assert s.FreeOk(k) && CoversAt(s.cover, a, q);
    assert q in s.alloc ==> s.AllocOk(q) && CoversAt(s.cover, q, q);
    forall j: nat | j < |s.list| ensures s.list[j] != q {
      if j > 0 { assert s.FreeOk(j) && CoversAt(s.cover, s.list[j], s.list[j]); }
    }
  }

  lemma TailOrder(s: State, k: nat, n: nat, j: nat)
    requires s.Inv({}) && 0 < k < |s.list| && s.list[k] in s.size && 0 < n < s.size[s.list[k]] && j + 1 < |s.list|
    requires s.list[k] + s.size[s.list[k]] - n !in s.list
    ensures s.TakeTail(k, n).Order(j, {})
  {
    assert s.Order(j, {});
    if j < k { Rising(s, j, k, {}); } else if j > k { Rising(s, k, j, {}); }
  }

  lemma TailFree(s: State, k: nat, n: nat, j: nat)
    requires s.Inv({}) && 0 < k < |s.list| && s.list[k] in s.size && 0 < n < s.size[s.list[k]] && 0 < j < |s.list|
    requires s.list[j] != s.list[k] + s.size[s.list[k]] - n
    ensures s.TakeTail(k, n).FreeOk(j)
  {
    var s', a := s.TakeTail(k, n), s.list[j];
    assert s.FreeOk(k) && s.FreeOk(j);
    if j < k { Rising(s, j, k, {}); } else if j > k { Rising(s, k, j, {}); }
    forall u: nat | a <= u < a + s'.size[a] ensures CoversAt(s'.cover, a, u) { assert CoversAt(s.cover, a, u); }
  }

  lemma TailAlloc(s: State, k: nat, n: nat, b: nat)
    requires s.Inv({}) && 0 < k < |s.list| && s.list[k] in s.size && 0 < n < s.size[s.list[k]]
    requires b in s.TakeTail(k, n).alloc
    ensures s.TakeTail(k, n).AllocOk(b)
  {
    var s', a := s.TakeTail(k, n), s.list[k];
    var q := a + s.size[a] - n;
    assert s.FreeOk(k);
    if b != q {
      assert s.AllocOk(b);
      if a < b { Apart(s, a, s.size[a], b, s.alloc[b]); } else { Apart(s, b, s.alloc[b], a, s.size[a]); }
    }
    forall u: nat | b <= u < b + s'.alloc[b] ensures CoversAt(s'.cover, b, u) {
      assert CoversAt(s.cover, if b == q then a else b, u);
    }
  }

  lemma TailUnit(s: State, k: nat, n: nat, u: nat)
    requires s.Inv({}) && 0 < k < |s.list| && s.list[k] in s.size && 0 < n < s.size[s.list[k]] && u in s.cover
    requires s.list[k] + s.size[s.list[k]] - n !in s.alloc && s.list[k] + s.size[s.list[k]] - n !in s.list
    ensures s.TakeTail(k, n).UnitOk(u)
  {
    assert s.UnitOk(u) && s.FreeOk(k);
    var a := s.list[k];
    assert a <= u < a + s.size[a] ==> CoversAt(s.cover, a, u);
  }

  /** New memory above all other. */
  lemma ExtendInv(s: State, a: nat, n: nat)
    requires s.Inv({}) && n > 0 && s.base < a && (forall u | u in s.cover :: u < a) && a !in s.list
    ensures s.Extend(a, n).Inv({})
  {
    var s' := s.Extend(a, n);
    forall k: nat | k < |s.list| ensures s'.Link(k) { assert s.Link(k); }
    forall k: nat | k + 1 < |s.list| ensures s'.Order(k, {}) { assert s.Order(k, {}); }
    forall k: nat | 0 < k < |s.list| ensures s'.FreeOk(k) {
      assert s.FreeOk(k);
      ExtendCovers(s, a, n, s.list[k], s.size[s.list[k]]);
    }
    forall b | b in s'.alloc ensures s'.AllocOk(b) {
      if b != a {
        assert s.AllocOk(b);
        ExtendCovers(s, a, n, b, s.alloc[b]);
      } else {
        forall u: nat | a <= u < a + n ensures CoversAt(s'.cover, a, u) {}
      }
    }
    forall u | u in s'.cover ensures s'.UnitOk(u) { ExtendUnit(s, a, n, u); }
  }

  lemma ExtendUnit(s: State, a: nat, n: nat, u: nat)
    requires s.Inv({}) && n > 0 && s.base < a && (forall v | v in s.cover :: v < a) && a !in s.list
    requires u in s.Extend(a, n).cover
    ensures s.Extend(a, n).UnitOk(u)
  {
    if !(a <= u < a + n) { assert s.UnitOk(u); }
  }

  lemma ExtendCovers(s: State, a: nat, n: nat, b: nat, m: nat)
    requires Covers(s.cover, b, m) && forall u | u in s.cover :: u < a
    ensures Covers(s.Extend(a, n).cover, b, m)
  {
    forall u: nat | b <= u < b + m ensures CoversAt(s.Extend(a, n).cover, b, u) { assert CoversAt(s.cover, b, u); }
  }

  /** Blocks given out do not overlap, and all of them were obtained from sbrk. */
  lemma Disjoint(s: State, a: nat, b: nat)
    requires s.Inv({}) && a in s.alloc && b in s.alloc && a != b
    ensures a + s.alloc[a] <= b || b + s.alloc[b] <= a
    ensures forall u: nat | a <= u < a + s.alloc[a] :: u in s.cover
  {
    assert s.AllocOk(a) && s.AllocOk(b);
    if a < b { Apart(s, a, s.alloc[a], b, s.alloc[b]); } else { Apart(s, b, s.alloc[b], a, s.alloc[a]); }
    forall u: nat | a <= u < a + s.alloc[a] ensures u in s.cover { assert CoversAt(s.cover, a, u); }
  }

  /** Nor does a block given out overlap a free one; the first of the list is the base header alone. */
  lemma DisjointFree(s: State, a: nat, k: nat)
    requires s.Inv({}) && a in s.alloc && 0 < k < |s.list|
    ensures s.list[k] in s.size
    ensures s.list[k] + s.size[s.list[k]] <= a || a + s.alloc[a] <= s.list[k]
  {
    assert s.AllocOk(a) && s.FreeOk(k);
    if a < s.list[k] {
      Apart(s, a, s.alloc[a], s.list[k], s.size[s.list[k]]);
    } else {
      Apart(s, s.list[k], s.size[s.list[k]], a, s.alloc[a]);
    }
  }
}
