/** The doubly linked circular list that kernel/bio.c threads through its buffers.

    Nodes are numbered 0..h-1 and `h` is the sentinel `bcache.head`; `next` and `prev` are
    the link fields. `order` is the sequence of nodes met from `head.next` to `head.prev`. */
module RingList {

  /** The k-th node met walking `next` from the sentinel; the sentinel itself closes the ring. */
  ghost function At(order: seq<nat>, h: nat, k: nat): nat
    requires k <= |order| + 1
  {
    if k == 0 || k == |order| + 1 then h else order[k - 1]
  }

  ghost predicate IsRing(next: seq<nat>, prev: seq<nat>, order: seq<nat>, h: nat) {
    && |next| == h + 1 && |prev| == h + 1
    && (forall k | 0 <= k < |order| :: order[k] < h)
    && (forall j, k | 0 <= j < k < |order| :: order[j] != order[k])
    && (forall k: nat | k <= |order| :: next[At(order, h, k)] == At(order, h, k + 1))
    && (forall k: nat | 1 <= k <= |order| + 1 :: prev[At(order, h, k)] == At(order, h, k - 1))
  }

  ghost function Without(order: seq<nat>, k: nat): seq<nat>
    requires k < |order|
  {
    order[..k] + order[k + 1..]
  }

  /** Skipping node order[k], the other nodes keep their order. */
  lemma AtWithout(order: seq<nat>, h: nat, k: nat, m: nat)
    requires k < |order| && m <= |order|
    ensures At(Without(order, k), h, m) == At(order, h, if m <= k then m else m + 1)
  {
  }

  lemma UnlinkNext(next: seq<nat>, prev: seq<nat>, order: seq<nat>, h: nat, k: nat, m: nat)
    requires IsRing(next, prev, order, h) && k < |order| && m < |order|
    ensures var next' := next[At(order, h, k) := At(order, h, k + 2)];
            next'[At(Without(order, k), h, m)] == At(Without(order, k), h, m + 1)
  {
    AtWithout(order, h, k, m);
    AtWithout(order, h, k, m + 1);
  }

  lemma UnlinkPrev(next: seq<nat>, prev: seq<nat>, order: seq<nat>, h: nat, k: nat, m: nat)
    requires IsRing(next, prev, order, h) && k < |order| && 1 <= m <= |order|
    ensures var prev' := prev[At(order, h, k + 2) := At(order, h, k)];
            prev'[At(Without(order, k), h, m)] == At(Without(order, k), h, m - 1)
  {
    AtWithout(order, h, k, m);
    AtWithout(order, h, k, m - 1);
  }

  /** Unlinking node order[k] (kernel/bio.c:128-129) leaves the ring of the other nodes. */
  lemma UnlinkRing(next: seq<nat>, prev: seq<nat>, order: seq<nat>, h: nat, k: nat)
    requires IsRing(next, prev, order, h) && k < |order|
    ensures next[order[k]] <= h && prev[order[k]] <= h
    ensures IsRing(next[prev[order[k]] := next[order[k]]], prev[next[order[k]] := prev[order[k]]],
                   Without(order, k), h)
  {
    assert At(order, h, k + 1) == order[k];
    assert next[order[k]] == At(order, h, k + 2) && prev[order[k]] == At(order, h, k);
    forall m: nat | m < |order| { UnlinkNext(next, prev, order, h, k, m); }
    forall m: nat | 1 <= m <= |order| { UnlinkPrev(next, prev, order, h, k, m); }
  }

  /** Linking a node in right after the sentinel (kernel/bio.c:47-51 and 130-133). */
  lemma PushFrontRing(next: seq<nat>, prev: seq<nat>, order: seq<nat>, h: nat, b: nat)
    requires IsRing(next, prev, order, h) && b < h && b !in order
    ensures next[h] <= h
    ensures IsRing(next[b := next[h]][h := b], prev[b := h][next[h] := b], [b] + order, h)
  {
    var order' := [b] + order;
    assert next[At(order, h, 0)] == At(order, h, 1);
    var next' := next[b := next[h]][h := b];
    var prev' := prev[b := h][next[h] := b];
    forall m: nat | m <= |order'|
      ensures next'[At(order', h, m)] == At(order', h, m + 1)
    {
      if m >= 1 {
        assert At(order', h, m + 1) == At(order, h, m);
        if m >= 2 { assert At(order', h, m) == At(order, h, m - 1); }
      }
    }
    forall m: nat | 1 <= m <= |order'| + 1
      ensures prev'[At(order', h, m)] == At(order', h, m - 1)
    {
      if m >= 2 {
        assert At(order', h, m) == At(order, h, m - 1);
        if m >= 3 { assert At(order', h, m - 1) == At(order, h, m - 2); }
      }
    }
  }
}
