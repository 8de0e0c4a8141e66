/** The pipe's ring buffer (kernel/pipe.c): a fixed array and two 32-bit counters that wrap, and the copying loops of
    pipewrite and piperead over it. */
module PipeRing {
  import opened Basics

  const PIPESIZE: nat := 512
  const WRAP: nat := 0x1_0000_0000

  /** The buffer of struct pipe, with its history: `ins` is all that was ever written, of which `outs` bytes
      were read. */
  datatype Buffer = Buffer(data: seq<nat>, nread: nat, nwrite: nat, ins: seq<nat>, outs: nat)
  {
    /** pi->nwrite == pi->nread + PIPESIZE, in 32 bits. */
    predicate Full() { nwrite == (nread + PIPESIZE) % WRAP }

    predicate Empty() { nread == nwrite }

    /** The slots from nread on hold the bytes not read yet. */
    ghost predicate Ok() {
      && |data| == PIPESIZE && outs <= |ins| <= outs + PIPESIZE
      && nread == outs % WRAP && nwrite == |ins| % WRAP
      && forall j: nat | outs <= j < |ins| :: Holds(j)
    }

    ghost predicate Holds(j: nat)
      requires |data| == PIPESIZE && j < |ins|
    {
      data[j % PIPESIZE] == ins[j]
    }

    /** pi->data[pi->nwrite++ % PIPESIZE] = ch. */
    function Put(ch: nat): Buffer
      requires |data| == PIPESIZE
    {
      Buffer(data[nwrite % PIPESIZE := ch], nread, (nwrite + 1) % WRAP, ins + [ch], outs)
    }

    /** pi->data[pi->nread++ % PIPESIZE]. */
    function Byte(): nat
      requires |data| == PIPESIZE
    {
      data[nread % PIPESIZE]
    }

    function Get(): Buffer { this.(nread := (nread + 1) % WRAP, outs := outs + 1) }
  }

  function NewBuffer(): Buffer { Buffer(seq(PIPESIZE, _ => 0), 0, 0, [], 0) }

  lemma Counters(outs: nat, n: nat)
    requires outs <= n <= outs + PIPESIZE
    ensures n % WRAP == (outs % WRAP + PIPESIZE) % WRAP <==> n == outs + PIPESIZE
    ensures n % WRAP == outs % WRAP <==> n == outs
  {
    var q, r := outs / WRAP, outs % WRAP;
    assert outs == q * WRAP + r;
    var d := n - outs;
    if r + d < WRAP { ModIs(n, q, r + d, WRAP); } else { ModIs(n, q + 1, r + d - WRAP, WRAP); }
  }

  /** The 32-bit counter and the unbounded one reach the same slot. */
  lemma SlotOf(n: nat)
    ensures n % WRAP % PIPESIZE == n % PIPESIZE && (n % WRAP + 1) % WRAP == (n + 1) % WRAP
  {
    var q, r := n / WRAP, n % WRAP;
    assert n == q * WRAP + r;
    assert n == PIPESIZE * (q * (WRAP / PIPESIZE) + r / PIPESIZE) + r % PIPESIZE;
    if r + 1 < WRAP { ModIs(n + 1, q, r + 1, WRAP); } else { ModIs(n + 1, q + 1, 0, WRAP); }
  }

  /** Bytes in the buffer at the same time have different slots. */
  lemma Apart(j: nat, n: nat)
    requires j <= n < j + PIPESIZE
    ensures j % PIPESIZE == n % PIPESIZE ==> j == n
  {
  }

  /** The wrapping tests are exact. */
  lemma TestsExact(b: Buffer)
    requires b.Ok()
    ensures (b.Full() <==> |b.ins| == b.outs + PIPESIZE) && (b.Empty() <==> |b.ins| == b.outs)
  {
    Counters(b.outs, |b.ins|);
  }

  /** A byte put into a buffer that is not full overwrites none that is still to be read. */
  lemma PutOk(b: Buffer, ch: nat)
    requires b.Ok() && !b.Full()
    ensures b.Put(ch).Ok() && !b.Put(ch).Empty()
  {
    TestsExact(b);
    SlotOf(|b.ins|);
    var c := b.Put(ch);
    forall j: nat | c.outs <= j < |c.ins| ensures c.Holds(j) {
      Apart(j, |b.ins|);
      if j < |b.ins| { assert b.Holds(j); }
    }
    TestsExact(c);
  }

  /** The byte taken is the oldest. */
  lemma GetOk(b: Buffer)
    requires b.Ok() && !b.Empty()
    ensures b.outs < |b.ins| && b.Byte() == b.ins[b.outs] && b.Get().Ok() && !b.Get().Full()
  {
    TestsExact(b);
    SlotOf(b.outs);
    var c := b.Get();
    assert b.Holds(b.outs);
    forall j: nat | c.outs <= j < |c.ins| ensures c.Holds(j) { assert b.Holds(j); }
    TestsExact(c);
  }

  /** struct pipe's buffer, changed in place. */
  class Ring {
    var data: array<nat>
    var nread: nat
    var nwrite: nat
    ghost var ins: seq<nat>
    ghost var outs: nat

    ghost function V(): Buffer
      reads this, data
    {
      Buffer(data[..], nread, nwrite, ins, outs)
    }

    constructor ()
      ensures V() == NewBuffer() && V().Ok() && fresh(data)
    {
      data := new nat[PIPESIZE](_ => 0);
      nread, nwrite, ins, outs := 0, 0, [], 0;
    }

    method Put(ch: nat)
      requires V().Ok() && !V().Full()
      modifies this`nwrite, this`ins, data
      ensures V() == old(V()).Put(ch) && V().Ok()
    {
      PutOk(V(), ch);
      data[nwrite % PIPESIZE] := ch;
      nwrite := (nwrite + 1) % WRAP;
      ins := ins + [ch];
    }

    method Get() returns (ch: nat)
      requires V().Ok() && !V().Empty()
      modifies this`nread, this`outs
      ensures V() == old(V()).Get() && V().Ok() && old(outs) < |ins| && ch == ins[old(outs)]
    {
      GetOk(V());
      ch := data[nread % PIPESIZE];
      nread := (nread + 1) % WRAP;
      outs := outs + 1;
    }

    /** pipewrite's loop up to where it sleeps, stops or is done (kernel/pipe.c:83-98): of the bytes of
        `src`, of which `avail` can be read, those from `i` on that fit go in, in order. */
    method Fill(src: seq<nat>, avail: nat, i: nat) returns (k: nat, failed: bool)
      requires V().Ok() && i <= avail <= |src|
      modifies this`nwrite, this`ins, data
      ensures V().Ok() && i <= k <= avail && ins == old(ins) + src[i..k]
      ensures failed ==> k == avail < |src|
      ensures !failed ==> k == |src| || |ins| == outs + PIPESIZE
    {
      hide Buffer.Ok;
      k, failed := i, false;
      while k < |src| && nwrite != (nread + PIPESIZE) % WRAP
        invariant i <= k <= avail && V().Ok() && ins == old(ins) + src[i..k] && data == old(data)
      {
        if k == avail {
          failed := true;
          return;
        }
        Put(src[k]);
        k := k + 1;
      }
      TestsExact(V());
    }

    /** piperead's loop (kernel/pipe.c:120-126): at most `n` bytes come out, in order, to where `room` bytes
        can be stored; the byte that cannot be stored is lost. */
    method Drain(n: nat, room: nat) returns (out: seq<nat>)
      requires V().Ok()
      modifies this`nread, this`outs
      ensures V().Ok() && old(outs) <= outs <= |ins| && |out| <= n && |out| <= room
      ensures outs - old(outs) == |out| + (if |out| < n && |out| == room && old(outs) + |out| < |ins| then 1 else 0)
      ensures out == ins[old(outs)..old(outs) + |out|]
      ensures |out| == n || |out| == room || outs == |ins|
    {
      out := [];
      var i := 0;
      while i < n
        invariant i == |out| <= n && |out| <= room && V().Ok() && outs == old(outs) + |out|
        invariant out == ins[old(outs)..outs]
      {
        TestsExact(V());
        if nread == nwrite {
          return;
        }
        var ch := Get();
        if i == room {
          return;
        }
        out := out + [ch];
        i := i + 1;
      }
    }
  }
}
