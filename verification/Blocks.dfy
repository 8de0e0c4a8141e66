/** Disk blocks, single block writes, and the effect of a sequence of writes.

    A block is BSIZE = 1024 bytes, seen here as 256 machine words; the log header
    (kernel/log.c) is an array of words at the start of a block. */
module Blocks {
  import opened Basics

  const WORDS: nat := 256

  type Block = b: seq<int> | |b| == WORDS witness seq(WORDS, _ => 0)

  /** One synchronous, atomic block write: what `bwrite` hands to the disk. */
  datatype Write = Write(bno: nat, data: Block)

  ghost predicate InRange(ws: seq<Write>, size: nat) {
    forall k | 0 <= k < |ws| :: ws[k].bno < size
  }

  /** The disk after the first `n` of the writes `ws`. */
  ghost function After(disk: seq<Block>, ws: seq<Write>, n: nat): (r: seq<Block>)
    requires InRange(ws, |disk|) && n <= |ws|
    ensures |r| == |disk|
  {
    if n == 0 then disk
    else After(disk, ws, n - 1)[ws[n - 1].bno := ws[n - 1].data]
  }

  /** The disk after all the writes `ws`. */
  ghost function Apply(disk: seq<Block>, ws: seq<Write>): (r: seq<Block>)
    requires InRange(ws, |disk|)
    ensures |r| == |disk|
  {
    After(disk, ws, |ws|)
  }

  lemma TakeSnoc<T>(s: seq<T>, n: nat)
    requires n < |s|
    ensures s[..n + 1] == s[..n] + [s[n]]
  {
  }

  /** Only the writes taken matter. */
  lemma {:induction false} AfterPrefix(disk: seq<Block>, a: seq<Write>, b: seq<Write>, n: nat)
    requires InRange(a, |disk|) && InRange(b, |disk|) && n <= |a| && n <= |b|
    requires forall k | 0 <= k < n :: a[k] == b[k]
    ensures After(disk, a, n) == After(disk, b, n)
  {
    if n > 0 {
      AfterPrefix(disk, a, b, n - 1);
    }
  }

  lemma {:induction false} AfterConcat(disk: seq<Block>, a: seq<Write>, b: seq<Write>, n: nat)
    requires InRange(a, |disk|) && InRange(b, |disk|) && n <= |b|
    ensures InRange(a + b, |disk|)
    ensures After(disk, a + b, |a| + n) == After(Apply(disk, a), b, n)
  {
    if n == 0 {
      AfterPrefix(disk, a + b, a, |a|);
    } else {
      AfterConcat(disk, a, b, n - 1);
    }
  }

  /** The position of the last of the first `n` writes to block `b`, or -1. */
  ghost function LastTo(ws: seq<Write>, n: nat, b: int): (k: int)
    requires n <= |ws|
    ensures -1 <= k < n
    ensures k >= 0 ==> ws[k].bno == b
    ensures forall j | k < j < n :: ws[j].bno != b
  {
    if n == 0 then -1 else if ws[n - 1].bno == b then n - 1 else LastTo(ws, n - 1, b)
  }

  /** A block holds the last data written to it, or its old contents when it is not written. */
  lemma {:induction false} AfterAt(disk: seq<Block>, ws: seq<Write>, n: nat, b: nat)
    requires InRange(ws, |disk|) && n <= |ws| && b < |disk|
    ensures var k := LastTo(ws, n, b);
            After(disk, ws, n)[b] == if k >= 0 then ws[k].data else disk[b]
  {
    if n > 0 {
      AfterAt(disk, ws, n - 1, b);
    }
  }
}
