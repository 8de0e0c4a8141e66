/** What a call to pipewrite or piperead (kernel/pipe.c) moves: in every run the bytes still to move and those moved
    since the call make up the number asked for, and what goes in are the bytes written, in the order of the writes. */
module PipeCalls {
  import opened PipeRing
  import opened Pipe

  /** The bytes a process in a call still has to move. */
  function Left(pc: Pc): nat {
    if pc.Rouse? then (if pc.next.WriteDoze? then pc.next.left else 0)
    else if pc.Out? || pc.CloseWait? then 0
    else pc.left
  }

  /** The bytes that process `p` put in, or took out, in the steps [j, i). */
  ghost function Puts(acts: seq<Act>, j: nat, i: nat, p: nat): nat
    requires i <= |acts|
    decreases i
  {
    if i <= j then 0 else Puts(acts, j, i - 1, p) + if acts[i - 1].p == p && acts[i - 1].e.PutByte? then 1 else 0
  }

  ghost function Gets(acts: seq<Act>, j: nat, i: nat, p: nat): nat
    requires i <= |acts|
    decreases i
  {
    if i <= j then 0 else Gets(acts, j, i - 1, p) + if acts[i - 1].p == p && acts[i - 1].e == GetByte then 1 else 0
  }

  predicate IsCall(e: Step) { e.CallWrite? || e.CallRead? || e.CallClose? }

  ghost predicate Ready(s: State, p: nat, e: Step) {
    p < |s.pc| && |s.b.data| == PIPESIZE && Can(s, p, e) && s.EndsOk(p)
  }

  lemma WriteStep(s: State, p: nat, e: Step, q: nat)
    requires Ready(s, p, e) && q < |s.pc|
    ensures q < |Do(s, p, e).pc|
    ensures InWrite(Do(s, p, e).pc[q]) ==>
              if q == p && e.CallWrite? then Left(Do(s, p, e).pc[q]) == e.n
              else && InWrite(s.pc[q]) && (q == p ==> !IsCall(e))
                   && Left(s.pc[q]) == Left(Do(s, p, e).pc[q]) + (if q == p && e.PutByte? then 1 else 0)
  {
    hide Buffer.Ok, Buffer.Put, Buffer.Get, Buffer.Full, Buffer.Empty, Buffer.Byte;
    if q != p { OtherPc(s, p, e, q); }
  }

  lemma ReadStep(s: State, p: nat, e: Step, q: nat)
    requires Ready(s, p, e) && q < |s.pc|
    ensures q < |Do(s, p, e).pc|
    ensures InRead(Do(s, p, e).pc[q]) ==>
              if q == p && e.CallRead? then Left(Do(s, p, e).pc[q]) == e.n
              else && InRead(s.pc[q]) && (q == p ==> !IsCall(e))
                   && Left(s.pc[q]) == Left(Do(s, p, e).pc[q]) + (if q == p && e == GetByte then 1 else 0)
  {
    hide Buffer.Ok, Buffer.Put, Buffer.Get, Buffer.Full, Buffer.Empty, Buffer.Byte;
    if q != p { OtherPc(s, p, e, q); }
  }

  lemma RunReady(run: seq<State>, acts: seq<Act>, i: nat)
    requires IsRun(run, acts) && i < |acts|
    ensures Ready(run[i], acts[i].p, acts[i].e) && run[i + 1] == Do(run[i], acts[i].p, acts[i].e)
    ensures |run[i + 1].pc| == |run[i].pc|
  {
    hide Do, Can;
    RunInv(run, acts, i);
    assert Linked(run, acts, i) && run[i].EndsOk(acts[i].p);
    SamePcs(run[i], acts[i].p, acts[i].e);
  }

  /** In every run: a process in pipewrite was called with `n`, and has put in all but those it still has to. */
  lemma {:induction false} WriteCounts(run: seq<State>, acts: seq<Act>, i: nat, p: nat) returns (j: nat)
    requires IsRun(run, acts) && i < |run| && p < |run[i].pc| && InWrite(run[i].pc[p])
    ensures j < i && acts[j].p == p && acts[j].e.CallWrite?
    ensures forall k: nat | j < k < i :: acts[k].p == p ==> !IsCall(acts[k].e)
    ensures acts[j].e.n == Left(run[i].pc[p]) + Puts(acts, j + 1, i, p)
  {
    hide Do, Can;
    assert i > 0;
    j := i - 1;
    RunReady(run, acts, j);
    WriteStep(run[j], acts[j].p, acts[j].e, p);
    if !(acts[j].p == p && acts[j].e.CallWrite?) { j := WriteCounts(run, acts, i - 1, p); }
  }

  lemma {:induction false} ReadCounts(run: seq<State>, acts: seq<Act>, i: nat, p: nat) returns (j: nat)
    requires IsRun(run, acts) && i < |run| && p < |run[i].pc| && InRead(run[i].pc[p])
    ensures j < i && acts[j].p == p && acts[j].e.CallRead?
    ensures forall k: nat | j < k < i :: acts[k].p == p ==> !IsCall(acts[k].e)
    ensures acts[j].e.n == Left(run[i].pc[p]) + Gets(acts, j + 1, i, p)
  {
    hide Do, Can;
    assert i > 0;
    j := i - 1;
    RunReady(run, acts, j);
    ReadStep(run[j], acts[j].p, acts[j].e, p);
    if !(acts[j].p == p && acts[j].e.CallRead?) { j := ReadCounts(run, acts, i - 1, p); }
  }

  /** In every run: a pipewrite that ends because nothing is left put in exactly the bytes it was called with. */
  lemma WroteAll(run: seq<State>, acts: seq<Act>, i: nat, p: nat) returns (j: nat)
    requires IsRun(run, acts) && i < |acts| && acts[i] == Act(p, EndWrite)
    requires p < |run[i].pc| && run[i].pc[p] == Writing(0)
    ensures j < i && acts[j].p == p && acts[j].e == CallWrite(Puts(acts, j + 1, i, p))
    ensures forall k: nat | j < k < i :: acts[k].p == p ==> !IsCall(acts[k].e)
  {
    j := WriteCounts(run, acts, i, p);
  }

  /** The bytes written in the first `i` steps. */
  ghost function Written(acts: seq<Act>, i: nat): seq<nat>
    requires i <= |acts|
  {
    if i == 0 then [] else Written(acts, i - 1) + if acts[i - 1].e.PutByte? then [acts[i - 1].e.ch] else []
  }

  /** In every run: what went into the pipe are the bytes written, in order; what came out is a prefix of them. */
  lemma {:induction false} BytesAre(run: seq<State>, acts: seq<Act>, i: nat)
    requires IsRun(run, acts) && i < |run|
    ensures run[i].b.ins == Written(acts, i) && run[i].got <= Written(acts, i)
  {
    Fifo(run, acts, i);
    if i > 0 {
      BytesAre(run, acts, i - 1);
      RunReady(run, acts, i - 1);
    }
  }

  /** Some process is about to close the write end, or the read end. */
  ghost predicate Closing(s: State, w: bool) { exists p: nat :: p < |s.pc| && s.pc[p] == CloseWait(w) }

  /** An end that no descriptor refers to is closed, or is about to be. */
  ghost predicate ClosedOk(s: State) {
    (s.writeopen && !s.wend ==> Closing(s, true)) && (s.readopen && !s.rend ==> Closing(s, false))
  }

  lemma CloseStep(s: State, p: nat, e: Step, w: bool)
    requires Ready(s, p, e)
    ensures var s' := Do(s, p, e);
            && (e == CallClose(w) ==> Closing(s', w))
            && (Closing(s, w) && !Closing(s', w) ==> e == Lock && s.pc[p] == CloseWait(w))
            && (e == Lock && s.pc[p] == CloseWait(w) ==> if w then !s'.writeopen else !s'.readopen)
            && (s'.writeopen ==> s.writeopen) && (s'.readopen ==> s.readopen)
            && (e != CallClose(true) ==> s'.wend == s.wend) && (e != CallClose(false) ==> s'.rend == s.rend)
  {
    hide Buffer.Ok, Buffer.Put, Buffer.Get, Buffer.Full, Buffer.Empty, Buffer.Byte;
    var s' := Do(s, p, e);
    if e == CallClose(w) { assert s'.pc[p] == CloseWait(w); }
    if Closing(s, w) {
      var q: nat :| q < |s.pc| && s.pc[q] == CloseWait(w);
      if q != p {
        OtherPc(s, p, e, q);
        assert s'.pc[q] == CloseWait(w);
      }
    }
  }

  /** In every run: when the last descriptor of an end is gone and no pipeclose is under way, the end is closed, so
      that the other side does not wait for it. */
  lemma {:induction false} EndsClosed(run: seq<State>, acts: seq<Act>, i: nat)
    requires IsRun(run, acts) && i < |run|
    ensures ClosedOk(run[i])
  {
    hide Do, Can, Closing;
    if i > 0 {
      EndsClosed(run, acts, i - 1);
      RunReady(run, acts, i - 1);
      CloseStep(run[i - 1], acts[i - 1].p, acts[i - 1].e, true);
      CloseStep(run[i - 1], acts[i - 1].p, acts[i - 1].e, false);
    }
  }
}
