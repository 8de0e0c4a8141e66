/** The virtio disk driver (kernel/virtio_disk.c) against a device that completes requests in any order. */
module Virtio {
  import opened Basics
  import opened VirtioState

  const UINT: nat := 0x1_0000_0000   // block numbers are 32-bit

  /** What driver and device do. */
  datatype Step =
    Submit(h: nat, i1: nat, i2: nat, b: nat, req: Req) | DevTake | DevComplete(h: nat) | LookOne | Finish(h: nat)

  ghost predicate Can(s: State, e: Step) {
    match e
    case Submit(h, i1, i2, b, _) => s.CanPublish(h, i1, i2, b)
    case DevTake => s.Shape() && s.taken < |s.order| && s.order[s.taken] in s.jobs
    case DevComplete(h) => s.Shape() && h in s.jobs && h < NUM && s.jobs[h].stage == Taken
    case LookOne => s.Shape() && s.looked < |s.done| && s.done[s.looked] in s.jobs
    case Finish(h) =>
      s.Shape() && h in s.jobs && h < NUM && s.jobs[h].i1 < NUM && s.jobs[h].i2 < NUM && s.jobs[h].stage == Seen
  }

  ghost function Next(s: State, e: Step): State
    requires Can(s, e)
  {
    match e
    case Submit(h, i1, i2, b, req) => s.Publish(h, i1, i2, b, req)
    case DevTake => s.Take()
    case DevComplete(h) => s.Complete(h)
    case LookOne => s.Look()
    case Finish(h) => s.Release(h)
  }

  lemma StepInv(s: State, e: Step)
    requires s.Inv() && Can(s, e)
    ensures Next(s, e).Inv()
  {
    hide State.Inv;
    match e
    case Submit(h, i1, i2, b, req) => PublishInv(s, h, i1, i2, b, req);
    case DevTake => TakeInv(s);
    case DevComplete(h) => CompleteInv(s, h);
    case LookOne => LookInv(s);
    case Finish(h) => ReleaseInv(s, h);
  }

  /** After virtio_disk_init: all descriptors free, the rings empty. */
  ghost predicate Init(s: State) {
    && |s.free| == |s.desc| == |s.ops| == |s.info| == |s.availRing| == |s.usedRing| == NUM
    && s.availIdx == s.usedIdx == s.seen == s.taken == s.looked == 0 && s.order == [] && s.done == []
    && s.jobs == map[] && s.part == map[] && s.at == map[]
    && forall i: nat | i < NUM :: s.free[i] && s.desc[i] == NO_DESC
  }

  ghost predicate Linked(run: seq<State>, steps: seq<Step>, i: nat)
    requires i + 1 < |run| && i < |steps|
  {
    Can(run[i], steps[i]) && run[i + 1] == Next(run[i], steps[i])
  }

  /** The states of a run, and the step between each and the next. */
  ghost predicate IsRun(run: seq<State>, steps: seq<Step>) {
    |run| == |steps| + 1 && Init(run[0]) && forall i: nat | i < |steps| :: Linked(run, steps, i)
  }

  lemma InitInv(s: State)
    requires Init(s)
    ensures s.Inv()
  {
    forall k: nat | k < NUM ensures s.DescOk(k) {}
  }

  lemma {:induction false} RunInv(run: seq<State>, steps: seq<Step>, i: nat)
    requires IsRun(run, steps) && i < |run|
    ensures run[i].Inv()
  {
    hide State.Inv, Init, Can, Next;
    if i == 0 {
      InitInv(run[0]);
    } else {
      RunInv(run, steps, i - 1);
      assert Linked(run, steps, i - 1);
      StepInv(run[i - 1], steps[i - 1]);
    }
  }

  /** In every run: a request under way is the one that was submitted with these descriptors, and it has not
      been finished since. */
  lemma {:induction false} SubmittedAt(run: seq<State>, steps: seq<Step>, i: nat, h: nat) returns (j: nat)
    requires IsRun(run, steps) && i < |run| && h in run[i].jobs
    ensures j < i && var g := run[i].jobs[h]; steps[j] == Submit(h, g.i1, g.i2, g.b, g.req)
    ensures forall k: nat | j < k < i :: steps[k] != Finish(h)
  {
    assert i > 0 by { assert run[0].jobs == map[]; }
    j := i - 1;
    assert Linked(run, steps, j);
    JobStep(run[j], steps[j], h);
    if !(steps[j].Submit? && steps[j].h == h) { j := SubmittedAt(run, steps, i - 1, h); }
  }

  /** Only Submit makes a request, and only Finish ends it; in between it stays what it is. */
  lemma JobStep(s: State, e: Step, h: nat)
    requires Can(s, e) && h in Next(s, e).jobs
    ensures var g := Next(s, e).jobs[h];
            if e.Submit? && e.h == h then e == Submit(h, g.i1, g.i2, g.b, g.req)
            else e != Finish(h) && h in s.jobs && g.(stage := s.jobs[h].stage) == s.jobs[h]
  {
  }

  ghost function FreeSet(free: seq<bool>): set<nat> { set i: nat | i < |free| && free[i] :: i }

  /** In every run: free descriptors and three for each unreleased request make up the table, so at most
      two requests are under way. */
  lemma Conservation(run: seq<State>, steps: seq<Step>, i: nat)
    requires IsRun(run, steps) && i < |run|
    ensures |FreeSet(run[i].free)| + 3 * |run[i].jobs| == NUM
  {
    RunInv(run, steps, i);
    CountFree(run[i]);
  }

  lemma CountFree(s: State)
    requires s.Inv()
    ensures |FreeSet(s.free)| + 3 * |s.jobs| == NUM
  {
    forall k: nat | k < NUM ensures k in FreeSet(s.free) <==> k !in s.part { assert s.DescOk(k); }
    hide State.DescOk, State.ChainOk, State.BufOk, State.StageOk, State.AvailOk, State.UsedOk, FreeSet;
    SumTo(FreeSet(s.free), s.part.Keys, NUM);
  }

  lemma SumTo(a: set<nat>, b: set<nat>, n: nat)
    requires (forall k | k in a :: k < n) && (forall k | k in b :: k < n)
    requires forall k: nat | k < n :: k in a <==> k !in b
    ensures |a| + |b| == n
  {
    assert a + b == Below(n) && a !! b;
  }

  /** In every run: following a published chain from its head, the device meets exactly three descriptors: the
      header that the driver was asked to send, its buffer, which the device writes for a read and reads for a
      write, and the status byte. */
  lemma DeviceView(run: seq<State>, steps: seq<Step>, i: nat, h: nat) returns (j: nat)
    requires IsRun(run, steps) && i < |run| && h in run[i].jobs
    ensures j < i && steps[j].Submit? && steps[j].h == h && forall k: nat | j < k < i :: steps[k] != Finish(h)
    ensures var s, e := run[i], steps[j];
            && |s.desc| == |s.ops| == |s.info| == NUM && h < NUM && e.i1 < NUM && e.i2 < NUM
            && s.ops[h] == e.req && s.info[h].b == e.b
            && s.desc[h] == Desc(Op(h), false, true, e.i1)
            && s.desc[e.i1] == Desc(Data(e.b), !e.req.write, true, e.i2)
            && s.desc[e.i2] == Desc(Status(h), true, false, 0)
  {
    hide IsRun, State.Inv;
    RunInv(run, steps, i);
    RunFacts(run, steps);
    j := SubmittedAt(run, steps, i, h);
    ChainFacts(run[i], h);
  }

  lemma RunFacts(run: seq<State>, steps: seq<Step>)
    requires IsRun(run, steps)
    ensures |run| == |steps| + 1
  {
  }

  /** In every run: b->disk is cleared only by the interrupt handler, for the buffer of the request the
      device reported. */
  lemma ClearedWhenDone(run: seq<State>, steps: seq<Step>, i: nat, e: Step, b: nat)
    requires IsRun(run, steps) && i < |run| && Can(run[i], e) && b in run[i].busy && b !in Next(run[i], e).busy
    ensures e == LookOne && b == run[i].jobs[run[i].done[run[i].looked]].b
    ensures run[i].jobs[run[i].done[run[i].looked]].stage == Done(run[i].looked)
  {
    RunInv(run, steps, i);
    if e == LookOne { assert run[i].UsedOk(run[i].looked); }
  }

  class Disk {
    var free: seq<bool>
    var desc: seq<Desc>
    var ops: seq<Req>
    var info: seq<Info>
    var availRing: seq<nat>
    var availIdx: nat
    var usedRing: seq<nat>
    var usedIdx: nat
    var seen: nat
    var busy: set<nat>
    ghost var jobs: map<nat, Job>
    ghost var part: map<nat, nat>
    ghost var at: map<nat, nat>
    ghost var order: seq<nat>
    ghost var taken: nat
    ghost var done: seq<nat>
    ghost var looked: nat

    ghost function V(): State
      reads this
    {
      State(free, desc, ops, info, availRing, availIdx, usedRing, usedIdx, seen, busy,
            jobs, part, at, order, taken, done, looked)
    }

    /** alloc_desc (kernel/virtio_disk.c:144-154): the first free descriptor, or -1. */
    method AllocDesc() returns (i: int)
      requires |free| == NUM
      modifies `free
      ensures -1 <= i < NUM
      ensures i == -1 ==> free == old(free) && forall k: nat | k < NUM :: !free[k]
      ensures i >= 0 ==> old(free)[i] && free == old(free)[i := false] && forall k: nat | k < i :: !old(free)[k]
    {
      i := 0;
      while i < NUM
        invariant 0 <= i <= NUM && free == old(free) && forall k: nat | k < i :: !free[k]
      {
        if free[i] {
          free := free[i := false];
          return;
        }
        i := i + 1;
      }
      i := -1;
    }

    /** free_desc (kernel/virtio_disk.c:157-170). Its panics are preconditions. */
    method FreeDesc(i: nat)
      requires |free| == |desc| == NUM && i < NUM && !free[i]
      modifies `free, `desc
      ensures free == old(free)[i := true] && desc == old(desc)[i := NO_DESC]
    {
      desc := desc[i := Desc(Nothing, false, false, 0)];
      free := free[i := true];
    }

    /** The undoing of a partial allocation (kernel/virtio_disk.c:195-196). */
    method Undo(idx: seq<nat>, ghost free0: seq<bool>)
      requires |free| == |desc| == |free0| == NUM && FreeIs(free, free0, idx) && Picked(free0, idx)
      requires forall k: nat | k < NUM && free0[k] :: desc[k] == NO_DESC
      modifies `free, `desc
      ensures free == free0 && desc == old(desc)
    {
      var j := 0;
      while j < |idx|
        invariant 0 <= j <= |idx| && |free| == NUM && desc == old(desc) && FreeIs(free, free0, idx[j..])
      {
        Rest(idx, j);
        FreeDesc(idx[j]);
        PutBack(free, free0, idx, j);
        j := j + 1;
      }
    }

    /** alloc3_desc (kernel/virtio_disk.c:189-201): three different descriptors, or none at all. */
    method Alloc3() returns (idx: seq<nat>)
      requires |free| == |desc| == NUM && forall k: nat | k < NUM && free[k] :: desc[k] == NO_DESC
      modifies `free, `desc
      ensures desc == old(desc) && |idx| <= 3
      ensures |idx| == 3 ==> idx[0] < NUM && idx[1] < NUM && idx[2] < NUM && idx[0] != idx[1] && idx[0] != idx[2]
      ensures |idx| == 3 ==> idx[1] != idx[2]
      ensures |idx| == 3 ==> old(free)[idx[0]] && old(free)[idx[1]] && old(free)[idx[2]]
      ensures |idx| == 3 ==> free == old(free)[idx[0] := false][idx[1] := false][idx[2] := false]
      ensures |idx| < 3 ==> free == old(free) && |FreeSet(free)| < 3
    {
      idx := [];
      ghost var free0 := free;
      while |idx| < 3
        invariant |idx| <= 3 && |free| == NUM && desc == old(desc) && FreeIs(free, free0, idx) && Picked(free0, idx)
      {
        var i := AllocDesc();
        if i < 0 {
          FewFree(free, free0, idx);
          Undo(idx, free0);
          return;
        }
        idx := idx + [i];
      }
    }

    /** virtio_disk_rw up to the notification (kernel/virtio_disk.c:206-269), for a buffer whose caller holds
        it and has no other request; without three free descriptors it would sleep and nothing
        changes. */
    method Rw(b: nat, write: bool, blockno: nat) returns (idx: seq<nat>)
      requires V().Inv() && b !in at && blockno < UINT
      modifies this
      ensures V().Inv() && |idx| <= 3
      ensures |idx| < 3 ==> V() == old(V()) && |FreeSet(free)| < 3
      ensures |idx| == 3 ==> idx[0] < NUM && idx[1] < NUM && idx[2] < NUM
      ensures |idx| == 3 ==> idx[0] != idx[1] && idx[0] != idx[2] && idx[1] != idx[2]
      ensures |idx| == 3 ==> |old(free)| == |old(desc)| == |old(ops)| == |old(info)| == |old(availRing)| == NUM
      ensures |idx| == 3 ==> old(free)[idx[0]] && old(free)[idx[1]] && old(free)[idx[2]]
      ensures |idx| == 3 ==> free == old(free)[idx[0] := false][idx[1] := false][idx[2] := false]
      ensures |idx| == 3 ==> ops == old(ops)[idx[0] := Req(write, blockno * 2 % UINT)]
      ensures |idx| == 3 ==> desc == old(desc)[idx[0] := Desc(Op(idx[0]), false, true, idx[1])]
                                              [idx[1] := Desc(Data(b), !write, true, idx[2])]
                                              [idx[2] := Desc(Status(idx[0]), true, false, 0)]
      ensures |idx| == 3 ==> info == old(info)[idx[0] := Info(b, 0xff)] && busy == old(busy) + {b}
      ensures |idx| == 3 ==> availRing == old(availRing)[old(availIdx) % NUM := idx[0]]
      ensures |idx| == 3 ==> availIdx == (old(availIdx) + 1) % WRAP && order == old(order) + [idx[0]]
      ensures usedRing == old(usedRing) && usedIdx == old(usedIdx) && seen == old(seen)
      ensures |idx| == 3 ==> Can(old(V()), Submit(idx[0], idx[1], idx[2], b, Req(write, blockno * 2 % UINT)))
      ensures |idx| == 3 ==> V() == Next(old(V()), Submit(idx[0], idx[1], idx[2], b, Req(write, blockno * 2 % UINT)))
    {
      hide State.Inv;
      ghost var s := V();
      FreeZero(s);
      idx := Alloc3();
      if |idx| < 3 {
        return;
      }
      var sector := blockno * 2 % UINT;
      PublishInv(s, idx[0], idx[1], idx[2], b, Req(write, sector));
      Send(idx[0], idx[1], idx[2], b, write, sector, s);
    }

    /** The chain is formatted and published (kernel/virtio_disk.c:226-265). */
    method Send(i0: nat, i1: nat, i2: nat, b: nat, write: bool, sector: nat, ghost s: State)
      requires s.CanPublish(i0, i1, i2, b) && V() == s.(free := s.free[i0 := false][i1 := false][i2 := false])
      modifies this
      ensures V() == s.Publish(i0, i1, i2, b, Req(write, sector))
      ensures free == old(free) && ops == old(ops)[i0 := Req(write, sector)] && info == old(info)[i0 := Info(b, 0xff)]
      ensures desc == old(desc)[i0 := Desc(Op(i0), false, true, i1)][i1 := Desc(Data(b), !write, true, i2)]
                               [i2 := Desc(Status(i0), true, false, 0)]
      ensures availRing == old(availRing)[old(availIdx) % NUM := i0] && availIdx == (old(availIdx) + 1) % WRAP
      ensures busy == old(busy) + {b} && order == old(order) + [i0]
      ensures usedRing == old(usedRing) && usedIdx == old(usedIdx) && seen == old(seen)
    {
      hide State.CanPublish, State.Shape;
      PublishSizes(s, i0, i1, i2, b);
      ghost var s' := s.Publish(i0, i1, i2, b, Req(write, sector));
      Format(i0, i1, i2, b, write, sector);
      availRing, availIdx := availRing[availIdx % NUM := i0], (availIdx + 1) % WRAP;
      jobs, part, at, order := s'.jobs, s'.part, s'.at, s'.order;
    }

    /** The three descriptors are filled in (kernel/virtio_disk.c:226-257). */
    method Format(i0: nat, i1: nat, i2: nat, b: nat, write: bool, sector: nat)
      requires i0 < NUM && i1 < NUM && i2 < NUM && |ops| == |desc| == |info| == NUM
      modifies `ops, `desc, `info, `busy
      ensures ops == old(ops)[i0 := Req(write, sector)] && info == old(info)[i0 := Info(b, 0xff)]
      ensures busy == old(busy) + {b}
      ensures desc == old(desc)[i0 := Desc(Op(i0), false, true, i1)][i1 := Desc(Data(b), !write, true, i2)]
                               [i2 := Desc(Status(i0), true, false, 0)]
    {
      ops := ops[i0 := Req(write, sector)];
      desc := desc[i0 := Desc(Op(i0), false, true, i1)];
      desc := desc[i1 := Desc(Data(b), !write, true, i2)];
      info := info[i0 := info[i0].(status := 0xff)];
      desc := desc[i2 := Desc(Status(i0), true, false, 0)];
      busy := busy + {b};
      info := info[i0 := info[i0].(b := b)];
    }

    /** free_chain (kernel/virtio_disk.c:173-185) frees exactly the three descriptors of a chain, without
        reaching a panic of free_desc. */
    method FreeChain(h: nat)
      requires V().Inv() && h in jobs
      modifies `free, `desc
      ensures h < NUM && jobs[h].i1 < NUM && jobs[h].i2 < NUM
      ensures free == old(free)[h := true][jobs[h].i1 := true][jobs[h].i2 := true]
      ensures desc == old(desc)[h := NO_DESC][jobs[h].i1 := NO_DESC][jobs[h].i2 := NO_DESC]
    {
      hide State.Inv;
      ghost var g := jobs[h];
      ChainFacts(V(), h);
      var i := h;
      ghost var free0, desc0, k := free, desc, 0;
      while true
        invariant k < 3 && i == [h, g.i1, g.i2][k] && |free| == |desc| == NUM
        invariant free == [free0, free0[h := true], free0[h := true][g.i1 := true]][k]
        invariant desc == [desc0, desc0[h := NO_DESC], desc0[h := NO_DESC][g.i1 := NO_DESC]][k]
        decreases 3 - k
      {
        var more, nxt := desc[i].hasNext, desc[i].next;
        FreeDesc(i);
        if !more {
          break;
        }
        i := nxt;
        k := k + 1;
      }
    }

    /** The end of virtio_disk_rw (kernel/virtio_disk.c:276-277), when b->disk is 0. */
    method Done(h: nat)
      requires V().Inv() && h in jobs && jobs[h].b !in busy
      modifies this
      ensures h < NUM && old(jobs[h]).i1 < NUM && old(jobs[h]).i2 < NUM && V() == old(V()).Release(h) && V().Inv()
      ensures var g := old(jobs[h]);
              && |old(free)| == |old(desc)| == |old(info)| == NUM
              && free == old(free)[h := true][g.i1 := true][g.i2 := true]
              && desc == old(desc)[h := NO_DESC][g.i1 := NO_DESC][g.i2 := NO_DESC]
              && info == old(info)[h := Info(0, old(info)[h].status)] && jobs == old(jobs) - {h}
      ensures busy == old(busy) && ops == old(ops) && availRing == old(availRing) && availIdx == old(availIdx)
      ensures usedRing == old(usedRing) && usedIdx == old(usedIdx) && seen == old(seen)
    {
      hide State.Inv, State.Shape, State.Release, State.ChainOk;
      ghost var s, g := V(), jobs[h];
      ChainFacts(s, h);
      ChainPlaces(s, h);
      ReleaseInv(s, h);
      FreeChain(h);
      info := info[h := info[h].(b := 0)];
      jobs, part, at := jobs - {h}, part - {h, g.i1, g.i2}, at - {g.b};
      Released(s, V(), h);
    }

    /** virtio_disk_intr (kernel/virtio_disk.c:282-315) looks at each reported entry exactly once, in order,
        also when the 16-bit indices wrap. Its panic is unreachable. */
    method Intr()
      requires V().Inv()
      modifies this
      ensures V().Inv() && looked == |done| && done == old(done) && order == old(order) && taken == old(taken)
      ensures free == old(free)
      ensures forall b :: b in busy <==> b in old(busy) && !Reported(old(V()), b)
    {
      hide State.Inv, LookedOn;
      ghost var s0 := V();
      SeenExact(s0);
      NoneLooked(s0);
      while seen != usedIdx
        invariant V().Inv() && LookedOn(s0, V()) && (seen != usedIdx <==> looked < |done|)
        decreases |done| - looked
      {
        ghost var s := V();
        IntrOne();
        LookedMore(s0, s);
        SeenExact(V());
      }
      AllLooked(s0, V());
    }

    /** One turn of the loop of virtio_disk_intr (kernel/virtio_disk.c:302-311). */
    method IntrOne()
      requires V().Inv() && looked < |done|
      modifies `busy, `seen, `jobs, `looked
      ensures old(V()).Shape() && old(done)[old(looked)] in old(jobs) && V() == old(V()).Look() && V().Inv()
      ensures |usedRing| == |info| == NUM && usedRing[old(seen) % NUM] < NUM && seen == (old(seen) + 1) % WRAP
      ensures busy == old(busy) - {info[usedRing[old(seen) % NUM]].b}
    {
      hide State.Inv;
      ghost var s, h := V(), done[looked];
      SeenExact(s);
      LookInv(s);
      var id := usedRing[seen % NUM];
      assert info[id].status == 0;
      busy := busy - {info[id].b};
      seen := (seen + 1) % WRAP;
      jobs := jobs[h := jobs[h].(stage := Stage.Seen)];
      looked := looked + 1;
    }
  }

  ghost predicate BusyAt(s0: State, s: State, b: nat) { b in s.busy <==> b in s0.busy && !ReportedTo(s0, b, s.looked) }

  /** From `s0` to `s` only used entries were looked at. */
  ghost predicate LookedOn(s0: State, s: State) {
    && s.done == s0.done && s.order == s0.order && s.taken == s0.taken && s.free == s0.free
    && s0.looked <= s.looked <= |s.done|
    && s.jobs.Keys == s0.jobs.Keys && (forall h | h in s0.jobs :: s.jobs[h].b == s0.jobs[h].b)
    && forall b :: BusyAt(s0, s, b)
  }

  lemma NoneLooked(s: State)
    requires s.Inv()
    ensures LookedOn(s, s)
  {
    forall b ensures BusyAt(s, s, b) {}
  }

  lemma LookedMore(s0: State, s: State)
    requires LookedOn(s0, s) && s.Shape() && s.looked < |s.done| && s.done[s.looked] in s.jobs
    ensures LookedOn(s0, s.Look())
  {
    var s', h := s.Look(), s.done[s.looked];
    forall b ensures BusyAt(s0, s', b) {
      assert BusyAt(s0, s, b);
      assert ReportedTo(s0, b, s'.looked) <==> ReportedTo(s0, b, s.looked) || b == s0.jobs[h].b;
    }
  }

  lemma AllLooked(s0: State, s: State)
    requires LookedOn(s0, s) && s.looked >= |s.done|
    ensures s.looked == |s.done| && s.done == s0.done && s.order == s0.order && s.taken == s0.taken && s.free == s0.free
    ensures forall b :: b in s.busy <==> b in s0.busy && !Reported(s0, b)
  {
    forall b ensures b in s.busy <==> b in s0.busy && !Reported(s0, b) { assert BusyAt(s0, s, b); }
  }

  /** The device has reported a request for `b` that the driver has not looked at. */
  ghost predicate Reported(s: State, b: nat) { ReportedTo(s, b, |s.done|) }

  ghost predicate ReportedTo(s: State, b: nat, n: nat) {
    exists j: nat :: s.looked <= j < n && j < |s.done| && s.done[j] in s.jobs && s.jobs[s.done[j]].b == b
  }

  lemma PublishSizes(s: State, i0: nat, i1: nat, i2: nat, b: nat)
    requires s.CanPublish(i0, i1, i2, b)
    ensures i0 < NUM && i1 < NUM && i2 < NUM && |s.ops| == |s.desc| == |s.info| == |s.availRing| == NUM
  {
  }

  lemma FreeZero(s: State)
    requires s.Inv()
    ensures |s.free| == |s.desc| == |s.ops| == |s.info| == |s.availRing| == NUM && s.Shape()
    ensures forall k: nat | k < NUM && s.free[k] :: s.desc[k] == NO_DESC
  {
    forall k: nat | k < NUM && s.free[k] ensures s.desc[k] == NO_DESC { assert s.DescOk(k); }
  }

  lemma ChainFacts(s: State, h: nat)
    requires s.Inv() && h in s.jobs
    ensures s.Shape() && h < NUM && s.ChainOk(h) && !s.free[h] && !s.free[s.jobs[h].i1] && !s.free[s.jobs[h].i2]
    ensures s.info[h].b == s.jobs[h].b && (s.jobs[h].b !in s.busy ==> s.jobs[h].stage == Stage.Seen)
  {
    assert s.ChainOk(h) && s.BufOk(h) && s.DescOk(h) && s.DescOk(s.jobs[h].i1) && s.DescOk(s.jobs[h].i2);
  }

  lemma ChainPlaces(s: State, h: nat)
    requires s.Shape() && h in s.jobs && s.ChainOk(h)
    ensures s.jobs[h].i1 < NUM && s.jobs[h].i2 < NUM && |s.info| == NUM
  {
  }

  lemma Released(s: State, t: State, h: nat)
    requires s.Shape() && h in s.jobs && h < NUM && s.jobs[h].i1 < NUM && s.jobs[h].i2 < NUM
    requires var g := s.jobs[h];
             && t.free == s.free[h := true][g.i1 := true][g.i2 := true]
             && t.desc == s.desc[h := NO_DESC][g.i1 := NO_DESC][g.i2 := NO_DESC]
             && t.info == s.info[h := s.info[h].(b := 0)]
             && t.jobs == s.jobs - {h} && t.part == s.part - {h, g.i1, g.i2} && t.at == s.at - {g.b}
    requires t.ops == s.ops && t.availRing == s.availRing && t.availIdx == s.availIdx && t.usedRing == s.usedRing
    requires t.usedIdx == s.usedIdx && t.seen == s.seen && t.busy == s.busy && t.order == s.order
    requires t.taken == s.taken && t.done == s.done && t.looked == s.looked
    ensures t == s.Release(h)
  {
  }

  /** The 16-bit comparison tells exactly whether there is an entry to look at. */
  lemma SeenExact(s: State)
    requires s.Inv()
    ensures s.Shape() && |s.usedRing| == NUM && s.looked <= |s.done| && (s.seen != s.usedIdx <==> s.looked < |s.done|)
  {
    UsedFew(s);
    var q, r, d := s.looked / WRAP, s.looked % WRAP, |s.done| - s.looked;
    assert s.looked == q * WRAP + r;
    if r + d < WRAP { ModIs(|s.done|, q, r + d, WRAP); } else { ModIs(|s.done|, q + 1, r + d - WRAP, WRAP); }
  }

  lemma UsedFew(s: State)
    requires s.Inv()
    ensures |s.done| - s.looked <= NUM
  {
    if s.looked < |s.done| {
      forall j: nat | s.looked <= j < |s.done|
        ensures s.done[j] < NUM && s.done[j] in s.jobs && s.jobs[s.done[j]].stage == Stage.Done(j)
      {
        assert s.UsedOk(j) && s.ChainOk(s.done[j]);
      }
      Pigeon(s.done, s.looked + 1, s.done[s.looked]);
    }
  }

  /** `free` is `free0` without the picked descriptors. */
  ghost predicate FreeIs(free: seq<bool>, free0: seq<bool>, picked: seq<nat>)
    requires |free| == |free0| == NUM
  {
    forall k: nat | k < NUM :: free[k] <==> free0[k] && k !in picked
  }

  lemma PutBack(free: seq<bool>, free0: seq<bool>, idx: seq<nat>, j: nat)
    requires |free| == |free0| == NUM && Picked(free0, idx) && j < |idx| && free[idx[j]]
    requires forall k: nat | k < NUM && k != idx[j] :: (free[k] <==> free0[k] && k !in idx[j..])
    ensures FreeIs(free, free0, idx[j + 1..])
  {
    Rest(idx, j);
  }

  lemma Rest(idx: seq<nat>, j: nat)
    requires j < |idx|
    ensures idx[j] in idx[j..] && idx[j..] == [idx[j]] + idx[j + 1..]
  {
  }

  lemma FewFree(free: seq<bool>, free0: seq<bool>, idx: seq<nat>)
    requires |free| == |free0| == NUM && FreeIs(free, free0, idx) && |idx| < 3 && forall k: nat | k < NUM :: !free[k]
    ensures |FreeSet(free0)| < 3
  {
    forall k | k in FreeSet(free0) ensures k in Elems(idx) {}
    SubsetSize(FreeSet(free0), Elems(idx));
    SetOfSeq(idx);
  }

  ghost function Elems(l: seq<nat>): set<nat> { set k | k in l }

  lemma {:induction false} SetOfSeq(l: seq<nat>)
    ensures |Elems(l)| <= |l|
  {
    if l != [] {
      var rest, x := l[..|l| - 1], l[|l| - 1];
      SetOfSeq(rest);
      assert Elems(l) == Elems(rest) + {x} by { assert l == rest + [x]; }
      if x in Elems(rest) { assert Elems(l) == Elems(rest); }
    }
  }

  ghost predicate Picked(free: seq<bool>, idx: seq<nat>)
    requires |free| == NUM
  {
    && (forall k: nat | k < |idx| :: idx[k] < NUM && free[idx[k]])
    && (forall j: nat, k: nat | j < k < |idx| :: idx[j] != idx[k])
  }
}
