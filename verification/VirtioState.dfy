/** The virtio disk queue (kernel/virtio_disk.c; sections 2.6 and 5.2 of VIRTIO 1.1) as a value: the
    descriptor table, the two rings with their 16-bit indices, the driver's own records, and which
    request each descriptor belongs to. Driver and device change it in interleaved steps. */
module VirtioState {
  import opened Basics

  const NUM: nat := 8
  const WRAP: nat := 0x1_0000

  /** A descriptor: what it points to, whether the device writes it (VRING_DESC_F_WRITE), and the next one
      if there is one (VRING_DESC_F_NEXT). */
  datatype Target = Nothing | Op(i: nat) | Data(b: nat) | Status(i: nat)
  datatype Desc = Desc(addr: Target, dev: bool, hasNext: bool, next: nat)

  const NO_DESC := Desc(Nothing, false, false, 0)

  /** A request header: read or write, and the sector. */
  datatype Req = Req(write: bool, sector: nat)

  datatype Info = Info(b: nat, status: nat)

  /** How far a request has come: published at place `j`, taken by the device, reported at place `j` of
      the used ring, seen by the interrupt handler. */
  datatype Stage = Queued(j: nat) | Taken | Done(j: nat) | Seen

  datatype Job = Job(b: nat, req: Req, i1: nat, i2: nat, stage: Stage)

  datatype State = State(
    free: seq<bool>, desc: seq<Desc>, ops: seq<Req>, info: seq<Info>,
    availRing: seq<nat>, availIdx: nat, usedRing: seq<nat>, usedIdx: nat, seen: nat,   // 16-bit indices
    busy: set<nat>,                       // buffers with b->disk == 1
    jobs: map<nat, Job>,                  // requests by the first descriptor of their chain
    part: map<nat, nat>,                  // the request a descriptor belongs to
    at: map<nat, nat>,                    // the request of a buffer
    order: seq<nat>, taken: nat,          // heads ever published, and how many the device has taken
    done: seq<nat>, looked: nat)          // heads ever reported, and how many were looked at
  {
    ghost predicate Shape() {
      && |free| == |desc| == |ops| == |info| == |availRing| == |usedRing| == NUM
      && availIdx == |order| % WRAP && usedIdx == |done| % WRAP && seen == looked % WRAP
      && taken <= |order| && looked <= |done| && |part| == 3 * |jobs|
    }

    /** A descriptor is free, or in one chain. */
    ghost predicate DescOk(i: nat)
      requires |free| == |desc| == NUM && i < NUM
    {
      && (free[i] <==> i !in part) && (free[i] ==> desc[i] == NO_DESC)
      && (i in part ==> part[i] in jobs && (i == part[i] || i == jobs[part[i]].i1 || i == jobs[part[i]].i2))
    }

    /** A chain is three descriptors long: header, data, status. */
    ghost predicate ChainOk(h: nat)
      requires Shape() && h in jobs
    {
      var g := jobs[h];
      && h < NUM && g.i1 < NUM && g.i2 < NUM && h != g.i1 && h != g.i2 && g.i1 != g.i2
      && h in part && part[h] == h && g.i1 in part && part[g.i1] == h && g.i2 in part && part[g.i2] == h
      && desc[h] == Desc(Op(h), false, true, g.i1) && desc[g.i1] == Desc(Data(g.b), !g.req.write, true, g.i2)
      && desc[g.i2] == Desc(Status(h), true, false, 0)
      && ops[h] == g.req
    }

    /** A buffer is marked busy until its own request was seen to be done. */
    ghost predicate BufOk(h: nat)
      requires Shape() && h in jobs && h < NUM
    {
      var g := jobs[h];
      && info[h].b == g.b && g.b in at && at[g.b] == h
      && (g.b in busy <==> g.stage != Seen)
      && (g.stage.Done? || g.stage.Seen? ==> info[h].status == 0)
    }

    /** Where a request stands in the rings. */
    ghost predicate StageOk(h: nat)
      requires h in jobs
    {
      && (jobs[h].stage.Queued? ==> taken <= jobs[h].stage.j < |order| && order[jobs[h].stage.j] == h)
      && (jobs[h].stage.Done? ==> looked <= jobs[h].stage.j < |done| && done[jobs[h].stage.j] == h)
    }

    /** Published entries not yet taken are still in the ring. */
    ghost predicate AvailOk(j: nat)
      requires |availRing| == NUM && j < |order|
    {
      order[j] in jobs && jobs[order[j]].stage == Queued(j) && availRing[j % NUM] == order[j]
    }

    /** Reported entries not yet looked at are still in the ring. */
    ghost predicate UsedOk(j: nat)
      requires |usedRing| == NUM && j < |done|
    {
      done[j] in jobs && jobs[done[j]].stage == Done(j) && usedRing[j % NUM] == done[j]
    }

    ghost predicate Inv() {
      && Shape()
      && (forall i: nat | i < NUM :: DescOk(i))
      && (forall i | i in part :: i < NUM)
      && (forall h | h in jobs :: ChainOk(h))
      && (forall h | h in jobs :: BufOk(h))
      && (forall h | h in jobs :: StageOk(h))
      && (forall j: nat | taken <= j < |order| :: AvailOk(j))
      && (forall j: nat | looked <= j < |done| :: UsedOk(j))
    }
  
    /** Descriptors `h`, `i1` and `i2` can carry a request for buffer `b`. */
    ghost predicate CanPublish(h: nat, i1: nat, i2: nat, b: nat) {
      && Shape() && h < NUM && i1 < NUM && i2 < NUM && h != i1 && h != i2 && i1 != i2
      && free[h] && free[i1] && free[i2] && b !in at
    }

    /** The driver formats a chain and puts its head into the available ring (virtio_disk.c:226-265). */
    ghost function Publish(h: nat, i1: nat, i2: nat, b: nat, req: Req): State
      requires CanPublish(h, i1, i2, b)
    {
      this.(free := free[h := false][i1 := false][i2 := false],
            desc := desc[h := Desc(Op(h), false, true, i1)][i1 := Desc(Data(b), !req.write, true, i2)]
                        [i2 := Desc(Status(h), true, false, 0)],
            ops := ops[h := req], info := info[h := Info(b, 0xff)],
            availRing := availRing[availIdx % NUM := h], availIdx := (availIdx + 1) % WRAP, busy := busy + {b},
            jobs := jobs[h := Job(b, req, i1, i2, Queued(|order|))], part := part[h := h][i1 := h][i2 := h],
            at := at[b := h], order := order + [h])
    }

    /** The device takes the next available chain. */
    ghost function Take(): State
      requires Shape() && taken < |order| && order[taken] in jobs
    {
      this.(jobs := jobs[order[taken] := jobs[order[taken]].(stage := Taken)], taken := taken + 1)
    }

    /** The device completes a chain it has taken, in any order. */
    ghost function Complete(h: nat): State
      requires Shape() && h in jobs && h < NUM
    {
      this.(info := info[h := info[h].(status := 0)], usedRing := usedRing[usedIdx % NUM := h],
            usedIdx := (usedIdx + 1) % WRAP,
            jobs := jobs[h := jobs[h].(stage := Done(|done|))], done := done + [h])
    }

    /** The interrupt handler looks at the next used entry (virtio_disk.c:302-311). */
    ghost function Look(): State
      requires Shape() && looked < |done| && done[looked] in jobs
    {
      var h := done[looked];
      this.(busy := busy - {jobs[h].b}, seen := (seen + 1) % WRAP, jobs := jobs[h := jobs[h].(stage := Seen)],
          looked := looked + 1)
    }

    /** The driver releases a chain whose buffer is done (virtio_disk.c:276-277). */
    ghost function Release(h: nat): State
      requires Shape() && h in jobs && h < NUM && jobs[h].i1 < NUM && jobs[h].i2 < NUM
    {
      var g := jobs[h];
      this.(free := free[h := true][g.i1 := true][g.i2 := true],
            desc := desc[h := NO_DESC][g.i1 := NO_DESC][g.i2 := NO_DESC],
            info := info[h := Info(0, info[h].status)], jobs := jobs - {h},
            part := part - {h, g.i1, g.i2}, at := at - {g.b})
    }
  }

  /** Distinct chain heads other than `h` leave a place free in a ring. */
  lemma {:induction false} Pigeon(heads: seq<nat>, from: nat, h: nat)
    requires from <= |heads| && h < NUM && (forall j: nat | from <= j < |heads| :: heads[j] < NUM && heads[j] != h)
    requires forall i: nat, j: nat | from <= i < j < |heads| :: heads[i] != heads[j]
    ensures |heads| - from < NUM
  {
    var s := set j: nat | from <= j < |heads| :: heads[j];
    HeadCount(heads, from, |heads|);
    SubsetSize(s, Below(NUM) - {h});
  }

  lemma {:induction false} HeadCount(heads: seq<nat>, from: nat, n: nat)
    requires from <= n <= |heads| && forall i: nat, j: nat | from <= i < j < |heads| :: heads[i] != heads[j]
    ensures |set j: nat | from <= j < n :: heads[j]| == n - from
  {
    if from < n {
      HeadCount(heads, from, n - 1);
      assert (set j: nat | from <= j < n :: heads[j]) == (set j: nat | from <= j < n - 1 :: heads[j]) + {heads[n - 1]};
    }
  }

  /** Ring places less than NUM apart are different, and 16-bit indices reach the same places. */
  lemma RingPlace(n: nat, j: nat)
    ensures n % WRAP % NUM == n % NUM && (n % WRAP + 1) % WRAP == (n + 1) % WRAP
    ensures j < n < j + NUM ==> j % NUM != n % NUM
  {
    ModMod(n);
    ModNext(n);
    if j < n < j + NUM { ModApart(n, j); }
  }

  lemma ModMod(n: nat)
    ensures n % WRAP % NUM == n % NUM
  {
    var q, r := n / WRAP, n % WRAP;
    assert n == q * WRAP + r == NUM * (q * (WRAP / NUM)) + r;
    Mod8(q * (WRAP / NUM) + r / NUM, r % NUM);
  }

  lemma Mod8(q: nat, r: nat)
    requires r < NUM
    ensures (NUM * q + r) % NUM == r
  {
  }

  lemma ModNext(n: nat)
    ensures (n % WRAP + 1) % WRAP == (n + 1) % WRAP
  {
    var q, r := n / WRAP, n % WRAP;
    assert n == q * WRAP + r;
    if r + 1 < WRAP { ModIs(n + 1, q, r + 1, WRAP); } else { ModIs(n + 1, q + 1, 0, WRAP); }
  }

  lemma ModApart(n: nat, j: nat)
    requires j < n < j + NUM
    ensures j % NUM != n % NUM
  {
  }

  /** A place in the available ring is free for a new head: no entry is overwritten before its use. */
  lemma AvailRoom(s: State, h: nat)
    requires s.Inv() && h < NUM && s.free[h]
    ensures |s.order| - s.taken < NUM
  {
    forall j: nat | s.taken <= j < |s.order|
      ensures s.order[j] < NUM && s.order[j] != h && s.order[j] in s.jobs && s.jobs[s.order[j]].stage == Queued(j)
    {
      assert s.AvailOk(j) && s.ChainOk(s.order[j]) && s.DescOk(h);
    }
    Pigeon(s.order, s.taken, h);
  }

  /** The same for the used ring and a chain the device works on. */
  lemma UsedRoom(s: State, h: nat)
    requires s.Inv() && h in s.jobs && s.jobs[h].stage == Taken
    ensures h < NUM && |s.done| - s.looked < NUM
  {
    assert s.ChainOk(h);
    forall j: nat | s.looked <= j < |s.done|
      ensures s.done[j] < NUM && s.done[j] != h && s.done[j] in s.jobs && s.jobs[s.done[j]].stage == Done(j)
    {
      assert s.UsedOk(j) && s.ChainOk(s.done[j]);
    }
    Pigeon(s.done, s.looked, h);
  }

  lemma PublishShape(s: State, h: nat, i1: nat, i2: nat, b: nat, req: Req)
    requires s.Inv() && s.CanPublish(h, i1, i2, b)
    ensures s.Publish(h, i1, i2, b, req).Shape() && h !in s.jobs
  {
    assert s.DescOk(h) && s.DescOk(i1) && s.DescOk(i2);
    assert h in s.jobs ==> s.ChainOk(h);
    RingPlace(|s.order|, 0);
    PartGrows(s, h, i1, i2);
  }

  lemma PublishDesc(s: State, h: nat, i1: nat, i2: nat, b: nat, req: Req, i: nat)
    requires s.Shape() && s.CanPublish(h, i1, i2, b) && i < NUM && s.DescOk(i) && s.DescOk(h) && s.DescOk(i1)
    requires s.DescOk(i2) && (i in s.part ==> s.ChainOk(s.part[i]))
    ensures s.Publish(h, i1, i2, b, req).DescOk(i)
  {
  }

  lemma PublishChain(s: State, h: nat, i1: nat, i2: nat, b: nat, req: Req, g: nat)
    requires s.Shape() && s.CanPublish(h, i1, i2, b) && s.DescOk(h) && s.DescOk(i1) && s.DescOk(i2)
    requires (g != h ==> g in s.jobs && s.ChainOk(g)) && g in s.Publish(h, i1, i2, b, req).jobs
    requires s.Publish(h, i1, i2, b, req).Shape()
    ensures s.Publish(h, i1, i2, b, req).ChainOk(g)
  {
  }

  lemma PublishBuf(s: State, h: nat, i1: nat, i2: nat, b: nat, req: Req, g: nat)
    requires s.Inv() && s.CanPublish(h, i1, i2, b) && g in s.Publish(h, i1, i2, b, req).jobs
    requires s.Publish(h, i1, i2, b, req).Shape() && g < NUM
    ensures s.Publish(h, i1, i2, b, req).BufOk(g) && s.Publish(h, i1, i2, b, req).StageOk(g)
  {
    assert s.DescOk(h);
    if g != h { assert s.ChainOk(g) && s.BufOk(g) && s.StageOk(g); }
  }

  lemma PublishAvail(s: State, h: nat, i1: nat, i2: nat, b: nat, req: Req, j: nat)
    requires s.Inv() && s.CanPublish(h, i1, i2, b)
    requires s.Publish(h, i1, i2, b, req).taken <= j < |s.Publish(h, i1, i2, b, req).order|
    ensures s.Publish(h, i1, i2, b, req).AvailOk(j)
  {
    AvailRoom(s, h);
    RingPlace(|s.order|, j);
    assert s.DescOk(h);
    if j < |s.order| { assert s.AvailOk(j) && s.ChainOk(s.order[j]); }
  }

  lemma PublishUsed(s: State, h: nat, i1: nat, i2: nat, b: nat, req: Req, j: nat)
    requires s.Inv() && s.CanPublish(h, i1, i2, b)
    requires s.Publish(h, i1, i2, b, req).looked <= j < |s.Publish(h, i1, i2, b, req).done|
    ensures s.Publish(h, i1, i2, b, req).UsedOk(j)
  {
    assert s.UsedOk(j) && s.ChainOk(s.done[j]) && s.DescOk(h);
  }

  /** Publishing a request keeps all older ones; no ring entry is overwritten before the device has taken it. */
  lemma PublishInv(s: State, h: nat, i1: nat, i2: nat, b: nat, req: Req)
    requires s.Inv() && s.CanPublish(h, i1, i2, b)
    ensures s.Publish(h, i1, i2, b, req).Inv()
  {
    hide State.ChainOk, State.BufOk, State.StageOk, State.DescOk, State.AvailOk, State.UsedOk;
    PublishShape(s, h, i1, i2, b, req);
    var s' := s.Publish(h, i1, i2, b, req);
    forall i: nat | i < NUM ensures s'.DescOk(i) {
      InPart(s, i);
      assert s.DescOk(i) && s.DescOk(h) && s.DescOk(i1) && s.DescOk(i2) && (i in s.part ==> s.ChainOk(s.part[i]));
      PublishDesc(s, h, i1, i2, b, req, i);
    }
    forall g | g in s'.jobs ensures s'.ChainOk(g) && g < NUM {
      assert s.DescOk(h) && s.DescOk(i1) && s.DescOk(i2) && (g != h ==> s.ChainOk(g));
      PublishChain(s, h, i1, i2, b, req, g); HeadSmall(s', g); }
    forall g | g in s'.jobs ensures s'.BufOk(g) && s'.StageOk(g) { PublishBuf(s, h, i1, i2, b, req, g); }
    forall j: nat | s'.taken <= j < |s'.order| ensures s'.AvailOk(j) { PublishAvail(s, h, i1, i2, b, req, j); }
    forall j: nat | s'.looked <= j < |s'.done| ensures s'.UsedOk(j) { PublishUsed(s, h, i1, i2, b, req, j); }
  }

  lemma TakeShape(s: State)
    requires s.Inv() && s.taken < |s.order| && s.order[s.taken] in s.jobs
    requires s.jobs[s.order[s.taken]].stage == Queued(s.taken)
    ensures s.Take().Shape()
  {
  }

  lemma TakeDesc(s: State, i: nat)
    requires s.Inv() && s.taken < |s.order| && s.order[s.taken] in s.jobs
    requires s.jobs[s.order[s.taken]].stage == Queued(s.taken) && i < NUM
    ensures s.Take().DescOk(i)
  {
    assert s.DescOk(i);
  }

  lemma TakeChain(s: State, g: nat)
    requires s.Inv() && s.taken < |s.order| && s.order[s.taken] in s.jobs
    requires s.jobs[s.order[s.taken]].stage == Queued(s.taken) && g in s.Take().jobs && s.Take().Shape()
    ensures s.Take().ChainOk(g)
  {
    assert s.ChainOk(g);
  }

  lemma TakeBuf(s: State, g: nat)
    requires s.Inv() && s.taken < |s.order| && s.order[s.taken] in s.jobs
    requires s.jobs[s.order[s.taken]].stage == Queued(s.taken) && g in s.Take().jobs && s.Take().Shape() && g < NUM
    ensures s.Take().BufOk(g) && s.Take().StageOk(g)
  {
    assert s.ChainOk(g) && s.BufOk(g) && s.StageOk(g);
  }

  lemma TakeAvail(s: State, j: nat)
    requires s.Inv() && s.taken < |s.order| && s.order[s.taken] in s.jobs
    requires s.jobs[s.order[s.taken]].stage == Queued(s.taken) && s.Take().taken <= j < |s.Take().order|
    ensures s.Take().AvailOk(j)
  {
    assert s.AvailOk(j);
  }

  lemma TakeUsed(s: State, j: nat)
    requires s.Inv() && s.taken < |s.order| && s.order[s.taken] in s.jobs
    requires s.jobs[s.order[s.taken]].stage == Queued(s.taken) && s.Take().looked <= j < |s.Take().done|
    ensures s.Take().UsedOk(j)
  {
    assert s.UsedOk(j);
  }

  lemma CompleteShape(s: State, h: nat)
    requires s.Inv() && h in s.jobs && h < NUM && s.jobs[h].stage == Taken
    ensures s.Complete(h).Shape()
  {
    RingPlace(|s.done|, 0);
  }

  lemma CompleteDesc(s: State, h: nat, i: nat)
    requires s.Inv() && h in s.jobs && h < NUM && s.jobs[h].stage == Taken && i < NUM
    ensures s.Complete(h).DescOk(i)
  {
    assert s.DescOk(i);
  }

  lemma CompleteChain(s: State, h: nat, g: nat)
    requires s.Inv() && h in s.jobs && h < NUM && s.jobs[h].stage == Taken && g in s.Complete(h).jobs
    requires s.Complete(h).Shape()
    ensures s.Complete(h).ChainOk(g)
  {
    assert s.ChainOk(g);
  }

  lemma CompleteBuf(s: State, h: nat, g: nat)
    requires s.Inv() && h in s.jobs && h < NUM && s.jobs[h].stage == Taken && g in s.Complete(h).jobs
    requires s.Complete(h).Shape() && g < NUM
    ensures s.Complete(h).BufOk(g) && s.Complete(h).StageOk(g)
  {
    assert s.ChainOk(g) && s.BufOk(g) && s.StageOk(g);
  }

  lemma CompleteAvail(s: State, h: nat, j: nat)
    requires s.Inv() && h in s.jobs && h < NUM && s.jobs[h].stage == Taken
    requires s.Complete(h).taken <= j < |s.Complete(h).order|
    ensures s.Complete(h).AvailOk(j)
  {
    assert s.AvailOk(j);
  }

  lemma CompleteUsed(s: State, h: nat, j: nat)
    requires s.Inv() && h in s.jobs && h < NUM && s.jobs[h].stage == Taken
    requires s.Complete(h).looked <= j < |s.Complete(h).done|
    ensures s.Complete(h).UsedOk(j)
  {
    UsedRoom(s, h);
    RingPlace(|s.done|, j);
    if j < |s.done| { assert s.UsedOk(j); }
  }

  /** The device can report its requests in any order. */
  lemma CompleteInv(s: State, h: nat)
    requires s.Inv() && h in s.jobs && h < NUM && s.jobs[h].stage == Taken
    ensures s.Complete(h).Inv()
  {
    hide State.ChainOk, State.BufOk, State.StageOk, State.DescOk, State.AvailOk, State.UsedOk;
    CompleteShape(s, h);
    var s' := s.Complete(h);
    forall i: nat | i < NUM ensures s'.DescOk(i) { CompleteDesc(s, h, i); }
    forall g | g in s'.jobs ensures s'.ChainOk(g) && g < NUM { CompleteChain(s, h, g); HeadSmall(s', g); }
    forall g | g in s'.jobs ensures s'.BufOk(g) && s'.StageOk(g) { CompleteBuf(s, h, g); }
    forall j: nat | s'.taken <= j < |s'.order| ensures s'.AvailOk(j) { CompleteAvail(s, h, j); }
    forall j: nat | s'.looked <= j < |s'.done| ensures s'.UsedOk(j) { CompleteUsed(s, h, j); }
  }

  lemma LookShape(s: State)
    requires s.Shape() && s.looked < |s.done| && s.done[s.looked] in s.jobs
    requires s.jobs[s.done[s.looked]].stage == Done(s.looked)
    ensures s.Look().Shape()
  {
    RingPlace(s.looked, 0);
  }

  lemma LookDesc(s: State, i: nat)
    requires s.Inv() && s.looked < |s.done| && s.done[s.looked] in s.jobs
    requires s.jobs[s.done[s.looked]].stage == Done(s.looked) && i < NUM
    ensures s.Look().DescOk(i)
  {
    assert s.DescOk(i);
  }

  lemma LookChain(s: State, g: nat)
    requires s.Inv() && s.looked < |s.done| && s.done[s.looked] in s.jobs
    requires s.jobs[s.done[s.looked]].stage == Done(s.looked) && g in s.Look().jobs && s.Look().Shape()
    ensures s.Look().ChainOk(g)
  {
    assert s.ChainOk(g);
  }

  lemma LookBuf(s: State, g: nat)
    requires s.Inv() && s.looked < |s.done| && s.done[s.looked] in s.jobs
    requires s.jobs[s.done[s.looked]].stage == Done(s.looked) && g in s.Look().jobs && s.Look().Shape() && g < NUM
    ensures s.Look().BufOk(g) && s.Look().StageOk(g)
  {
    assert s.ChainOk(g) && s.BufOk(g) && s.StageOk(g) && s.BufOk(s.done[s.looked]);
  }

  lemma LookAvail(s: State, j: nat)
    requires s.Inv() && s.looked < |s.done| && s.done[s.looked] in s.jobs
    requires s.jobs[s.done[s.looked]].stage == Done(s.looked) && s.Look().taken <= j < |s.Look().order|
    ensures s.Look().AvailOk(j)
  {
    assert s.AvailOk(j);
  }

  lemma LookUsed(s: State, j: nat)
    requires s.Inv() && s.looked < |s.done| && s.done[s.looked] in s.jobs
    requires s.jobs[s.done[s.looked]].stage == Done(s.looked) && s.Look().looked <= j < |s.Look().done|
    ensures s.Look().UsedOk(j)
  {
    assert s.UsedOk(j);
  }

  lemma ReleaseShape(s: State, h: nat)
    requires s.Shape() && h in s.jobs && s.ChainOk(h) && h < NUM && s.jobs[h].i1 < NUM && s.jobs[h].i2 < NUM
    requires s.jobs[h].stage == Seen
    ensures s.Release(h).Shape()
  {
    PartShrinks(s, h);
  }

  lemma ReleaseDesc(s: State, h: nat, i: nat)
    requires s.Shape() && i < NUM && s.DescOk(i) && (i in s.part ==> s.ChainOk(s.part[i])) && h in s.jobs
    requires s.ChainOk(h) && h < NUM && s.jobs[h].i1 < NUM && s.jobs[h].i2 < NUM && s.jobs[h].stage == Seen
    ensures s.Release(h).DescOk(i)
  {
  }

  /** Two chains share no descriptor. */
  lemma ChainsApart(s: State, g: nat, h: nat)
    requires s.Shape() && g in s.jobs && h in s.jobs && g != h && s.ChainOk(g) && s.ChainOk(h)
    ensures {g, s.jobs[g].i1, s.jobs[g].i2} !! {h, s.jobs[h].i1, s.jobs[h].i2}
  {
    forall i | i in {g, s.jobs[g].i1, s.jobs[g].i2} ensures s.part[i] == g {}
    forall i | i in {h, s.jobs[h].i1, s.jobs[h].i2} ensures s.part[i] == h {}
  }

  lemma ReleaseChain(s: State, h: nat, g: nat)
    requires s.Shape() && g in s.jobs && g != h && h in s.jobs && s.ChainOk(g) && s.ChainOk(h) && h < NUM
    requires s.jobs[h].i1 < NUM && s.jobs[h].i2 < NUM && s.jobs[h].stage == Seen && g in s.Release(h).jobs
    requires s.Release(h).Shape()
    ensures s.Release(h).ChainOk(g)
  {
    ChainsApart(s, g, h);
  }

  lemma ReleaseBuf(s: State, h: nat, g: nat)
    requires s.Shape() && g in s.jobs && g < NUM && h in s.jobs && s.BufOk(g) && s.StageOk(g) && h < NUM && g != h
    requires s.BufOk(h) && s.jobs[h].i1 < NUM && s.jobs[h].i2 < NUM && s.jobs[h].stage == Seen && g in s.Release(h).jobs
    requires s.Release(h).Shape()
    ensures s.Release(h).BufOk(g) && s.Release(h).StageOk(g)
  {
  }

  lemma ReleaseAvail(s: State, h: nat, j: nat)
    requires s.Inv() && h in s.jobs && h < NUM && s.jobs[h].i1 < NUM && s.jobs[h].i2 < NUM && s.jobs[h].stage == Seen
    requires s.Release(h).taken <= j < |s.Release(h).order|
    ensures s.Release(h).AvailOk(j)
  {
    assert s.AvailOk(j);
  }

  lemma ReleaseUsed(s: State, h: nat, j: nat)
    requires s.Inv() && h in s.jobs && h < NUM && s.jobs[h].i1 < NUM && s.jobs[h].i2 < NUM && s.jobs[h].stage == Seen
    requires s.Release(h).looked <= j < |s.Release(h).done|
    ensures s.Release(h).UsedOk(j)
  {
    assert s.UsedOk(j);
  }

  /** Releasing a chain frees exactly its three descriptors. */
  lemma ReleaseInv(s: State, h: nat)
    requires s.Inv() && h in s.jobs && h < NUM && s.jobs[h].i1 < NUM && s.jobs[h].i2 < NUM && s.jobs[h].stage == Seen
    ensures s.Release(h).Inv()
  {
    hide State.ChainOk, State.BufOk, State.StageOk, State.DescOk, State.AvailOk, State.UsedOk;
    assert s.ChainOk(h);
    ReleaseShape(s, h);
    var s' := s.Release(h);
    forall i: nat | i < NUM ensures s'.DescOk(i) {
      InPart(s, i);
      assert s.DescOk(i) && (i in s.part ==> s.ChainOk(s.part[i]));
      ReleaseDesc(s, h, i);
    }
    forall g | g in s'.jobs ensures s'.ChainOk(g) && g < NUM {
      assert s.ChainOk(g) && s.ChainOk(h);
      ReleaseChain(s, h, g);
      HeadSmall(s', g);
    }
    forall g | g in s'.jobs ensures s'.BufOk(g) && s'.StageOk(g) {
      assert s.BufOk(g) && s.StageOk(g) && s.BufOk(h);
      ReleaseBuf(s, h, g);
    }
    forall j: nat | s'.taken <= j < |s'.order| ensures s'.AvailOk(j) { ReleaseAvail(s, h, j); }
    forall j: nat | s'.looked <= j < |s'.done| ensures s'.UsedOk(j) { ReleaseUsed(s, h, j); }
  }

  lemma InPart(s: State, i: nat)
    requires s.Inv() && i < NUM
    ensures i in s.part ==> s.part[i] in s.jobs
  {
    assert s.DescOk(i);
  }

  lemma HeadSmall(s: State, g: nat)
    requires s.Shape() && g in s.jobs && s.ChainOk(g)
    ensures g < NUM
  {
  }

  lemma PartGrows(s: State, h: nat, i1: nat, i2: nat)
    requires h !in s.part && i1 !in s.part && i2 !in s.part && h != i1 && h != i2 && i1 != i2
    ensures |s.part[h := h][i1 := h][i2 := h]| == |s.part| + 3
  {
  }

  lemma PartShrinks(s: State, h: nat)
    requires s.Shape() && h in s.jobs && s.ChainOk(h)
    ensures var g := s.jobs[h]; |s.part - {h, g.i1, g.i2}| + 3 == |s.part| && |s.jobs - {h}| + 1 == |s.jobs|
  {
    var g := s.jobs[h];
    var part, jobs := s.part - {h, g.i1, g.i2}, s.jobs - {h};
    assert s.part.Keys == part.Keys + {h, g.i1, g.i2} && part.Keys !! {h, g.i1, g.i2};
    assert s.jobs.Keys == jobs.Keys + {h};
    assert |s.part| == |s.part.Keys| && |part| == |part.Keys| && |jobs| == |jobs.Keys| && |s.jobs| == |s.jobs.Keys|;
  }

  /** The device takes the next published request, found in the ring at its own index. */
  lemma TakeInv(s: State)
    requires s.Inv() && s.taken < |s.order|
    ensures s.order[s.taken] in s.jobs && s.availRing[s.taken % NUM] == s.order[s.taken] && s.Take().Inv()
  {
    hide State.ChainOk, State.BufOk, State.StageOk, State.DescOk, State.AvailOk, State.UsedOk;
    NextAvail(s);
    TakeShape(s);
    var s' := s.Take();
    forall i: nat | i < NUM ensures s'.DescOk(i) { TakeDesc(s, i); }
    forall g | g in s'.jobs ensures s'.ChainOk(g) && g < NUM { TakeChain(s, g); HeadSmall(s', g); }
    forall g | g in s'.jobs ensures s'.BufOk(g) && s'.StageOk(g) { TakeBuf(s, g); }
    forall j: nat | s'.taken <= j < |s'.order| ensures s'.AvailOk(j) { TakeAvail(s, j); }
    forall j: nat | s'.looked <= j < |s'.done| ensures s'.UsedOk(j) { TakeUsed(s, j); }
  }

  lemma NextAvail(s: State)
    requires s.Inv() && s.taken < |s.order|
    ensures s.order[s.taken] in s.jobs && s.jobs[s.order[s.taken]].stage == Queued(s.taken)
    ensures s.availRing[s.taken % NUM] == s.order[s.taken]
  {
    assert s.AvailOk(s.taken);
  }

  /** The interrupt handler finds exactly the next reported request, its status is good, and only that
      request's buffer is no longer busy. */
  lemma LookInv(s: State)
    requires s.Inv() && s.looked < |s.done|
    ensures s.done[s.looked] in s.jobs && s.done[s.looked] < NUM && s.Look().Inv()
    ensures s.usedRing[s.seen % NUM] == s.done[s.looked]
    ensures s.info[s.done[s.looked]] == Info(s.jobs[s.done[s.looked]].b, 0)
  {
    hide State.ChainOk, State.BufOk, State.StageOk, State.DescOk, State.AvailOk, State.UsedOk;
    NextUsed(s);
    LookShape(s);
    var s' := s.Look();
    forall i: nat | i < NUM ensures s'.DescOk(i) { LookDesc(s, i); }
    forall g | g in s'.jobs ensures s'.ChainOk(g) && g < NUM { LookChain(s, g); HeadSmall(s', g); }
    forall g | g in s'.jobs ensures s'.BufOk(g) && s'.StageOk(g) { LookBuf(s, g); }
    forall j: nat | s'.taken <= j < |s'.order| ensures s'.AvailOk(j) { LookAvail(s, j); }
    forall j: nat | s'.looked <= j < |s'.done| ensures s'.UsedOk(j) { LookUsed(s, j); }
  }

  lemma NextUsed(s: State)
    requires s.Inv() && s.looked < |s.done|
    ensures s.done[s.looked] in s.jobs && s.jobs[s.done[s.looked]].stage == Done(s.looked) && s.done[s.looked] < NUM
    ensures s.usedRing[s.seen % NUM] == s.done[s.looked]
    ensures s.info[s.done[s.looked]] == Info(s.jobs[s.done[s.looked]].b, 0)
  {
    assert s.UsedOk(s.looked) && s.ChainOk(s.done[s.looked]) && s.BufOk(s.done[s.looked]);
    RingPlace(s.looked, 0);
  }
}
