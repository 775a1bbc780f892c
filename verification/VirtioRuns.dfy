/** Requests, device and interrupt handler interleaved (kernel/virtio_disk.c).  Driver code runs under
    vdisk_lock, so a step is what happens between two points where the lock is free, except that the
    device may act between filling an avail slot and publishing it. */
module VirtioRuns {
  import opened Common
  import opened VirtioDisk

  const WRAP := 0x1_0000   // ring indices are 16-bit

  /** How far a request has come. */
  datatype Stage = Filled | Queued | Inflight | Done | Handled

  /** was: what the transfer starts from, the buffer's contents for a write and the sector's for a read. */
  datatype Req = Req(t: Three, write: bool, sector: nat, was: int, stage: Stage)

  /** Driver and device memory, then bookkeeping of what each request has come to.
      free, desc, ops, info, status: the driver's tables.  availIdx, availRing, usedIdx, usedRing: the
      shared rings.  seen: disk.used_idx.  fetched, flying: what the device has taken from the avail ring.
      busy: the buffers with b->disk == 1.  filling: the request of whoever holds the lock.
      data, disk: contents of buffers and sectors.
      reqs: requests by buffer.  holder: whose each descriptor is.  queue: published and not fetched.
      done: completed and not seen by the handler. */
  datatype State = State(
    free: seq<bool>, desc: seq<Desc>, ops: seq<(bool, nat)>, info: seq<Option<nat>>, status: seq<nat>,
    availIdx: nat, availRing: seq<nat>, usedIdx: nat, usedRing: seq<nat>, seen: nat, fetched: nat,
    flying: set<nat>, busy: set<nat>, filling: Option<nat>, data: map<nat, int>, disk: map<nat, int>,
    reqs: map<nat, Req>, holder: map<nat, nat>, queue: seq<nat>, done: seq<nat>)

  datatype Outcome = Off | Panic | Next(s: State)

  datatype Act =
    | Prepare(b: nat, write: bool, sector: nat) | Publish
    | Fetch | Complete(h: nat)
    | Handle | Finish(b: nat)
    | Touch(b: nat, v: int)

  predicate Sized(s: State) {
    |s.free| == |s.desc| == |s.ops| == |s.info| == |s.status| == |s.availRing| == |s.usedRing| == NUM
  }

  /** Moves a request on. */
  function Move(s: State, b: nat, stage: Stage): map<nat, Req> {
    if b in s.reqs then s.reqs[b := s.reqs[b].(stage := stage)] else s.reqs
  }

  /** virtio_disk_rw up to the avail slot.  Each buffer has one request at a time, and no two buffers
      are of the same block. */
  function DoPrepare(s: State, b: nat, write: bool, sector: nat): Outcome
    requires Sized(s)
  {
    if s.filling.Some? || b in s.reqs || b !in s.data || sector !in s.disk
       || (exists x :: x in s.reqs && s.reqs[x].sector == sector) || Alloc3(s.free).None? then Off
    else
      var t := Alloc3(s.free).value;
      Next(s.(
        free := s.free[t.i0 := false][t.i1 := false][t.i2 := false],
        ops := s.ops[t.i0 := (write, sector)],
        desc := s.desc[t.i0 := Desc(Op(t.i0), true, false, t.i1)]
                      [t.i1 := Desc(Data(b), true, !write, t.i2)]
                      [t.i2 := Desc(Status(t.i0), false, true, 0)],
        status := s.status[t.i0 := 0xff], info := s.info[t.i0 := Some(b)],
        busy := s.busy + {b}, availRing := s.availRing[s.availIdx % NUM := t.i0], filling := Some(b),
        reqs := s.reqs[b := Req(t, write, sector, if write then s.data[b] else s.disk[sector], Filled)],
        holder := s.holder[t.i0 := b][t.i1 := b][t.i2 := b]))
  }

  function DoPublish(s: State): Outcome {
    if s.filling.None? then Off
    else Next(s.(availIdx := (s.availIdx + 1) % WRAP, filling := None,
                 reqs := Move(s, s.filling.value, Queued), queue := s.queue + [s.filling.value]))
  }

  /** The device takes the next entry of the avail ring. */
  function DoFetch(s: State): Outcome
    requires Sized(s)
  {
    if s.fetched == s.availIdx then Off else
    var h := s.availRing[s.fetched % NUM];
    var b := if h < NUM && s.info[h].Some? then s.info[h].value else 0;
    Next(s.(fetched := (s.fetched + 1) % WRAP, flying := s.flying + {h}, reqs := Move(s, b, Inflight),
            queue := if s.queue == [] then [] else s.queue[1..]))
  }

  /** The device follows the chain from h, moves the data, writes the status and the used entry.  A
      chain that is not header, data, status is a device failure. */
  function DoComplete(s: State, h: nat): Outcome
    requires Sized(s)
  {
    if h !in s.flying then Off else
    if h >= NUM || !s.desc[h].more || !s.desc[h].addr.Op? || s.desc[h].addr.h >= NUM || s.desc[h].next >= NUM then Panic else
    var op := s.ops[s.desc[h].addr.h];
    var d1 := s.desc[s.desc[h].next];
    if !d1.more || !d1.addr.Data? || d1.next >= NUM || d1.writable == op.0
       || d1.addr.b !in s.data || op.1 !in s.disk then Panic else
    var d2 := s.desc[d1.next];
    if d2.more || !d2.addr.Status? || !d2.writable || d2.addr.h >= NUM then Panic else
    Next(s.(
      data := if op.0 then s.data else s.data[d1.addr.b := s.disk[op.1]],
      disk := if op.0 then s.disk[op.1 := s.data[d1.addr.b]] else s.disk,
      status := s.status[d2.addr.h := 0],
      usedRing := s.usedRing[s.usedIdx % NUM := h], usedIdx := (s.usedIdx + 1) % WRAP,
      flying := s.flying - {h}, reqs := Move(s, d1.addr.b, Done), done := s.done + [d1.addr.b]))
  }

  /** One turn of the interrupt handler's loop. */
  function DoHandle(s: State): Outcome
    requires Sized(s)
  {
    if s.filling.Some? || s.seen == s.usedIdx then Off else
    var id := s.usedRing[s.seen % NUM];
    if id >= NUM || s.status[id] != 0 || s.info[id].None? then Panic else
    var b := s.info[id].value;
    Next(s.(busy := s.busy - {b}, seen := (s.seen + 1) % WRAP, reqs := Move(s, b, Handled),
            done := if s.done == [] then [] else s.done[1..]))
  }

  /** The end of virtio_disk_rw. */
  function DoFinish(s: State, b: nat): Outcome
    requires Sized(s)
  {
    if s.filling.Some? || b !in s.reqs || b in s.busy then Off else
    var t := s.reqs[b].t;
    if t.i0 >= NUM then Panic else
    var r := FreeChain(s.free, s.desc, t.i0);
    if r.None? then Panic else
    Next(s.(info := s.info[t.i0 := None], free := r.value.0, desc := r.value.1,
            reqs := s.reqs - {b}, holder := s.holder - {t.i0, t.i1, t.i2}))
  }

  /** A caller changes a buffer that it has no request for. */
  function DoTouch(s: State, b: nat, v: int): Outcome {
    if b !in s.data || b in s.reqs then Off else Next(s.(data := s.data[b := v]))
  }

  function Step(s: State, a: Act): Outcome
    requires Sized(s)
  {
    match a
    case Prepare(b, write, sector) => DoPrepare(s, b, write, sector)
    case Publish => DoPublish(s)
    case Fetch => DoFetch(s)
    case Complete(h) => DoComplete(s, h)
    case Handle => DoHandle(s)
    case Finish(b) => DoFinish(s, b)
    case Touch(b, v) => DoTouch(s, b, v)
  }

  // ---- The invariant ----

  /** The request's three descriptors, and all that the driver and the device keep about it. */
  ghost predicate ChainOk(s: State, b: nat)
    requires Sized(s)
  {
    && b in s.reqs && b in s.data && s.reqs[b].sector in s.disk
    && (var r := s.reqs[b]; var t := r.t;
        && t.i0 < NUM && t.i1 < NUM && t.i2 < NUM && t.i0 != t.i1 && t.i0 != t.i2 && t.i1 != t.i2
        && t.i0 in s.holder && t.i1 in s.holder && t.i2 in s.holder
        && s.holder[t.i0] == s.holder[t.i1] == s.holder[t.i2] == b
        && s.desc[t.i0] == Desc(Op(t.i0), true, false, t.i1)
        && s.desc[t.i1] == Desc(Data(b), true, !r.write, t.i2)
        && s.desc[t.i2] == Desc(Status(t.i0), false, true, 0)
        && s.ops[t.i0] == (r.write, r.sector) && s.info[t.i0] == Some(b)
        && s.status[t.i0] == (if r.stage.Done? || r.stage.Handled? then 0 else 0xff)
        && (if r.stage.Done? || r.stage.Handled? then s.data[b] == s.disk[r.sector] == r.was
            else (if r.write then s.data[b] else s.disk[r.sector]) == r.was)
        && (b in s.busy <==> !r.stage.Handled?)
        && (s.filling == Some(b) <==> r.stage.Filled?)
        && (t.i0 in s.flying <==> r.stage.Inflight?)
        && (b in s.queue <==> r.stage.Queued?) && (b in s.done <==> r.stage.Done?))
  }

  /** A descriptor is free, or in the chain of the request that holds it. */
  ghost predicate DescOk(s: State, i: nat)
    requires Sized(s)
  {
    if i >= NUM then i !in s.holder
    else if s.free[i] then i !in s.holder
    else i in s.holder && s.holder[i] in s.reqs &&
         (var t := s.reqs[s.holder[i]].t; i == t.i0 || i == t.i1 || i == t.i2)
  }

  /** A ring holds the chain heads of the requests listed, from slot `from` on. */
  ghost predicate RingOk(s: State, ring: seq<nat>, from: nat, idx: nat, list: seq<nat>) {
    && |ring| == NUM && from < WRAP && idx == (from + |list|) % WRAP && |list| < NUM
    && (forall j :: 0 <= j < |list| ==> list[j] in s.reqs && ring[(from + j) % NUM] == s.reqs[list[j]].t.i0)
    && (forall j, k :: 0 <= j < k < |list| ==> list[j] != list[k])
  }

  ghost predicate Apart(s: State, b: nat, c: nat) {
    b in s.reqs && c in s.reqs && b != c ==> s.reqs[b].sector != s.reqs[c].sector
  }

  ghost predicate Chains(s: State)
    requires Sized(s)
  {
    forall b {:trigger ChainOk(s, b)} :: b in s.reqs ==> ChainOk(s, b)
  }

  ghost predicate Descs(s: State)
    requires Sized(s)
  {
    forall i: nat {:trigger DescOk(s, i)} :: DescOk(s, i)
  }

  ghost predicate Sectors(s: State) {
    forall b, c {:trigger Apart(s, b, c)} :: Apart(s, b, c)
  }

  /** What the device has taken are chain heads. */
  ghost predicate FlyOk(s: State) {
    forall h :: h in s.flying ==> h in s.holder && s.holder[h] in s.reqs && s.reqs[s.holder[h]].t.i0 == h
  }

  /** A slot that is filled but not published holds the head of the request being made. */
  ghost predicate FillOk(s: State)
    requires Sized(s)
  {
    s.filling.Some? ==>
      && s.filling.value in s.reqs && s.filling.value !in s.queue
      && s.availRing[s.availIdx % NUM] == s.reqs[s.filling.value].t.i0
  }

  ghost predicate Inv(s: State) {
    && Sized(s) && Busy(s.free) == 3 * |s.reqs|
    && Chains(s) && Descs(s) && Sectors(s) && FlyOk(s) && FillOk(s)
    && RingOk(s, s.availRing, s.fetched, s.availIdx, s.queue)
    && RingOk(s, s.usedRing, s.seen, s.usedIdx, s.done)
  }

  /** A driver that has just been set up. */
  ghost predicate Start(s: State) {
    && Sized(s) && (forall i :: 0 <= i < NUM ==> s.free[i]) && s.reqs == map[] && s.holder == map[]
    && s.availIdx == s.fetched < WRAP && s.usedIdx == s.seen < WRAP && s.queue == [] && s.done == []
    && s.flying == {} && s.busy == {} && s.filling == None && (forall i :: 0 <= i < NUM ==> s.info[i].None?)
  }

  /** virtio_disk_init, with ring indices anywhere. */
  function Initial(avail: nat, used: nat, data: map<nat, int>, disk: map<nat, int>): (s: State)
    requires avail < WRAP && used < WRAP
    ensures Start(s)
  {
    State(seq(NUM, i => true), seq(NUM, i => CLEARED), seq(NUM, i => (false, 0)), seq(NUM, i => None), seq(NUM, i => 0),
          avail, seq(NUM, i => 0), used, seq(NUM, i => 0), used, avail,
          {}, {}, None, data, disk, map[], map[], [], [])
  }

  lemma StartInv(s: State)
    requires Start(s)
    ensures Inv(s)
  {
    AllFree(s.free);
    hide Busy, ChainOk;
    forall i: nat
      ensures DescOk(s, i)
    {
    }
    hide DescOk;
  }

  lemma {:induction false} AllFree(free: seq<bool>)
    requires forall i :: 0 <= i < |free| ==> free[i]
    ensures Busy(free) == 0
  {
    if free != [] { AllFree(free[1..]); }
  }

  // ---- Counting and ring slots ----

  /** Eight descriptors make two chains at most. */
  lemma FewRequests(s: State)
    requires Inv(s)
    ensures |s.reqs| <= 2
  {
    hide Chains, Descs, Sectors, FlyOk, FillOk, RingOk;
    BusyBound(s.free);
  }

  lemma {:induction false} ListSize(list: seq<nat>, keys: set<nat>)
    requires (forall j :: 0 <= j < |list| ==> list[j] in keys) && forall j, k :: 0 <= j < k < |list| ==> list[j] != list[k]
    ensures |list| <= |keys|
  {
    if list != [] {
      ListSize(list[1..], keys - {list[0]});
    }
  }

  lemma SlotWrap(x: nat, j: nat)
    ensures (x % WRAP + j) % NUM == (x + j) % NUM
  {
  }

  lemma SlotsDiffer(f: nat, j: nat, n: nat)
    requires j < n < j + NUM
    ensures (f + j) % NUM != (f + n) % NUM
  {
  }

  /** The slot that virtio_disk_rw fills holds no entry that the device has yet to read. */
  lemma NoOverwrite(s: State, j: nat)
    requires Inv(s) && j < |s.queue|
    ensures (s.fetched + j) % NUM != s.availIdx % NUM
  {
    hide Chains, Descs, Sectors, FlyOk, FillOk, Busy;
    SlotWrap(s.fetched + |s.queue|, 0);
    SlotsDiffer(s.fetched, j, |s.queue|);
  }

  /** The head of each request listed is what it was. */
  ghost predicate HeadsKept(s: State, s': State, list: seq<nat>) {
    forall j :: 0 <= j < |list| && list[j] in s.reqs ==> list[j] in s'.reqs && s'.reqs[list[j]].t == s.reqs[list[j]].t
  }

  lemma RingKeep(s: State, s': State, ring: seq<nat>, from: nat, idx: nat, list: seq<nat>)
    requires RingOk(s, ring, from, idx, list) && HeadsKept(s, s', list)
    ensures RingOk(s', ring, from, idx, list)
  {
  }

  /** An entry goes in at idx. */
  lemma RingPush(s: State, s': State, ring: seq<nat>, from: nat, idx: nat, list: seq<nat>, b: nat, h: nat)
    requires RingOk(s, ring, from, idx, list) && HeadsKept(s, s', list)
    requires b in s'.reqs && s'.reqs[b].t.i0 == h && b !in list && |list| + 1 < NUM
    ensures RingOk(s', ring[idx % NUM := h], from, (idx + 1) % WRAP, list + [b])
  {
    SlotWrap(from + |list|, 0);
    var ring' := ring[idx % NUM := h];
    forall j | 0 <= j < |list + [b]|
      ensures (list + [b])[j] in s'.reqs && ring'[(from + j) % NUM] == s'.reqs[(list + [b])[j]].t.i0
    {
      if j < |list| { SlotsDiffer(from, j, |list|); }
    }
  }

  /** The oldest entry is taken out. */
  lemma RingPop(s: State, s': State, ring: seq<nat>, from: nat, idx: nat, list: seq<nat>)
    requires RingOk(s, ring, from, idx, list) && HeadsKept(s, s', list) && list != []
    ensures RingOk(s', ring, (from + 1) % WRAP, idx, list[1..])
  {
    forall j | 0 <= j < |list[1..]|
      ensures list[1..][j] in s'.reqs && ring[((from + 1) % WRAP + j) % NUM] == s'.reqs[list[1..][j]].t.i0
    {
      SlotWrap(from + 1, j);
      assert list[1..][j] == list[j + 1];
      assert ring[(from + (j + 1)) % NUM] == s.reqs[list[j + 1]].t.i0;
    }
  }

  // ---- Prepare ----

  lemma Alloc3Fresh(free: seq<bool>)
    requires Alloc3(free).Some?
    ensures var t := Alloc3(free).value;
            && t.i0 < |free| && t.i1 < |free| && t.i2 < |free| && t.i0 != t.i1 && t.i0 != t.i2 && t.i1 != t.i2
            && free[t.i0] && free[t.i1] && free[t.i2]
            && Busy(free[t.i0 := false][t.i1 := false][t.i2 := false]) == Busy(free) + 3
  {
    var t := Alloc3(free).value;
    BusyUpdate(free, t.i0, false);
    BusyUpdate(free[t.i0 := false], t.i1, false);
    BusyUpdate(free[t.i0 := false][t.i1 := false], t.i2, false);
  }

  /** Everybody in a list has a request. */
  lemma Listed(s: State)
    requires Inv(s)
    ensures forall b :: b in s.queue || b in s.done ==> b in s.reqs
  {
    hide Chains, Descs, Sectors, FlyOk, FillOk, Busy;
  }

  /** The descriptors that Prepare takes are nobody's. */
  lemma Unclaimed(s: State)
    requires Inv(s) && Alloc3(s.free).Some?
    ensures var t := Alloc3(s.free).value;
            && t.i0 < NUM && t.i1 < NUM && t.i2 < NUM && t.i0 != t.i1 && t.i0 != t.i2 && t.i1 != t.i2
            && t.i0 !in s.holder && t.i1 !in s.holder && t.i2 !in s.holder && t.i0 !in s.flying
  {
    hide RingOk, Sectors, FillOk, Busy, Chains;
    Alloc3Fresh(s.free);
    var t := Alloc3(s.free).value;
    hide Alloc3;
    assert DescOk(s, t.i0) && DescOk(s, t.i1) && DescOk(s, t.i2);
  }

  lemma PrepareOwn(s: State, b: nat, write: bool, sector: nat)
    requires Inv(s) && DoPrepare(s, b, write, sector).Next?
    ensures ChainOk(DoPrepare(s, b, write, sector).s, b)
  {
    hide RingOk, Sectors, FillOk, FlyOk, Busy, Chains, Descs, Alloc3;
    Unclaimed(s);
    Listed(s);
  }

  lemma PrepareChain(s: State, b: nat, write: bool, sector: nat, c: nat)
    requires Inv(s) && DoPrepare(s, b, write, sector).Next? && c in s.reqs
    ensures ChainOk(DoPrepare(s, b, write, sector).s, c)
  {
    hide RingOk, Sectors, FillOk, FlyOk, Busy, Descs, Alloc3;
    Unclaimed(s);
    assert ChainOk(s, c);
  }

  lemma PrepareDesc(s: State, b: nat, write: bool, sector: nat, i: nat)
    requires Inv(s) && DoPrepare(s, b, write, sector).Next?
    ensures DescOk(DoPrepare(s, b, write, sector).s, i)
  {
    hide RingOk, Sectors, FillOk, FlyOk, Busy, Chains;
    Alloc3Fresh(s.free);
    hide Alloc3;
    assert DescOk(s, i);
  }

  lemma PrepareRest(s: State, b: nat, write: bool, sector: nat)
    requires Inv(s) && DoPrepare(s, b, write, sector).Next?
    ensures var s' := DoPrepare(s, b, write, sector).s;
            Sized(s') && Busy(s'.free) == 3 * |s'.reqs| && Sectors(s') && FlyOk(s') && FillOk(s')
  {
    hide RingOk, Chains, Descs, Alloc3, Busy;
    Listed(s);
    Alloc3Fresh(s.free);
    Unclaimed(s);
    var s' := DoPrepare(s, b, write, sector).s;
    assert |s'.reqs| == |s.reqs| + 1;
    forall x, y
      ensures Apart(s', x, y)
    {
      assert Apart(s, x, y);
    }
  }

  lemma PrepareRings(s: State, b: nat, write: bool, sector: nat)
    requires Inv(s) && DoPrepare(s, b, write, sector).Next?
    ensures var s' := DoPrepare(s, b, write, sector).s;
            && RingOk(s', s'.availRing, s'.fetched, s'.availIdx, s'.queue)
            && RingOk(s', s'.usedRing, s'.seen, s'.usedIdx, s'.done)
  {
    hide Chains, Descs, Sectors, FlyOk, FillOk, Busy, Alloc3;
    var s' := DoPrepare(s, b, write, sector).s;
    forall j | 0 <= j < |s.queue|
      ensures s'.queue[j] in s'.reqs && s'.availRing[(s.fetched + j) % NUM] == s'.reqs[s'.queue[j]].t.i0
    {
      NoOverwrite(s, j);
    }
  }

  lemma PrepareInv(s: State, b: nat, write: bool, sector: nat)
    requires Inv(s) && DoPrepare(s, b, write, sector).Next?
    ensures Inv(DoPrepare(s, b, write, sector).s)
  {
    var s' := DoPrepare(s, b, write, sector).s;
    hide Alloc3, RingOk, Sectors, FlyOk, FillOk, Busy, ChainOk, DescOk;
    PrepareRest(s, b, write, sector);
    PrepareRings(s, b, write, sector);
    forall c | c in s'.reqs
      ensures ChainOk(s', c)
    {
      if c == b { PrepareOwn(s, b, write, sector); } else { PrepareChain(s, b, write, sector, c); }
    }
    forall i: nat
      ensures DescOk(s', i)
    {
      PrepareDesc(s, b, write, sector, i);
    }
  }

  // ---- Publish ----

  lemma PublishFacts(s: State)
    requires Inv(s) && DoPublish(s).Next?
    ensures var b := s.filling.value;
            && b in s.reqs && s.reqs[b].stage.Filled? && b !in s.queue && b !in s.done
            && |s.queue| + 1 < NUM && |Move(s, b, Queued)| == |s.reqs|
            && s.availRing[(s.fetched + |s.queue|) % NUM] == s.reqs[b].t.i0
  {
    hide Descs, Sectors, FlyOk, Busy;
    var b := s.filling.value;
    assert ChainOk(s, b);
    FewRequests(s);
    ListSize(s.queue, s.reqs.Keys);
    SlotWrap(s.fetched + |s.queue|, 0);
    assert Move(s, b, Queued).Keys == s.reqs.Keys;
  }

  lemma PublishChain(s: State, c: nat)
    requires Inv(s) && DoPublish(s).Next? && c in DoPublish(s).s.reqs
    ensures ChainOk(DoPublish(s).s, c)
  {
    hide FillOk, Busy, Descs, RingOk;
    PublishFacts(s);
    hide FreeChain;
    assert ChainOk(s, c);
  }

  lemma PublishDesc(s: State, i: nat)
    requires Inv(s) && DoPublish(s).Next?
    ensures DescOk(DoPublish(s).s, i)
  {
    hide RingOk, Sectors, FillOk, FlyOk, Busy, Chains;
    PublishFacts(s);
    hide FreeChain;
    assert DescOk(s, i);
  }

  lemma PublishRest(s: State)
    requires Inv(s) && DoPublish(s).Next?
    ensures var s' := DoPublish(s).s;
            Sized(s') && Busy(s'.free) == 3 * |s'.reqs| && Sectors(s') && FlyOk(s') && FillOk(s')
  {
    hide RingOk, Chains, Descs;
    PublishFacts(s);
    hide Busy, FreeChain;
    var s' := DoPublish(s).s;
    forall x, y
      ensures Apart(s', x, y)
    {
      assert Apart(s, x, y);
    }
  }

  lemma PublishRings(s: State)
    requires Inv(s) && DoPublish(s).Next?
    ensures var s' := DoPublish(s).s;
            && RingOk(s', s'.availRing, s'.fetched, s'.availIdx, s'.queue)
            && RingOk(s', s'.usedRing, s'.seen, s'.usedIdx, s'.done)
  {
    hide Chains, Descs, Sectors, FlyOk, FillOk, Busy;
    PublishFacts(s);
    var s' := DoPublish(s).s;
    Listed(s);
    hide RingOk;
    assert s.availRing[s.availIdx % NUM := s.reqs[s.filling.value].t.i0] == s.availRing by { assert FillOk(s); }
    RingPush(s, s', s.availRing, s.fetched, s.availIdx, s.queue, s.filling.value, s.reqs[s.filling.value].t.i0);
    RingKeep(s, s', s.usedRing, s.seen, s.usedIdx, s.done);
  }

  lemma PublishInv(s: State)
    requires Inv(s) && DoPublish(s).Next?
    ensures Inv(DoPublish(s).s)
  {
    var s' := DoPublish(s).s;
    hide RingOk, Sectors, FlyOk, FillOk, Busy, ChainOk, DescOk, FreeChain;
    PublishRest(s);
    PublishRings(s);
    forall c | c in s'.reqs
      ensures ChainOk(s', c)
    {
      PublishChain(s, c);
    }
    forall i: nat
      ensures DescOk(s', i)
    {
      PublishDesc(s, i);
    }
  }

  // ---- Fetch ----

  /** The device takes the head of the oldest published request. */
  lemma FetchFacts(s: State)
    requires Inv(s) && DoFetch(s).Next?
    ensures s.queue != []
    ensures var b := s.queue[0]; var h := s.availRing[s.fetched % NUM];
            && b in s.reqs && h == s.reqs[b].t.i0 && h < NUM && s.info[h] == Some(b) && s.reqs[b].stage.Queued?
            && b !in s.queue[1..] && |Move(s, b, Inflight)| == |s.reqs|
            && h in s.holder && s.holder[h] == b
  {
    hide Descs, Sectors, FlyOk, FillOk, Busy;
    var b := s.queue[0];
    assert s.availRing[(s.fetched + 0) % NUM] == s.reqs[b].t.i0;
    assert ChainOk(s, b);
    assert Move(s, b, Inflight).Keys == s.reqs.Keys;
  }

  lemma FetchChain(s: State, c: nat)
    requires Inv(s) && DoFetch(s).Next? && c in DoFetch(s).s.reqs
    ensures ChainOk(DoFetch(s).s, c)
  {
    hide FillOk, Busy, Descs, RingOk;
    FetchFacts(s);
    hide FreeChain;
    assert ChainOk(s, c);
  }

  lemma FetchDesc(s: State, i: nat)
    requires Inv(s) && DoFetch(s).Next?
    ensures DescOk(DoFetch(s).s, i)
  {
    hide RingOk, Sectors, FillOk, FlyOk, Busy, Chains;
    FetchFacts(s);
    hide FreeChain;
    assert DescOk(s, i);
  }

  lemma FetchRest(s: State)
    requires Inv(s) && DoFetch(s).Next?
    ensures var s' := DoFetch(s).s;
            Sized(s') && Busy(s'.free) == 3 * |s'.reqs| && Sectors(s') && FlyOk(s') && FillOk(s')
  {
    hide RingOk, Chains, Descs;
    FetchFacts(s);
    hide Busy, FreeChain;
    var s' := DoFetch(s).s;
    forall x, y
      ensures Apart(s', x, y)
    {
      assert Apart(s, x, y);
    }
  }

  lemma FetchRings(s: State)
    requires Inv(s) && DoFetch(s).Next?
    ensures var s' := DoFetch(s).s;
            && RingOk(s', s'.availRing, s'.fetched, s'.availIdx, s'.queue)
            && RingOk(s', s'.usedRing, s'.seen, s'.usedIdx, s'.done)
  {
    hide Chains, Descs, Sectors, FlyOk, FillOk, Busy, RingOk;
    FetchFacts(s);
    var s' := DoFetch(s).s;
    RingPop(s, s', s.availRing, s.fetched, s.availIdx, s.queue);
    RingKeep(s, s', s.usedRing, s.seen, s.usedIdx, s.done);
  }

  lemma FetchInv(s: State)
    requires Inv(s) && DoFetch(s).Next?
    ensures Inv(DoFetch(s).s)
  {
    var s' := DoFetch(s).s;
    hide RingOk, Sectors, FlyOk, FillOk, Busy, ChainOk, DescOk, FreeChain;
    FetchRest(s);
    FetchRings(s);
    forall c | c in s'.reqs
      ensures ChainOk(s', c)
    {
      FetchChain(s, c);
    }
    forall i: nat
      ensures DescOk(s', i)
    {
      FetchDesc(s, i);
    }
  }

  // ---- Complete ----

  /** The chain the device follows is that of a request in its hands, so it is well formed. */
  lemma CompleteFacts(s: State, h: nat)
    requires Inv(s) && h in s.flying
    ensures h in s.holder && DoComplete(s, h).Next?
    ensures var b := s.holder[h];
            && b in s.reqs && s.reqs[b].t.i0 == h && s.reqs[b].stage.Inflight? && h < NUM
            && s.desc[h] == Desc(Op(h), true, false, s.reqs[b].t.i1) && s.reqs[b].t.i1 < NUM
            && s.desc[s.reqs[b].t.i1] == Desc(Data(b), true, !s.reqs[b].write, s.reqs[b].t.i2) && s.reqs[b].t.i2 < NUM
            && s.desc[s.reqs[b].t.i2] == Desc(Status(h), false, true, 0)
            && s.ops[h] == (s.reqs[b].write, s.reqs[b].sector)
            && b !in s.done && |s.done| + 1 < NUM && |Move(s, b, Done)| == |s.reqs|
  {
    hide Descs, Sectors, FillOk, Busy;
    var b := s.holder[h];
    assert ChainOk(s, b);
    FewRequests(s);
    ListSize(s.done, s.reqs.Keys);
    assert Move(s, b, Done).Keys == s.reqs.Keys;
  }

  lemma CompleteChain(s: State, h: nat, c: nat)
    requires Inv(s) && DoComplete(s, h).Next? && c in DoComplete(s, h).s.reqs
    ensures ChainOk(DoComplete(s, h).s, c)
  {
    hide FillOk, Busy, Descs, RingOk;
    CompleteFacts(s, h);
    assert ChainOk(s, c) && Apart(s, c, s.holder[h]);
  }

  lemma CompleteDesc(s: State, h: nat, i: nat)
    requires Inv(s) && DoComplete(s, h).Next?
    ensures DescOk(DoComplete(s, h).s, i)
  {
    hide RingOk, Sectors, FillOk, FlyOk, Busy, Chains;
    CompleteFacts(s, h);
    hide FreeChain;
    assert DescOk(s, i);
  }

  lemma CompleteRest(s: State, h: nat)
    requires Inv(s) && DoComplete(s, h).Next?
    ensures var s' := DoComplete(s, h).s;
            Sized(s') && Busy(s'.free) == 3 * |s'.reqs| && Sectors(s') && FlyOk(s') && FillOk(s')
  {
    hide RingOk, Chains, Descs;
    CompleteFacts(s, h);
    hide Busy, FreeChain;
    var s' := DoComplete(s, h).s;
    forall x, y
      ensures Apart(s', x, y)
    {
      assert Apart(s, x, y);
    }
  }

  lemma CompleteRings(s: State, h: nat)
    requires Inv(s) && DoComplete(s, h).Next?
    ensures var s' := DoComplete(s, h).s;
            && RingOk(s', s'.availRing, s'.fetched, s'.availIdx, s'.queue)
            && RingOk(s', s'.usedRing, s'.seen, s'.usedIdx, s'.done)
  {
    hide Chains, Descs, Sectors, FlyOk, FillOk, Busy, RingOk;
    CompleteFacts(s, h);
    var s' := DoComplete(s, h).s;
    RingPush(s, s', s.usedRing, s.seen, s.usedIdx, s.done, s.holder[h], h);
    RingKeep(s, s', s.availRing, s.fetched, s.availIdx, s.queue);
  }

  lemma CompleteInv(s: State, h: nat)
    requires Inv(s) && DoComplete(s, h).Next?
    ensures Inv(DoComplete(s, h).s)
  {
    var s' := DoComplete(s, h).s;
    hide RingOk, Sectors, FlyOk, FillOk, Busy, ChainOk, DescOk, FreeChain;
    CompleteRest(s, h);
    CompleteRings(s, h);
    forall c | c in s'.reqs
      ensures ChainOk(s', c)
    {
      CompleteChain(s, h, c);
    }
    forall i: nat
      ensures DescOk(s', i)
    {
      CompleteDesc(s, h, i);
    }
  }

  // ---- Handle ----

  /** The handler finds the oldest completed request, its status clear, and its buffer. */
  lemma HandleFacts(s: State)
    requires Inv(s) && !DoHandle(s).Off?
    ensures s.done != [] && DoHandle(s).Next? && DoHandle(s).s.busy == s.busy - {s.done[0]}
    ensures var b := s.done[0]; var id := s.usedRing[s.seen % NUM];
            && b in s.reqs && id == s.reqs[b].t.i0 && id < NUM && s.info[id] == Some(b) && s.reqs[b].stage.Done?
            && b !in s.done[1..] && |Move(s, b, Handled)| == |s.reqs|
            && b in s.data && s.reqs[b].sector in s.disk && s.data[b] == s.disk[s.reqs[b].sector] == s.reqs[b].was
  {
    hide Descs, Sectors, FlyOk, FillOk, Busy;
    var b := s.done[0];
    assert s.usedRing[(s.seen + 0) % NUM] == s.reqs[b].t.i0;
    assert ChainOk(s, b);
    assert Move(s, b, Handled).Keys == s.reqs.Keys;
  }

  lemma HandleChain(s: State, c: nat)
    requires Inv(s) && DoHandle(s).Next? && c in DoHandle(s).s.reqs
    ensures ChainOk(DoHandle(s).s, c)
  {
    hide FillOk, Busy, Descs, RingOk;
    HandleFacts(s);
    hide FreeChain;
    assert ChainOk(s, c);
  }

  lemma HandleDesc(s: State, i: nat)
    requires Inv(s) && DoHandle(s).Next?
    ensures DescOk(DoHandle(s).s, i)
  {
    hide RingOk, Sectors, FillOk, FlyOk, Busy, Chains;
    HandleFacts(s);
    hide FreeChain;
    assert DescOk(s, i);
  }

  lemma HandleRest(s: State)
    requires Inv(s) && DoHandle(s).Next?
    ensures var s' := DoHandle(s).s;
            Sized(s') && Busy(s'.free) == 3 * |s'.reqs| && Sectors(s') && FlyOk(s') && FillOk(s')
  {
    hide RingOk, Chains, Descs;
    HandleFacts(s);
    hide Busy, FreeChain;
    var s' := DoHandle(s).s;
    forall x, y
      ensures Apart(s', x, y)
    {
      assert Apart(s, x, y);
    }
  }

  lemma HandleRings(s: State)
    requires Inv(s) && DoHandle(s).Next?
    ensures var s' := DoHandle(s).s;
            && RingOk(s', s'.availRing, s'.fetched, s'.availIdx, s'.queue)
            && RingOk(s', s'.usedRing, s'.seen, s'.usedIdx, s'.done)
  {
    hide Chains, Descs, Sectors, FlyOk, FillOk, Busy, RingOk;
    HandleFacts(s);
    var s' := DoHandle(s).s;
    RingPop(s, s', s.usedRing, s.seen, s.usedIdx, s.done);
    RingKeep(s, s', s.availRing, s.fetched, s.availIdx, s.queue);
  }

  lemma HandleInv(s: State)
    requires Inv(s) && DoHandle(s).Next?
    ensures Inv(DoHandle(s).s)
  {
    var s' := DoHandle(s).s;
    hide RingOk, Sectors, FlyOk, FillOk, Busy, ChainOk, DescOk, FreeChain;
    HandleRest(s);
    HandleRings(s);
    forall c | c in s'.reqs
      ensures ChainOk(s', c)
    {
      HandleChain(s, c);
    }
    forall i: nat
      ensures DescOk(s', i)
    {
      HandleDesc(s, i);
    }
  }

  // ---- Finish ----

  /** The request is over: its three descriptors are freed, and nobody else's. */
  lemma FinishFacts(s: State, b: nat)
    requires Inv(s) && !DoFinish(s, b).Off?
    ensures DoFinish(s, b).Next? && b in s.reqs && s.reqs[b].stage.Handled? && ChainOk(s, b)
    ensures var t := s.reqs[b].t; var s' := DoFinish(s, b).s;
            && s'.free == s.free[t.i0 := true][t.i1 := true][t.i2 := true]
            && s'.desc == s.desc[t.i0 := CLEARED][t.i1 := CLEARED][t.i2 := CLEARED]
            && Busy(s'.free) == Busy(s.free) - 3 && |s'.reqs| == |s.reqs| - 1
            && b !in s.queue && b !in s.done
  {
    hide Sectors, FlyOk, FillOk, RingOk, Busy;
    assert ChainOk(s, b);
    var t := s.reqs[b].t;
    assert DescOk(s, t.i0) && DescOk(s, t.i1) && DescOk(s, t.i2);
    FreeThree(s.free, s.desc, t);
    BusyUpdate(s.free, t.i0, true);
    BusyUpdate(s.free[t.i0 := true], t.i1, true);
    BusyUpdate(s.free[t.i0 := true][t.i1 := true], t.i2, true);
    assert (s.reqs - {b}).Keys == s.reqs.Keys - {b};
  }

  lemma FinishChain(s: State, b: nat, c: nat)
    requires Inv(s) && DoFinish(s, b).Next? && c in DoFinish(s, b).s.reqs
    ensures ChainOk(DoFinish(s, b).s, c)
  {
    hide FillOk, Busy, Descs, RingOk;
    FinishFacts(s, b);
    hide FreeChain;
    assert ChainOk(s, c);
  }

  lemma FinishDesc(s: State, b: nat, i: nat)
    requires Inv(s) && DoFinish(s, b).Next?
    ensures DescOk(DoFinish(s, b).s, i)
  {
    hide RingOk, Sectors, FillOk, FlyOk, Busy, Chains;
    FinishFacts(s, b);
    hide FreeChain;
    assert DescOk(s, i);
  }

  lemma FinishRest(s: State, b: nat)
    requires Inv(s) && DoFinish(s, b).Next?
    ensures var s' := DoFinish(s, b).s;
            Sized(s') && Busy(s'.free) == 3 * |s'.reqs| && Sectors(s') && FlyOk(s') && FillOk(s')
  {
    hide RingOk, Chains, Descs, Busy, FreeChain;
    FinishFacts(s, b);
    var s' := DoFinish(s, b).s;
    assert FlyOk(s') by { assert ChainOk(s, b); }
    hide ChainOk, FlyOk;
    forall x, y
      ensures Apart(s', x, y)
    {
      assert Apart(s, x, y);
    }
  }

  lemma FinishRings(s: State, b: nat)
    requires Inv(s) && DoFinish(s, b).Next?
    ensures var s' := DoFinish(s, b).s;
            && RingOk(s', s'.availRing, s'.fetched, s'.availIdx, s'.queue)
            && RingOk(s', s'.usedRing, s'.seen, s'.usedIdx, s'.done)
  {
    hide Chains, Descs, Sectors, FlyOk, FillOk, Busy, RingOk;
    FinishFacts(s, b);
    hide FreeChain;
    var s' := DoFinish(s, b).s;
    RingKeep(s, s', s.usedRing, s.seen, s.usedIdx, s.done);
    RingKeep(s, s', s.availRing, s.fetched, s.availIdx, s.queue);
  }

  lemma FinishInv(s: State, b: nat)
    requires Inv(s) && DoFinish(s, b).Next?
    ensures Inv(DoFinish(s, b).s)
  {
    var s' := DoFinish(s, b).s;
    hide RingOk, Sectors, FlyOk, FillOk, Busy, ChainOk, DescOk, FreeChain;
    FinishRest(s, b);
    FinishRings(s, b);
    forall c | c in s'.reqs
      ensures ChainOk(s', c)
    {
      FinishChain(s, b, c);
    }
    forall i: nat
      ensures DescOk(s', i)
    {
      FinishDesc(s, b, i);
    }
  }

  // ---- Touch ----

  lemma TouchInv(s: State, b: nat, v: int)
    requires Inv(s) && DoTouch(s, b, v).Next?
    ensures Inv(DoTouch(s, b, v).s)
  {
    var s' := DoTouch(s, b, v).s;
    hide Busy;
    RingKeep(s, s', s.usedRing, s.seen, s.usedIdx, s.done);
    RingKeep(s, s', s.availRing, s.fetched, s.availIdx, s.queue);
    hide RingOk;
    forall c | c in s'.reqs
      ensures ChainOk(s', c)
    {
      assert ChainOk(s, c);
    }
    hide ChainOk;
    forall i: nat
      ensures DescOk(s', i)
    {
      assert DescOk(s, i);
    }
    hide DescOk;
    forall x, y
      ensures Apart(s', x, y)
    {
      assert Apart(s, x, y);
    }
  }

  // ---- Whole runs ----

  /** No step from a good state panics, and all of them lead to good states. */
  lemma StepInv(s: State, a: Act)
    requires Inv(s)
    ensures !Step(s, a).Panic?
    ensures Step(s, a).Next? ==> Inv(Step(s, a).s)
  {
    hide Chains, Descs, Sectors, FlyOk, FillOk, Busy, RingOk, FreeChain, Alloc3;
    match a
    case Prepare(b, write, sector) =>
      if DoPrepare(s, b, write, sector).Next? { PrepareInv(s, b, write, sector); }
    case Publish =>
      if DoPublish(s).Next? { PublishInv(s); }
    case Fetch =>
      if DoFetch(s).Next? { FetchInv(s); }
    case Complete(h) =>
      if h in s.flying {
        CompleteFacts(s, h);
        CompleteInv(s, h);
      }
    case Handle =>
      if !DoHandle(s).Off? {
        HandleFacts(s);
        HandleInv(s);
      }
    case Finish(b) =>
      if !DoFinish(s, b).Off? {
        FinishFacts(s, b);
        FinishInv(s, b);
      }
    case Touch(b, v) =>
      if DoTouch(s, b, v).Next? { TouchInv(s, b, v); }
  }

  /** The state after a run; a step that is off is skipped, a panic ends the run. */
  function Run(s: State, acts: seq<Act>): Outcome
    requires Sized(s)
    decreases |acts|
  {
    if acts == [] then Next(s) else
    match Step(s, acts[0])
    case Off => Run(s, acts[1..])
    case Panic => Panic
    case Next(s') => if Sized(s') then Run(s', acts[1..]) else Panic
  }

  lemma {:induction false} RunInv(s: State, acts: seq<Act>)
    requires Inv(s)
    ensures Run(s, acts).Next? && Inv(Run(s, acts).s)
    decreases |acts|
  {
    hide Chains, Descs, Sectors, FlyOk, FillOk, Busy, RingOk, Step;
    if acts != [] {
      StepInv(s, acts[0]);
      match Step(s, acts[0])
      case Off => RunInv(s, acts[1..]);
      case Next(s') => RunInv(s', acts[1..]);
    }
  }

  /** In every run from a fresh driver: nothing panics; descriptors are free or in the chain of one
      request; a slot about to be filled holds no unread entry; and what the handler releases is the
      buffer whose request used that chain. */
  lemma DiskSafe(s: State, acts: seq<Act>, j: nat)
    requires Start(s)
    ensures Run(s, acts).Next?
    ensures var t := Run(s, acts).s;
            && Inv(t)
            && (j < |t.queue| ==> (t.fetched + j) % NUM != t.availIdx % NUM)
            && (DoHandle(t).Next? ==>
                  && t.done != [] && t.done[0] in t.reqs
                  && t.usedRing[t.seen % NUM] == t.reqs[t.done[0]].t.i0
                  && DoHandle(t).s.busy == t.busy - {t.done[0]})
  {
    hide Run, RingOk, Chains, Descs, Sectors, FlyOk, FillOk, Busy, Start, DoHandle;
    StartInv(s);
    RunInv(s, acts);
    var t := Run(s, acts).s;
    if j < |t.queue| { NoOverwrite(t, j); }
    if DoHandle(t).Next? { HandleFacts(t); }
  }

  /** In every such run, when virtio_disk_rw returns: a write has put into the sector what the buffer held
      when it was called, a read has put into the buffer what the sector held, and they are still the same,
      however many other requests and changes of other buffers came in between. */
  lemma Transferred(s: State, acts: seq<Act>, b: nat)
    requires Start(s) && Run(s, acts).Next? && Sized(Run(s, acts).s) && !DoFinish(Run(s, acts).s, b).Off?
    ensures var t := Run(s, acts).s;
            && DoFinish(t, b).Next? && b in t.reqs && b in t.data && t.reqs[b].sector in t.disk
            && t.data[b] == t.disk[t.reqs[b].sector] == t.reqs[b].was
  {
    hide Run, RingOk, Descs, Sectors, FlyOk, FillOk, Busy, Start;
    StartInv(s);
    RunInv(s, acts);
    FinishFacts(Run(s, acts).s, b);
  }

  lemma RingMoves(s: State, ring: seq<nat>, from: nat, idx: nat, list: seq<nat>)
    requires RingOk(s, ring, from, idx, list) && list != []
    ensures from != idx
  {
  }

  /** In every such run no request is stuck: whatever it waits for next, whoever has to do it can, once
      nobody is in the middle of making a request. */
  lemma NeverStuck(s: State, acts: seq<Act>, b: nat)
    requires Start(s) && Run(s, acts).Next? && Sized(Run(s, acts).s) && b in Run(s, acts).s.reqs
    ensures var t := Run(s, acts).s;
            match t.reqs[b].stage
            case Filled => DoPublish(t).Next?
            case Queued => DoFetch(t).Next?
            case Inflight => DoComplete(t, t.reqs[b].t.i0).Next?
            case Done => t.filling.None? ==> DoHandle(t).Next?
            case Handled => t.filling.None? ==> DoFinish(t, b).Next?
  {
    hide Run, RingOk, Descs, Sectors, FlyOk, FillOk, Busy, Start, FreeChain;
    StartInv(s);
    RunInv(s, acts);
    var t := Run(s, acts).s;
    assert ChainOk(t, b);
    match t.reqs[b].stage
    case Filled =>
    case Queued => RingMoves(t, t.availRing, t.fetched, t.availIdx, t.queue);
    case Inflight => CompleteFacts(t, t.reqs[b].t.i0);
    case Done =>
      RingMoves(t, t.usedRing, t.seen, t.usedIdx, t.done);
      if t.filling.None? { HandleFacts(t); }
    case Handled =>
      if t.filling.None? { FinishFacts(t, b); }
  }

  // ---- Descriptors that are not in use ----

  /** Only the head of a request is linked to a buffer: the request's own. */
  ghost predicate InfoOk(s: State)
    requires Sized(s)
  {
    forall i: nat :: i < NUM && s.info[i].Some? ==>
      i in s.holder && s.info[i] == Some(s.holder[i]) && s.holder[i] in s.reqs && s.reqs[s.holder[i]].t.i0 == i
  }

  lemma InfoPrepare(s: State, b: nat, write: bool, sector: nat)
    requires Inv(s) && InfoOk(s) && DoPrepare(s, b, write, sector).Next?
    ensures Sized(DoPrepare(s, b, write, sector).s) && InfoOk(DoPrepare(s, b, write, sector).s)
  {
    hide RingOk, Chains, Sectors, FlyOk, FillOk, Busy, Alloc3;
    Alloc3Fresh(s.free);
    var t := Alloc3(s.free).value;
    assert DescOk(s, t.i0) && DescOk(s, t.i1) && DescOk(s, t.i2);
  }

  lemma InfoFinish(s: State, b: nat)
    requires Inv(s) && InfoOk(s) && DoFinish(s, b).Next?
    ensures Sized(DoFinish(s, b).s) && InfoOk(DoFinish(s, b).s)
  {
    hide RingOk, Chains, Descs, Sectors, FlyOk, FillOk, Busy, FreeChain;
    FinishFacts(s, b);
    var t, s' := s.reqs[b].t, DoFinish(s, b).s;
    assert t.i0 < NUM && t.i0 != t.i1 && t.i0 != t.i2 by { assert ChainOk(s, b); }
    hide ChainOk;
    forall i: nat | i < NUM && s'.info[i].Some?
      ensures i in s'.holder && s'.info[i] == Some(s'.holder[i]) && s'.holder[i] in s'.reqs
      ensures s'.reqs[s'.holder[i]].t.i0 == i
    {
      assert i != t.i0 && s.info[i].Some?;
      assert s.holder[i] != b;
    }
  }

  lemma InfoStep(s: State, a: Act)
    requires Inv(s) && InfoOk(s) && Step(s, a).Next?
    ensures Sized(Step(s, a).s) && InfoOk(Step(s, a).s)
  {
    hide RingOk, Chains, Descs, Sectors, FlyOk, FillOk, Busy, DoPrepare, DoFinish;
    if a.Prepare? {
      InfoPrepare(s, a.b, a.write, a.sector);
    } else if a.Finish? {
      InfoFinish(s, a.b);
    }
  }

  lemma {:induction false} InfoRun(s: State, acts: seq<Act>)
    requires Inv(s) && InfoOk(s)
    ensures Run(s, acts).Next? && Sized(Run(s, acts).s) && InfoOk(Run(s, acts).s) && Inv(Run(s, acts).s)
    decreases |acts|
  {
    hide RingOk, Chains, Descs, Sectors, FlyOk, FillOk, Busy, Step, InfoOk;
    if acts != [] {
      StepInv(s, acts[0]);
      match Step(s, acts[0])
      case Off => InfoRun(s, acts[1..]);
      case Next(s') =>
        InfoStep(s, acts[0]);
        InfoRun(s', acts[1..]);
    }
  }

  /** In every such run, a descriptor that is free is linked to no buffer, and the head of a request is
      linked to that request's buffer. */
  lemma FreeUnlinked(s: State, acts: seq<Act>, i: nat)
    requires Start(s) && i < NUM
    ensures Run(s, acts).Next? && Sized(Run(s, acts).s)
    ensures var t := Run(s, acts).s;
            && (t.free[i] ==> t.info[i].None?)
            && (t.info[i].Some? ==> t.info[i].value in t.reqs && t.reqs[t.info[i].value].t.i0 == i)
  {
    StartInv(s);
    assert InfoOk(s);
    hide RingOk, Chains, Sectors, FlyOk, FillOk, Busy, Run, Start;
    InfoRun(s, acts);
    assert DescOk(Run(s, acts).s, i);
  }
}
