/** The descriptor table, the rings and the requests in flight (kernel/virtio_disk.c;
    sections 2.6 and 5.2 of VIRTIO 1.1). */
module VirtioModel {
  const NUM: nat := 8
  const F_NEXT: nat := 1
  const F_WRITE: nat := 2
  const T_IN: nat := 0
  const T_OUT: nat := 1
  const BSIZE: nat := 1024

  /** What a descriptor points to: a command header, a buffer's data, a status byte. */
  datatype Addr = Null | Op(op: nat) | Data(buf: nat) | Status(of: nat)

  datatype Desc = Desc(addr: Addr, len: nat, flags: nat, next: nat)

  datatype Command = Command(kind: nat, sector: nat)

  /** A buffer and whether it is to be written. */
  datatype Request = Request(buf: nat, block: nat, write: bool)

  /** info[]: the buffer of a request (0 for none) and the status the device gives. */
  datatype Info = Info(b: nat, status: nat)

  /** How far a request has got: in the available ring, taken by the device, in the used
      ring, seen by the interrupt handler. */
  datatype Phase = Queued | Working | Completed | Done

  /** A request in flight under head descriptor h uses h, i1 and i2. */
  datatype Flight = Flight(i1: nat, i2: nat, req: Request, phase: Phase)

  const CLEAR: Desc := Desc(Null, 0, 0, 0)

  predicate HasNext(flags: nat) {
    flags % 2 == 1
  }

  /** VIRTQ_DESC_F_WRITE: the device writes the buffer, and else reads it. */
  predicate DeviceWrites(flags: nat) {
    flags / 2 % 2 == 1
  }

  /** One buffer of a chain, as the device is told of it. */
  datatype Segment = Segment(addr: Addr, len: nat, deviceWrites: bool)

  // ----- descriptors

  /** A descriptor is free, in a chain, or in the hands of the running thread. */
  predicate SlotOk(free: seq<bool>, desc: seq<Desc>, chain: map<nat, nat>, held: set<nat>, i: nat)
    requires |free| == |desc| == NUM && i < NUM
  {
    if free[i] then i !in chain && i !in held && desc[i] == CLEAR else (i in chain <==> i !in held)
  }

  ghost predicate Slots(free: seq<bool>, desc: seq<Desc>, chain: map<nat, nat>, held: set<nat>) {
    && |free| == |desc| == NUM
    && (forall i {:trigger SlotOk(free, desc, chain, held, i)} :: 0 <= i < NUM ==> SlotOk(free, desc, chain, held, i))
    && (forall i :: i in chain || i in held ==> i < NUM)
  }

  /** The chain of head h, as the device is to see it. */
  predicate ChainOk(desc: seq<Desc>, ops: seq<Command>, chain: map<nat, nat>, h: nat, f: Flight)
    requires |desc| == |ops| == NUM
  {
    && h < NUM && f.i1 < NUM && f.i2 < NUM && h != f.i1 && h != f.i2 && f.i1 != f.i2
    && h in chain && f.i1 in chain && f.i2 in chain && chain[h] == chain[f.i1] == chain[f.i2] == h
    && desc[h] == Desc(Op(h), 16, F_NEXT, f.i1)
    && desc[f.i1] == Desc(Data(f.req.buf), BSIZE, (if f.req.write then 0 else F_WRITE) + F_NEXT, f.i2)
    && desc[f.i2] == Desc(Status(h), 1, F_WRITE, 0)
    && ops[h] == Command(if f.req.write then T_OUT else T_IN, f.req.block * (BSIZE / 512))
  }

  predicate InfoOk(info: seq<Info>, busy: set<nat>, h: nat, f: Flight)
    requires |info| == NUM && h < NUM
  {
    && info[h].b == f.req.buf != 0
    && info[h].status == (if f.phase == Queued || f.phase == Working then 0xff else 0)
    && (f.req.buf in busy <==> f.phase != Done)
  }

  predicate FlightOk(desc: seq<Desc>, ops: seq<Command>, info: seq<Info>, busy: set<nat>, chain: map<nat, nat>,
                     flight: map<nat, Flight>, h: nat)
    requires |desc| == |ops| == |info| == NUM && h in flight
  {
    ChainOk(desc, ops, chain, h, flight[h]) && InfoOk(info, busy, h, flight[h])
  }

  predicate MemberOk(chain: map<nat, nat>, flight: map<nat, Flight>, i: nat)
    requires i in chain
  {
    chain[i] in flight && Uses(chain[i], flight[chain[i]], i)
  }

  predicate BuffersApart(flight: map<nat, Flight>, h: nat, k: nat)
    requires h in flight && k in flight
  {
    h != k ==> flight[h].req.buf != flight[k].req.buf
  }

  /** Chains of requests in flight: disjoint, well formed, and nothing else is in a chain. */
  ghost predicate Flights(desc: seq<Desc>, ops: seq<Command>, info: seq<Info>, busy: set<nat>, chain: map<nat, nat>,
                          flight: map<nat, Flight>) {
    && |desc| == |ops| == |info| == NUM
    && (forall h {:trigger FlightOk(desc, ops, info, busy, chain, flight, h)} ::
          h in flight ==> FlightOk(desc, ops, info, busy, chain, flight, h))
    && (forall i {:trigger MemberOk(chain, flight, i)} :: i in chain ==> MemberOk(chain, flight, i))
    && (forall h, k {:trigger BuffersApart(flight, h, k)} :: h in flight && k in flight ==> BuffersApart(flight, h, k))
  }

  predicate Uses(h: nat, f: Flight, i: nat) {
    i == h || i == f.i1 || i == f.i2
  }

  // ----- rings

  /** Entry i of what is still in a ring stands where it should. */
  predicate RingAt(ring: seq<nat>, count: nat, q: seq<nat>, i: nat)
    requires |ring| == NUM && i < |q| <= count
  {
    ring[(count - |q| + i) % NUM] == q[i]
  }

  /** Positions count up to count; the 16-bit index is idx; the entries not yet taken are q. */
  ghost predicate Ring(ring: seq<nat>, idx: nat, count: nat, q: seq<nat>) {
    && |ring| == NUM && |q| <= count && idx == count % 65536 && |q| <= NUM
    && forall i {:trigger RingAt(ring, count, q, i)} :: 0 <= i < |q| ==> RingAt(ring, count, q, i)
  }

  predicate InPhase(q: seq<nat>, flight: map<nat, Flight>, p: Phase, i: nat)
    requires i < |q|
  {
    q[i] in flight && flight[q[i]].phase == p
  }

  predicate Listed(q: seq<nat>, flight: map<nat, Flight>, p: Phase, h: nat)
    requires h in flight
  {
    flight[h].phase == p ==> h in q
  }

  predicate Apart(q: seq<nat>, i: nat, j: nat)
    requires i < |q| && j < |q|
  {
    q[i] != q[j]
  }

  /** A ring's entries are the requests in one phase, each once. */
  ghost predicate Holds(q: seq<nat>, flight: map<nat, Flight>, p: Phase) {
    && (forall i {:trigger InPhase(q, flight, p, i)} :: 0 <= i < |q| ==> InPhase(q, flight, p, i))
    && (forall h {:trigger Listed(q, flight, p, h)} :: h in flight ==> Listed(q, flight, p, h))
    && (forall i, j {:trigger Apart(q, i, j)} :: 0 <= i < j < |q| ==> Apart(q, i, j))
  }
}
