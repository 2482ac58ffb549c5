/** The disk driver's descriptors, requests and interrupts (kernel/virtio_disk.c).  Each
    method is what runs under vdisk_lock without a sleep, or one step of the device. */
module VirtioCode {
  import opened VirtioModel
  import opened VirtioProofs

  class Disk {
    var free: seq<bool>
    var desc: seq<Desc>
    var ops: seq<Command>
    var info: seq<Info>
    var avail: seq<nat>       // the available ring and its index
    var availIdx: nat
    var used: seq<nat>        // the used ring and its index, written by the device
    var usedRingIdx: nat
    var usedIdx: nat          // how far the driver has looked in the used ring
    var devIdx: nat           // how far the device has looked in the available ring
    var busy: set<nat>        // buffers with b->disk == 1
    ghost var chain: map<nat, nat>       // descriptors in chains, to their head
    ghost var flight: map<nat, Flight>   // requests in flight, by head
    ghost var submitted: nat
    ghost var completed: nat
    ghost var aq: seq<nat>    // submitted and not yet taken by the device
    ghost var uq: seq<nat>    // completed and not yet seen by the driver

    ghost predicate Table(held: set<nat>)
      reads this
    {
      Slots(free, desc, chain, held) && Flights(desc, ops, info, busy, chain, flight)
    }

    ghost predicate RingsFor(requests: map<nat, Flight>)
      reads this
    {
      && Ring(avail, availIdx, submitted, aq) && devIdx == (submitted - |aq|) % 65536 && Holds(aq, requests, Queued)
      && Ring(used, usedRingIdx, completed, uq) && usedIdx == (completed - |uq|) % 65536
      && Holds(uq, requests, Completed)
    }

    ghost predicate Valid()
      reads this
    {
      Table({}) && RingsFor(flight)
    }

    constructor ()
      ensures Valid() && flight == map[] && busy == {}
    {
      free := seq(NUM, i => true);
      desc := seq(NUM, i => CLEAR);
      ops := seq(NUM, i => Command(0, 0));
      info := seq(NUM, i => Info(0, 0));
      avail, used := seq(NUM, i => 0), seq(NUM, i => 0);
      availIdx, usedRingIdx, usedIdx, devIdx := 0, 0, 0, 0;
      busy := {};
      chain, flight, submitted, completed, aq, uq := map[], map[], 0, 0, [], [];
    }

    // ----- descriptors

    /** The first free descriptor, or -1. */
    method AllocDesc(ghost held: set<nat>) returns (r: int)
      requires Table(held)
      modifies `free
      ensures r == -1 ==> free == old(free) && forall i :: 0 <= i < NUM ==> !free[i]
      ensures r != -1 ==>
        0 <= r < NUM && old(free)[r] && free == old(free)[r := false] && Table(held + {r}) && r !in held
    {
      var i := 0;
      while i < NUM
        invariant i <= NUM && free == old(free) && forall j :: 0 <= j < i ==> !free[j]
      {
        if free[i] {
          HoldOne(free, desc, chain, held, i);
          free := free[i := false];
          return i;
        }
        i := i + 1;
      }
      return -1;
    }

    /** The source panics for a descriptor out of range or free already. */
    method FreeDesc(i: nat)
      requires |free| == |desc| == NUM && i < NUM && !free[i]
      modifies `free, `desc
      ensures free == old(free)[i := true] && desc == old(desc)[i := CLEAR]
    {
      desc := desc[i := CLEAR];
      free := free[i := true];
    }

    /** Three descriptors, or none of them. */
    method Alloc3Desc() returns (ok: bool, idx: seq<nat>)
      requires Table({})
      modifies `free, `desc
      ensures !ok ==> free == old(free) && desc == old(desc) && CountFree(free) < 3
      ensures ok ==> |idx| == 3 && idx[0] != idx[1] && idx[0] != idx[2] && idx[1] != idx[2]
      ensures ok ==> Table({idx[0], idx[1], idx[2]}) && desc == old(desc) && CountFree(old(free)) >= 3
      ensures ok ==> Taken(old(free), free, idx)
    {
      FreeClear(free, desc, chain);
      idx := [];
      ghost var held: set<nat> := {};
      var i := 0;
      while i < 3
        invariant i == |idx| <= 3 && Table(held) && desc == old(desc) && |free| == NUM
        invariant forall k :: k in held <==> k in idx
        invariant Taken(old(free), free, idx)
      {
        var d := AllocDesc(held);
        if d == -1 {
          TakenAll(old(free), free, idx);
          Rollback(idx, old(free), old(desc));
          return false, idx;
        }
        held := held + {d};
        idx := idx + [d];
        i := i + 1;
      }
      assert held == {idx[0], idx[1], idx[2]};
      TakenCount(old(free), free, idx);
      ok := true;
    }

    /** alloc3_desc's way back: the descriptors it has are freed again. */
    method Rollback(idx: seq<nat>, ghost free0: seq<bool>, ghost desc0: seq<Desc>)
      requires |free0| == |free| == |desc| == NUM && Taken(free0, free, idx) && desc == desc0
      requires forall i :: 0 <= i < NUM && free0[i] ==> desc0[i] == CLEAR
      modifies `free, `desc
      ensures free == free0 && desc == desc0
    {
      var j := 0;
      while j < |idx|
        invariant j <= |idx| && |free| == NUM && desc == desc0 && Taken(free0, free, idx[j..])
      {
        var rest := idx[j..];
        assert rest[0] == idx[j] && rest[1..] == idx[j + 1..];
        FreeDesc(idx[j]);
        assert desc == desc0;
        j := j + 1;
      }
      assert idx[j..] == [];
    }

    // ----- requests

    /** virtio_disk_rw until it waits for the device: false when it has to wait for free
        descriptors first.  The caller has b locked, so no request for it is in flight. */
    method Submit(req: Request) returns (ok: bool, h: nat)
      requires Valid() && NewBuffer(flight, busy, req.buf)
      modifies this
      ensures Valid()
      ensures ok <==> CountFree(old(free)) >= 3
      ensures !ok ==> flight == old(flight) && free == old(free) && desc == old(desc) && busy == old(busy)
      ensures ok ==>
        && h !in old(flight) && h in flight && flight == old(flight)[h := flight[h]]
        && flight[h].req == req && flight[h].phase == Queued && busy == old(busy) + {req.buf}
        && CountFree(free) == CountFree(old(free)) - 3 && aq == old(aq) + [h]
    {
      h := 0;
      var idx;
      ok, idx := Alloc3Desc();
      if ok {
        h := idx[0];
        TakenCount(old(free), free, idx);
        Enqueue(req, idx[0], idx[1], idx[2]);
      }
    }

    /** The chain for a request, and its head in the available ring. */
    method Enqueue(req: Request, h: nat, i1: nat, i2: nat)
      requires Table({h, i1, i2}) && h != i1 && h != i2 && i1 != i2 && NewBuffer(flight, busy, req.buf)
      requires RingsFor(flight)
      modifies `desc, `ops, `info, `busy, `chain, `flight, `avail, `availIdx, `submitted, `aq
      ensures Valid() && h !in old(flight) && flight == old(flight)[h := Flight(i1, i2, req, Queued)]
      ensures busy == old(busy) + {req.buf} && aq == old(aq) + [h]
    {
      Format(req, h, i1, i2);
      assert flight - {h} == old(flight);
      Announce(h);
    }

    /** Fills in the three descriptors and the bookkeeping. */
    method Format(req: Request, h: nat, i1: nat, i2: nat)
      requires Table({h, i1, i2}) && h != i1 && h != i2 && i1 != i2 && NewBuffer(flight, busy, req.buf)
      modifies `desc, `ops, `info, `busy, `chain, `flight
      ensures Table({}) && h !in old(flight) && flight == old(flight)[h := Flight(i1, i2, req, Queued)]
      ensures busy == old(busy) + {req.buf}
    {
      ghost var f := Flight(i1, i2, req, Queued);
      assert h in {h, i1, i2} && i1 in {h, i1, i2} && i2 in {h, i1, i2};
      ops := ops[h := Command(if req.write then T_OUT else T_IN, req.block * (BSIZE / 512))];
      desc := desc[h := Desc(Op(h), 16, F_NEXT, i1)];
      desc := desc[i1 := Desc(Data(req.buf), BSIZE, (if req.write then 0 else F_WRITE) + F_NEXT, i2)];
      desc := desc[i2 := Desc(Status(h), 1, F_WRITE, 0)];
      info := info[h := Info(req.buf, 0xff)];
      busy := busy + {req.buf};
      chain := chain[h := h][i1 := h][i2 := h];
      FlightAdded(free, old(desc), old(ops), old(info), old(busy), old(chain), flight, h, f, desc, ops, info, chain);
      flight := flight[h := f];
    }

    /** Puts the head into the available ring. */
    method Announce(h: nat)
      requires Table({}) && h in flight && flight[h].phase == Queued && RingsFor(flight - {h})
      modifies `avail, `availIdx, `submitted, `aq
      ensures Valid() && aq == old(aq) + [h]
    {
      HeadsRoom(desc, ops, info, busy, chain, flight, aq, Queued, flight - {h}, h);
      RingPush(avail, availIdx, submitted, aq, h);
      HoldsPush(aq, flight - {h}, Queued, h, flight[h]);
      assert (flight - {h})[h := flight[h]] == flight;
      HoldsOther(uq, flight - {h}, flight, Completed, h);
      avail := avail[availIdx % NUM := h];
      availIdx := (availIdx + 1) % 65536;
      submitted, aq := submitted + 1, aq + [h];
    }

    /** virtio_disk_rw after the wait: the request is over and its chain is freed. */
    method Finish(h: nat)
      requires Valid() && h in flight && flight[h].phase == Done
      modifies `info, `free, `desc, `chain, `flight
      ensures Valid() && flight == old(flight) - {h} && CountFree(free) == CountFree(old(free)) + 3
    {
      HoldsOther(aq, flight, flight - {h}, Queued, h);
      HoldsOther(uq, flight, flight - {h}, Completed, h);
      Retire(h);
    }

    /** The descriptors of a finished request are free again. */
    method Retire(h: nat)
      requires Table({}) && h in flight && flight[h].phase == Done
      modifies `info, `free, `desc, `chain, `flight
      ensures Table({}) && flight == old(flight) - {h} && CountFree(free) == CountFree(old(free)) + 3
    {
      ghost var f := flight[h];
      assert FlightOk(desc, ops, info, busy, chain, flight, h);
      info := info[h := info[h].(b := 0)];
      FreeChain(h);
      FlightRemoved(old(free), old(desc), ops, old(info), busy, chain, flight, h, free, desc, info);
      chain, flight := chain - {h, f.i1, f.i2}, flight - {h};
    }

    /** Frees the chain of head h, following the next links. */
    method FreeChain(h: nat)
      requires Slots(free, desc, chain, {}) && |ops| == NUM && h in flight && ChainOk(desc, ops, chain, h, flight[h])
      modifies `free, `desc
      ensures |free| == |desc| == NUM && CountFree(free) == CountFree(old(free)) + 3
      ensures forall i :: 0 <= i < NUM ==>
        if Uses(h, flight[h], i) then free[i] && desc[i] == CLEAR
        else free[i] == old(free)[i] && desc[i] == old(desc)[i]
    {
      ghost var f := flight[h];
      ghost var way := [h, f.i1, f.i2];
      assert SlotOk(free, desc, chain, {}, h);
      assert SlotOk(free, desc, chain, {}, f.i1) && SlotOk(free, desc, chain, {}, f.i2);
      var i := h;
      ghost var n := 0;
      while true
        invariant n < 3 && i == way[n] && Freed(old(free), old(desc), free, desc, way, n)
        decreases 3 - n
      {
        var d := desc[i];
        FreeDesc(i);
        n := n + 1;
        if !HasNext(d.flags) {
          break;
        }
        i := d.next;
      }
      FreedAll(old(free), old(desc), free, desc, way);
      assert way[0] == h && way[1] == f.i1 && way[2] == f.i2;
    }

    // ----- interrupts

    /** One pass of virtio_disk_intr's loop: the request whose head is first in the used ring
        is done, and the buffer it was submitted for is let go. */
    method IntrOne() returns (ghost h: nat)
      requires Valid() && uq != []
      modifies `busy, `usedIdx, `uq, `flight
      ensures Valid() && h == old(uq)[0] && uq == old(uq)[1..]
      ensures h in old(flight) && old(flight)[h].phase == Completed
      ensures flight == old(flight)[h := old(flight)[h].(phase := Done)] && busy == old(busy) - {old(flight)[h].req.buf}
    {
      var id := UsedHead();
      h := id;
      HoldsPop(uq, flight, Completed, Done);
      HoldsOther(aq, flight, flight[h := flight[h].(phase := Done)], Queued, h);
      Release(id);
      usedIdx := (usedIdx + 1) % 65536;
      uq := uq[1..];
    }

    /** The head that the oldest unseen entry of the used ring names. */
    method UsedHead() returns (id: nat)
      requires Valid() && uq != []
      ensures id == uq[0] && id in flight && flight[id].phase == Completed
      ensures Ring(used, usedRingIdx, completed, uq[1..]) && (usedIdx + 1) % 65536 == (completed - |uq[1..]|) % 65536
    {
      RingPop(used, usedRingIdx, completed, uq);
      assert InPhase(uq, flight, Completed, 0);
      id := used[usedIdx % NUM];
    }

    /** The buffer of a completed request is released to its waiter. */
    method Release(id: nat)
      requires Table({}) && id in flight && flight[id].phase == Completed
      modifies `busy, `flight
      ensures Table({}) && flight == old(flight)[id := old(flight)[id].(phase := Done)]
      ensures busy == old(busy) - {old(flight)[id].req.buf}
    {
      assert FlightOk(desc, ops, info, busy, chain, flight, id);
      // a status other than 0 is the source's "virtio_disk_intr status" panic
      assert info[id].status == 0;
      var b := info[id].b;
      busy := busy - {b};
      PhaseMoves(desc, ops, info, old(busy), chain, flight, id, Done, info, busy);
      flight := flight[id := flight[id].(phase := Done)];
    }

    /** All completions that the device has reported are dealt with, and only those. */
    method Intr()
      requires Valid()
      modifies `busy, `usedIdx, `uq, `flight
      ensures Valid() && uq == [] && usedIdx == usedRingIdx
      ensures flight.Keys == old(flight).Keys
      ensures forall h :: h in flight ==>
        flight[h] == if old(flight)[h].phase == Completed then old(flight)[h].(phase := Done) else old(flight)[h]
    {
      WrapEqual(completed, |uq|);
      while usedIdx != usedRingIdx
        invariant Valid() && (usedIdx == usedRingIdx <==> uq == [])
        invariant flight.Keys == old(flight).Keys
        invariant forall h :: h in flight ==>
          || flight[h] == old(flight)[h]
          || (old(flight)[h].phase == Completed && flight[h] == old(flight)[h].(phase := Done))
        decreases |uq|
      {
        ghost var h := IntrOne();
        WrapEqual(completed, |uq|);
      }
      forall h | h in flight && old(flight)[h].phase == Completed ensures flight[h].phase == Done {
        assert Listed(uq, flight, Completed, h);
      }
    }

    // ----- the device

    /** The head that the oldest entry of the available ring names. */
    method AvailHead() returns (h: nat)
      requires Valid() && aq != []
      ensures h == aq[0] && h in flight && flight[h].phase == Queued
      ensures Ring(avail, availIdx, submitted, aq[1..]) && (devIdx + 1) % 65536 == (submitted - |aq[1..]|) % 65536
    {
      RingPop(avail, availIdx, submitted, aq);
      assert InPhase(aq, flight, Queued, 0);
      h := avail[devIdx % NUM];
    }

    /** The device's reading of a chain: from descriptor to descriptor, as long as there is a next. */
    method ReadChain(h: nat) returns (segs: seq<Segment>)
      requires Valid() && h in flight
      ensures var req := flight[h].req;
        segs == [Segment(Op(h), 16, false), Segment(Data(req.buf), 1024, !req.write), Segment(Status(h), 1, true)]
    {
      assert FlightOk(desc, ops, info, busy, chain, flight, h);
      ghost var f := flight[h];
      var i := h;
      segs := [Segment(desc[i].addr, desc[i].len, DeviceWrites(desc[i].flags))];
      while HasNext(desc[i].flags)
        invariant 1 <= |segs| <= 3 && i == (if |segs| == 1 then h else if |segs| == 2 then f.i1 else f.i2)
        invariant segs[0] == Segment(Op(h), 16, false)
        invariant |segs| >= 2 ==> segs[1] == Segment(Data(f.req.buf), 1024, !f.req.write)
        invariant |segs| == 3 ==> segs[2] == Segment(Status(h), 1, true)
        decreases 3 - |segs|
      {
        i := desc[i].next;
        segs := segs + [Segment(desc[i].addr, desc[i].len, DeviceWrites(desc[i].flags))];
      }
    }

    /** The device takes the next head from the available ring and reads its chain and its command:
        type 1 is a write of the disk, 0 a read. */
    method DeviceTake() returns (seen: bool, h: nat, kind: nat, sector: nat, segs: seq<Segment>)
      requires Valid()
      modifies `devIdx, `aq, `flight
      ensures Valid() && (seen <==> old(aq) != [])
      ensures !seen ==> flight == old(flight)
      ensures seen ==>
        && h == old(aq)[0] && h in old(flight) && flight == old(flight)[h := old(flight)[h].(phase := Working)]
        && var req := flight[h].req;
           && sector == req.block * 2 && kind == (if req.write then 1 else 0)
           && segs == [Segment(Op(h), 16, false), Segment(Data(req.buf), 1024, !req.write), Segment(Status(h), 1, true)]
    {
      WrapEqual(submitted, |aq|);
      seen, h, kind, sector, segs := devIdx != availIdx, 0, 0, 0, [];
      if seen {
        h := TakeHead();
        assert FlightOk(desc, ops, info, busy, chain, flight, h);
        segs := ReadChain(h);
        var op := segs[0].addr.op;
        kind, sector := ops[op].kind, ops[op].sector;
      }
    }

    method TakeHead() returns (h: nat)
      requires Valid() && aq != []
      modifies `devIdx, `aq, `flight
      ensures Valid() && h == old(aq)[0] && h in old(flight)
      ensures flight == old(flight)[h := old(flight)[h].(phase := Working)]
    {
      h := AvailHead();
      assert FlightOk(desc, ops, info, busy, chain, flight, h);
      devIdx := (devIdx + 1) % 65536;
      ghost var moved := flight[h := flight[h].(phase := Working)];
      PhaseMoves(desc, ops, info, busy, chain, flight, h, Working, info, busy);
      HoldsPop(aq, flight, Queued, Working);
      HoldsOther(uq, flight, moved, Completed, h);
      aq, flight := aq[1..], moved;
    }

    /** The device completes a request that it has taken, in any order: status 0, and the head
        into the used ring. */
    method DeviceComplete(h: nat)
      requires Valid() && h in flight && flight[h].phase == Working
      modifies `info, `used, `usedRingIdx, `completed, `uq, `flight
      ensures Valid() && flight == old(flight)[h := old(flight)[h].(phase := Completed)] && uq == old(uq) + [h]
    {
      assert FlightOk(desc, ops, info, busy, chain, flight, h);
      info := info[h := info[h].(status := 0)];
      ghost var moved := flight[h := flight[h].(phase := Completed)];
      PhaseMoves(desc, ops, old(info), busy, chain, flight, h, Completed, info, busy);
      HoldsOther(aq, flight, moved, Queued, h);
      flight := moved;
      Report(h, old(flight));
    }

    /** The device's entry in the used ring for a request that was `before` until now. */
    method Report(h: nat, ghost before: map<nat, Flight>)
      requires Table({}) && h in flight && flight[h].phase == Completed
      requires h in before && before[h].phase == Working && flight == before[h := flight[h]]
      requires Ring(avail, availIdx, submitted, aq) && devIdx == (submitted - |aq|) % 65536 && Holds(aq, flight, Queued)
      requires Ring(used, usedRingIdx, completed, uq) && usedIdx == (completed - |uq|) % 65536
      requires Holds(uq, before, Completed)
      modifies `used, `usedRingIdx, `completed, `uq
      ensures Valid() && uq == old(uq) + [h]
    {
      HeadsRoom(desc, ops, info, busy, chain, flight, uq, Completed, before, h);
      RingPush(used, usedRingIdx, completed, uq, h);
      HoldsPush(uq, before, Completed, h, flight[h]);
      used := used[usedRingIdx % NUM := h];
      usedRingIdx := (usedRingIdx + 1) % 65536;
      completed, uq := completed + 1, uq + [h];
    }
  }
}
