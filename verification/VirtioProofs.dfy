/** Counting descriptors, and what ring indices that wrap around mean. */
module VirtioProofs {
  import opened VirtioModel
  import opened Sets

  /** Free descriptors. */
  function CountFree(free: seq<bool>): nat {
    if free == [] then 0 else CountFree(free[..|free| - 1]) + if free[|free| - 1] then 1 else 0
  }

  lemma {:induction false} CountUpdate(free: seq<bool>, i: nat)
    requires i < |free| && free[i]
    ensures CountFree(free) == CountFree(free[i := false]) + 1
  {
    var n := |free| - 1;
    if i < n {
      CountUpdate(free[..n], i);
      assert free[i := false][..n] == free[..n][i := false];
    } else {
      assert free[i := false][..n] == free[..n];
    }
  }

  lemma {:induction false} CountNone(free: seq<bool>)
    requires forall i :: 0 <= i < |free| ==> !free[i]
    ensures CountFree(free) == 0
  {
    if free != [] {
      CountNone(free[..|free| - 1]);
    }
  }

  /** free is free0 with the descriptors of idx, all free before, taken out. */
  ghost predicate Taken(free0: seq<bool>, free: seq<bool>, idx: seq<nat>) {
    && |free| == |free0|
    && (forall k :: 0 <= k < |idx| ==> idx[k] < |free0| && free0[idx[k]])
    && (forall k, l :: 0 <= k < l < |idx| ==> idx[k] != idx[l])
    && (forall i :: 0 <= i < |free0| ==> free[i] == (free0[i] && i !in idx))
  }

  /** Each of them counts. */
  lemma {:induction false} TakenCount(free0: seq<bool>, free: seq<bool>, idx: seq<nat>)
    requires Taken(free0, free, idx)
    ensures CountFree(free0) == CountFree(free) + |idx|
    decreases |idx|
  {
    if idx == [] {
      assert free == free0;
    } else {
      var n := |idx| - 1;
      var free1 := free[idx[n] := true];
      forall i | 0 <= i < |free0| ensures free1[i] == (free0[i] && i !in idx[..n]) {
        assert i in idx[..n] ==> i in idx && i != idx[n];
        assert i in idx && i != idx[n] ==> i in idx[..n];
      }
      TakenCount(free0, free1, idx[..n]);
      CountUpdate(free1, idx[n]);
      assert free1[idx[n] := false] == free;
    }
  }

  lemma TakenAll(free0: seq<bool>, free: seq<bool>, idx: seq<nat>)
    requires Taken(free0, free, idx) && forall i :: 0 <= i < |free| ==> !free[i]
    ensures CountFree(free0) == |idx|
  {
    TakenCount(free0, free, idx);
    CountNone(free);
  }

  lemma FreeClear(free: seq<bool>, desc: seq<Desc>, chain: map<nat, nat>)
    requires Slots(free, desc, chain, {})
    ensures forall i :: 0 <= i < NUM && free[i] ==> desc[i] == CLEAR
  {
    forall i | 0 <= i < NUM && free[i] ensures desc[i] == CLEAR {
      assert SlotOk(free, desc, chain, {}, i);
    }
  }

  lemma HoldOne(free: seq<bool>, desc: seq<Desc>, chain: map<nat, nat>, held: set<nat>, i: nat)
    requires Slots(free, desc, chain, held) && i < NUM && free[i]
    ensures i !in held && Slots(free[i := false], desc, chain, held + {i})
  {
    var free', held' := free[i := false], held + {i};
    assert SlotOk(free, desc, chain, held, i);
    forall k | 0 <= k < NUM ensures SlotOk(free', desc, chain, held', k) {
      assert SlotOk(free, desc, chain, held, k);
    }
  }

  /** The first n descriptors on a chain's way have been freed. */
  ghost predicate Freed(free0: seq<bool>, desc0: seq<Desc>, free: seq<bool>, desc: seq<Desc>, way: seq<nat>, n: nat) {
    && |free0| == |desc0| == |free| == |desc| == NUM && n <= |way| == 3
    && way[0] < NUM && way[1] < NUM && way[2] < NUM && way[0] != way[1] && way[0] != way[2] && way[1] != way[2]
    && !free0[way[0]] && !free0[way[1]] && !free0[way[2]]
    && (n > 0 ==> free[way[0]] && desc[way[0]] == CLEAR)
    && (n > 1 ==> free[way[1]] && desc[way[1]] == CLEAR)
    && (n > 2 ==> free[way[2]] && desc[way[2]] == CLEAR)
    && forall k :: 0 <= k < NUM && !(n > 0 && k == way[0]) && !(n > 1 && k == way[1]) && !(n > 2 && k == way[2]) ==>
         free[k] == free0[k] && desc[k] == desc0[k]
  }

  lemma FreedAll(free0: seq<bool>, desc0: seq<Desc>, free: seq<bool>, desc: seq<Desc>, way: seq<nat>)
    requires Freed(free0, desc0, free, desc, way, 3)
    ensures CountFree(free) == CountFree(free0) + 3
  {
    forall i | 0 <= i < NUM ensures free0[i] == (free[i] && i !in way) {
      assert i in way <==> i == way[0] || i == way[1] || i == way[2];
    }
    TakenCount(free, free0, way);
  }

  // ----- rings with 16-bit indices

  lemma WrapIndex(count: nat)
    ensures count % 65536 % NUM == count % NUM
    ensures (count % 65536 + 1) % 65536 == (count + 1) % 65536
  {
    assert count == count / 65536 * 8192 * 8 + count % 65536;
  }

  lemma WrapEqual(count: nat, n: nat)
    requires n <= NUM && n <= count
    ensures (count - n) % 65536 == count % 65536 <==> n == 0
  {
  }

  lemma OtherSlot(count: nat, k: nat)
    requires 1 <= k < NUM && k <= count
    ensures (count - k) % NUM != count % NUM
  {
  }

  /** Writing behind the last entry, which does not overwrite an entry still in the ring. */
  lemma RingPush(ring: seq<nat>, idx: nat, count: nat, q: seq<nat>, h: nat)
    requires Ring(ring, idx, count, q) && |q| < NUM
    ensures Ring(ring[idx % NUM := h], (idx + 1) % 65536, count + 1, q + [h])
  {
    WrapIndex(count);
    var ring', q', c := ring[idx % NUM := h], q + [h], count + 1;
    forall i | 0 <= i < |q'| ensures RingAt(ring', c, q', i) {
      if i < |q| {
        assert RingAt(ring, count, q, i);
        OtherSlot(count, |q| - i);
      }
    }
  }

  /** Reading the first entry. */
  lemma RingPop(ring: seq<nat>, idx: nat, count: nat, q: seq<nat>)
    requires Ring(ring, idx, count, q) && q != []
    ensures ring[(count - |q|) % 65536 % NUM] == q[0] && Ring(ring, idx, count, q[1..])
    ensures ((count - |q|) % 65536 + 1) % 65536 == (count - |q[1..]|) % 65536
  {
    WrapIndex(count - |q|);
    assert RingAt(ring, count, q, 0);
    var q' := q[1..];
    forall i | 0 <= i < |q'| ensures RingAt(ring, count, q', i) {
      assert RingAt(ring, count, q, i + 1);
      assert count - |q'| + i == count - |q| + (i + 1);
      assert q'[i] == q[i + 1];
    }
  }

  /** Distinct heads, of which one more is not there, leave room in a ring. */
  lemma RoomFor(q: seq<nat>, h: nat)
    requires forall i, j :: 0 <= i < j < |q| ==> q[i] != q[j]
    requires (forall i :: 0 <= i < |q| ==> q[i] < NUM) && h < NUM && h !in q
    ensures |q| < NUM
  {
    var s := Elements(q) + {h};
    assert |s| == |q| + 1;
    forall x | x in s ensures x in Range(0, NUM) {
    }
    SubsetSize(s, Range(0, NUM));
  }

  // ----- requests in flight

  /** One request moves on; its status and its buffer's flag follow. */
  lemma PhaseMoves(desc: seq<Desc>, ops: seq<Command>, info: seq<Info>, busy: set<nat>, chain: map<nat, nat>,
                   flight: map<nat, Flight>, h: nat, p: Phase, info': seq<Info>, busy': set<nat>)
    requires Flights(desc, ops, info, busy, chain, flight) && h in flight && |info'| == NUM
    requires h < NUM && InfoOk(info', busy', h, flight[h].(phase := p))
    requires forall k :: 0 <= k < NUM && k != h ==> info'[k] == info[k]
    requires forall b :: b != flight[h].req.buf ==> (b in busy' <==> b in busy)
    ensures Flights(desc, ops, info', busy', chain, flight[h := flight[h].(phase := p)])
  {
    var flight' := flight[h := flight[h].(phase := p)];
    assert FlightOk(desc, ops, info, busy, chain, flight, h);
    forall k | k in flight' ensures FlightOk(desc, ops, info', busy', chain, flight', k) {
      assert FlightOk(desc, ops, info, busy, chain, flight, k) && BuffersApart(flight, h, k);
    }
    forall i | i in chain ensures MemberOk(chain, flight', i) {
      assert MemberOk(chain, flight, i);
    }
    forall k, l | k in flight' && l in flight' ensures BuffersApart(flight', k, l) {
      assert BuffersApart(flight, k, l);
    }
  }

  /** The first request of a ring moves on to another phase. */
  lemma HoldsPop(q: seq<nat>, flight: map<nat, Flight>, p: Phase, p': Phase)
    requires Holds(q, flight, p) && q != [] && p != p' && q[0] in flight
    ensures Holds(q[1..], flight[q[0] := flight[q[0]].(phase := p')], p)
  {
    var q', flight' := q[1..], flight[q[0] := flight[q[0]].(phase := p')];
    forall i | 0 <= i < |q'| ensures InPhase(q', flight', p, i) {
      assert InPhase(q, flight, p, i + 1) && Apart(q, 0, i + 1);
    }
    forall h | h in flight' ensures Listed(q', flight', p, h) {
      assert Listed(q, flight, p, h);
      if flight'[h].phase == p {
        var i :| 0 <= i < |q| && q[i] == h;
        assert q'[i - 1] == h;
      }
    }
    forall i, j | 0 <= i < j < |q'| ensures Apart(q', i, j) {
      assert Apart(q, i + 1, j + 1);
    }
  }

  /** A request that comes into a phase goes behind the others. */
  lemma HoldsPush(q: seq<nat>, flight: map<nat, Flight>, p: Phase, h: nat, f: Flight)
    requires Holds(q, flight, p) && f.phase == p && (h in flight ==> flight[h].phase != p)
    ensures Holds(q + [h], flight[h := f], p)
  {
    var q', flight' := q + [h], flight[h := f];
    assert q'[|q|] == h;
    forall i | 0 <= i < |q'| ensures InPhase(q', flight', p, i) {
      assert i < |q| ==> InPhase(q, flight, p, i);
    }
    forall k | k in flight' ensures Listed(q', flight', p, k) {
      assert k != h ==> Listed(q, flight, p, k);
    }
    forall i, j | 0 <= i < j < |q'| ensures Apart(q', i, j) {
      assert InPhase(q, flight, p, i);
      assert j < |q| ==> Apart(q, i, j);
    }
  }

  /** A request not in this phase comes, goes, or changes to yet another phase. */
  lemma HoldsOther(q: seq<nat>, flight: map<nat, Flight>, flight': map<nat, Flight>, p: Phase, h: nat)
    requires Holds(q, flight, p) && (h in flight ==> flight[h].phase != p) && (h in flight' ==> flight'[h].phase != p)
    requires forall k :: k != h ==> (k in flight <==> k in flight') && (k in flight ==> flight'[k] == flight[k])
    ensures Holds(q, flight', p)
  {
    forall i | 0 <= i < |q| ensures InPhase(q, flight', p, i) {
      assert InPhase(q, flight, p, i);
    }
    forall k | k in flight' ensures Listed(q, flight', p, k) {
      assert k != h ==> Listed(q, flight, p, k);
    }
  }

  /** A new request's buffer is no other's. */
  ghost predicate NewBuffer(flight: map<nat, Flight>, busy: set<nat>, b: nat) {
    b != 0 && b !in busy && forall k :: k in flight ==> flight[k].req.buf != b
  }

  /** Three descriptors in hand become the chain of a new request. */
  lemma FlightAdded(free: seq<bool>, desc: seq<Desc>, ops: seq<Command>, info: seq<Info>, busy: set<nat>,
                    chain: map<nat, nat>,
                    flight: map<nat, Flight>, h: nat, f: Flight, desc': seq<Desc>, ops': seq<Command>, info': seq<Info>,
                    chain': map<nat, nat>)
    requires Slots(free, desc, chain, {h, f.i1, f.i2}) && Flights(desc, ops, info, busy, chain, flight)
    requires |desc'| == |ops'| == |info'| == NUM && NewBuffer(flight, busy, f.req.buf) && h < NUM
    requires forall i :: 0 <= i < NUM && !Uses(h, f, i) ==> desc'[i] == desc[i]
    requires forall i :: 0 <= i < NUM && i != h ==> ops'[i] == ops[i] && info'[i] == info[i]
    requires chain' == chain[h := h][f.i1 := h][f.i2 := h]
    requires ChainOk(desc', ops', chain', h, f) && InfoOk(info', busy + {f.req.buf}, h, f)
    ensures h !in flight
    ensures Slots(free, desc', chain', {}) && Flights(desc', ops', info', busy + {f.req.buf}, chain', flight[h := f])
  {
    var flight', busy', held := flight[h := f], busy + {f.req.buf}, {h, f.i1, f.i2};
    forall i | i in held ensures i !in chain {
      assert SlotOk(free, desc, chain, held, i);
    }
    assert h in held && (h in flight ==> FlightOk(desc, ops, info, busy, chain, flight, h));
    forall i | 0 <= i < NUM ensures SlotOk(free, desc', chain', {}, i) {
      assert SlotOk(free, desc, chain, held, i);
    }
    forall k | k in flight' ensures FlightOk(desc', ops', info', busy', chain', flight', k) {
      if k != h {
        assert FlightOk(desc, ops, info, busy, chain, flight, k);
        assert flight[k].i1 !in held && flight[k].i2 !in held && k !in held;
      }
    }
    forall i | i in chain' ensures MemberOk(chain', flight', i) {
      assert i !in held ==> i in chain && MemberOk(chain, flight, i);
    }
    forall k, l | k in flight' && l in flight' ensures BuffersApart(flight', k, l) {
      assert k != h && l != h ==> BuffersApart(flight, k, l);
    }
  }

  /** A finished request's descriptors are free again. */
  lemma FlightRemoved(free: seq<bool>, desc: seq<Desc>, ops: seq<Command>, info: seq<Info>, busy: set<nat>,
                      chain: map<nat, nat>,
                      flight: map<nat, Flight>, h: nat, free': seq<bool>, desc': seq<Desc>, info': seq<Info>)
    requires Slots(free, desc, chain, {}) && Flights(desc, ops, info, busy, chain, flight) && h in flight
    requires |free'| == |desc'| == |info'| == NUM
    requires forall i :: 0 <= i < NUM ==>
      if Uses(h, flight[h], i) then free'[i] && desc'[i] == CLEAR else free'[i] == free[i] && desc'[i] == desc[i]
    requires forall i :: 0 <= i < NUM && i != h ==> info'[i] == info[i]
    ensures var chain' := chain - {h, flight[h].i1, flight[h].i2};
      Slots(free', desc', chain', {}) && Flights(desc', ops, info', busy, chain', flight - {h})
  {
    var f := flight[h];
    var chain', flight' := chain - {h, f.i1, f.i2}, flight - {h};
    assert FlightOk(desc, ops, info, busy, chain, flight, h);
    forall i | 0 <= i < NUM ensures SlotOk(free', desc', chain', {}, i) {
      assert SlotOk(free, desc, chain, {}, i);
    }
    forall k | k in flight' ensures FlightOk(desc', ops, info', busy, chain', flight', k) {
      assert FlightOk(desc, ops, info, busy, chain, flight, k);
    }
    forall i | i in chain' ensures MemberOk(chain', flight', i) {
      assert MemberOk(chain, flight, i);
    }
    forall k, l | k in flight' && l in flight' ensures BuffersApart(flight', k, l) {
      assert BuffersApart(flight, k, l);
    }
  }

  /** Heads in a ring are descriptors, so there is room for one more request. */
  lemma HeadsRoom(desc: seq<Desc>, ops: seq<Command>, info: seq<Info>, busy: set<nat>, chain: map<nat, nat>,
                  flight: map<nat, Flight>, q: seq<nat>, p: Phase, requests: map<nat, Flight>, h: nat)
    requires Flights(desc, ops, info, busy, chain, flight) && h in flight && Holds(q, requests, p)
    requires (forall k :: k in requests ==> k in flight) && (h in requests ==> requests[h].phase != p)
    ensures |q| < NUM
  {
    forall i | 0 <= i < |q| ensures q[i] < NUM && q[i] != h {
      assert InPhase(q, requests, p, i);
      assert FlightOk(desc, ops, info, busy, chain, flight, q[i]);
    }
    forall i, j | 0 <= i < j < |q| ensures q[i] != q[j] {
      assert Apart(q, i, j);
    }
    assert FlightOk(desc, ops, info, busy, chain, flight, h);
    RoomFor(q, h);
  }

  // ----- counting

  /** Every request in flight has three descriptors of its own. */
  lemma {:induction false} ChainsCount(desc: seq<Desc>, ops: seq<Command>, info: seq<Info>, busy: set<nat>,
                                       chain: map<nat, nat>,
                                       flight: map<nat, Flight>)
    requires Flights(desc, ops, info, busy, chain, flight)
    ensures |chain| == 3 * |flight|
    decreases |flight|
  {
    if flight.Keys == {} {
      forall i ensures i !in chain {
        assert i in chain ==> MemberOk(chain, flight, i);
      }
      assert chain == map[] && flight == map[];
    } else {
      var h :| h in flight;
      var f := flight[h];
      assert FlightOk(desc, ops, info, busy, chain, flight, h);
      FlightsWithout(desc, ops, info, busy, chain, flight, h);
      ThreeLess(chain, h, f.i1, f.i2);
      assert |flight - {h}| == |flight| - 1 by {
        assert flight.Keys == (flight - {h}).Keys + {h};
      }
      ChainsCount(desc, ops, info, busy, chain - {h, f.i1, f.i2}, flight - {h});
    }
  }

  lemma ThreeLess(chain: map<nat, nat>, a: nat, b: nat, c: nat)
    requires a in chain && b in chain && c in chain && a != b && a != c && b != c
    ensures |chain - {a, b, c}| == |chain| - 3
  {
    assert chain.Keys == (chain - {a, b, c}).Keys + {a, b, c};
    assert |{a, b, c}| == 3;
  }

  lemma FlightsWithout(desc: seq<Desc>, ops: seq<Command>, info: seq<Info>, busy: set<nat>, chain: map<nat, nat>,
                       flight: map<nat, Flight>, h: nat)
    requires Flights(desc, ops, info, busy, chain, flight) && h in flight
    ensures Flights(desc, ops, info, busy, chain - {h, flight[h].i1, flight[h].i2}, flight - {h})
  {
    var f := flight[h];
    var chain', flight' := chain - {h, f.i1, f.i2}, flight - {h};
    assert FlightOk(desc, ops, info, busy, chain, flight, h);
    forall k | k in flight' ensures FlightOk(desc, ops, info, busy, chain', flight', k) {
      assert FlightOk(desc, ops, info, busy, chain, flight, k);
    }
    forall i | i in chain' ensures MemberOk(chain', flight', i) {
      assert MemberOk(chain, flight, i);
    }
    forall k, l | k in flight' && l in flight' ensures BuffersApart(flight', k, l) {
      assert BuffersApart(flight, k, l);
    }
  }

  /** Descriptors that are not free, as a set. */
  ghost function InUse(free: seq<bool>): (r: set<nat>)
    ensures forall i :: i in r <==> 0 <= i < |free| && !free[i]
    ensures |r| + CountFree(free) == |free|
  {
    if free == [] then {} else
      var n := |free| - 1;
      var rest := InUse(free[..n]);
      if free[n] then rest else rest + {n}
  }

  /** Free descriptors and three for each request in flight are all there are. */
  lemma Conserved(free: seq<bool>, desc: seq<Desc>, ops: seq<Command>, info: seq<Info>, busy: set<nat>,
                  chain: map<nat, nat>,
                  flight: map<nat, Flight>)
    requires Slots(free, desc, chain, {}) && Flights(desc, ops, info, busy, chain, flight)
    ensures CountFree(free) + 3 * |flight| == NUM
  {
    ChainsCount(desc, ops, info, busy, chain, flight);
    forall i ensures i in InUse(free) <==> i in chain.Keys {
      if 0 <= i < NUM {
        assert SlotOk(free, desc, chain, {}, i);
      }
    }
    assert InUse(free) == chain.Keys;
  }

  /** Chains of two requests share no descriptor. */
  lemma ChainsApart(desc: seq<Desc>, ops: seq<Command>, info: seq<Info>, busy: set<nat>, chain: map<nat, nat>,
                    flight: map<nat, Flight>, h: nat, k: nat, i: nat)
    requires Flights(desc, ops, info, busy, chain, flight) && h in flight && k in flight && h != k
    ensures !(Uses(h, flight[h], i) && Uses(k, flight[k], i))
  {
    assert FlightOk(desc, ops, info, busy, chain, flight, h) && FlightOk(desc, ops, info, busy, chain, flight, k);
  }
}
