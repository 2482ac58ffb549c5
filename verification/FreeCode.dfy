/** Taking a page table apart (freewalk, uvmfree of kernel/vm.c). */
module FreeCode {
  import opened PageModel
  import opened PageChange
  import opened VmCode
  import opened UvmCode

  /** Whether a frame is the table that entry (lv, k) of pt points to, or a table below it. */
  predicate InSub(u: Use, pt: nat, lv: nat, k: nat) {
    u.Slot? && u.pt == pt && 1 <= u.lv <= lv && Idx(u.k, lv - u.lv) == k
  }

  /** The same for the tables below the first n entries of that table. */
  predicate InFirst(u: Use, pt: nat, lv: nat, k: nat, n: nat) {
    u.Slot? && u.pt == pt && 1 <= u.lv < lv && k * 512 <= Idx(u.k, lv - 1 - u.lv) < k * 512 + n
  }

  predicate Sub(owner: map<nat, Use>, pt: nat, lv: nat, k: nat, g: nat) {
    g in owner && InSub(owner[g], pt, lv, k)
  }

  predicate First(owner: map<nat, Use>, pt: nat, lv: nat, k: nat, n: nat, g: nat) {
    g in owner && InFirst(owner[g], pt, lv, k, n)
  }

  /** A table and what is below all its entries. */
  lemma SubIsFirst(u: Use, pt: nat, lv: nat, k: nat)
    requires 1 <= lv <= 3 && Dom(lv, k)
    ensures InSub(u, pt, lv, k) <==> u == Slot(pt, lv, k) || InFirst(u, pt, lv, k, 512)
  {
    if u.Slot? && u.pt == pt && 1 <= u.lv < lv {
      var x := Idx(u.k, lv - 1 - u.lv);
      assert Idx(u.k, lv - u.lv) == x / 512;
    }
  }

  lemma FirstNext(u: Use, pt: nat, lv: nat, k: nat, n: nat)
    requires 1 <= lv
    ensures InFirst(u, pt, lv, k, n + 1) <==> InFirst(u, pt, lv, k, n) || InSub(u, pt, lv - 1, k * 512 + n)
  {
  }

  /** A valid entry has valid entries above it. */
  lemma {:induction false} ValidAbove(mem: seq<Page>, pt: nat, lv: nat, k: nat, d: nat)
    requires V(Ent(mem, pt, lv, k)) && lv + d <= 3
    ensures V(Ent(mem, pt, lv + d, Idx(k, d)))
    decreases d
  {
    if d > 0 {
      ValidAbove(mem, pt, lv, k, d - 1);
    }
  }

  /** Below an entry that is not valid there are no tables. */
  lemma NothingInSub(mem: seq<Page>, owner: map<nat, Use>, pt: nat, lv: nat, k: nat, g: nat)
    requires Tree(mem, owner) && lv <= 3 && !V(Ent(mem, pt, lv, k))
    ensures !Sub(owner, pt, lv, k, g)
  {
    if Sub(owner, pt, lv, k, g) {
      assert FrameOk(mem, owner, g);
      ValidAbove(mem, pt, owner[g].lv, owner[g].k, lv - owner[g].lv);
    }
  }

  /** Memory is as it was outside some frames. */
  ghost predicate SameBut(mem: seq<Page>, mem': seq<Page>, gone: set<nat>) {
    |mem| == |mem'| == HI && forall g :: 0 <= g < HI && g !in gone ==> mem'[g] == mem[g]
  }

  /** The tables from (lv, k) down are still there, as they were in mem0. */
  ghost predicate Intact(mem0: seq<Page>, owner0: map<nat, Use>, mem: seq<Page>, owner: map<nat, Use>, pt: nat, lv: nat,
                         k: nat) {
    && |mem0| == |mem| == HI
    && forall g: nat :: Sub(owner0, pt, lv, k, g) ==> 0 <= g < HI && g in owner && mem[g] == mem0[g]
  }

  /** What goes while table t of entry (lv, k) is taken apart, its first n entries done. */
  ghost predicate Gone(owner0: map<nat, Use>, pt: nat, lv: nat, k: nat, n: nat, gone: set<nat>) {
    forall g :: g in gone <==> First(owner0, pt, lv, k, n, g)
  }

  ghost predicate Done(owner0: map<nat, Use>, pt: nat, lv: nat, k: nat, gone: set<nat>) {
    forall g :: g in gone <==> Sub(owner0, pt, lv, k, g)
  }

  lemma NothingDone(mem: seq<Page>, owner: map<nat, Use>, pt: nat, lv: nat, k: nat)
    requires Tree(mem, owner) && lv <= 3 && !V(Ent(mem, pt, lv, k))
    ensures Done(owner, pt, lv, k, {})
  {
    forall g: nat ensures !Sub(owner, pt, lv, k, g) {
      NothingInSub(mem, owner, pt, lv, k, g);
    }
  }

  lemma GoneNext(owner0: map<nat, Use>, pt: nat, lv: nat, k: nat, n: nat, gone: set<nat>, more: set<nat>)
    requires 1 <= lv && Gone(owner0, pt, lv, k, n, gone) && Done(owner0, pt, lv - 1, k * 512 + n, more)
    ensures Gone(owner0, pt, lv, k, n + 1, gone + more)
  {
    forall g ensures g in gone + more <==> First(owner0, pt, lv, k, n + 1, g) {
      if g in owner0 {
        FirstNext(owner0[g], pt, lv, k, n);
        assert Sub(owner0, pt, lv - 1, k * 512 + n, g) <==> g in more;
      }
    }
  }

  lemma GoneAll(owner0: map<nat, Use>, pt: nat, lv: nat, k: nat, gone: set<nat>, t: nat)
    requires 1 <= lv <= 3 && Dom(lv, k) && Gone(owner0, pt, lv, k, 512, gone) && t in owner0
    requires owner0[t] == Slot(pt, lv, k)
    requires forall g :: g in owner0 && owner0[g] == Slot(pt, lv, k) ==> g == t
    ensures Done(owner0, pt, lv, k, gone + {t})
  {
    forall g ensures g in gone + {t} <==> Sub(owner0, pt, lv, k, g) {
      if g in owner0 {
        SubIsFirst(owner0[g], pt, lv, k);
        assert First(owner0, pt, lv, k, 512, g) <==> g in gone;
      }
    }
  }

  lemma ChildSub(u: Use, pt: nat, lv: nat, k: nat, n: nat)
    requires 1 <= lv <= 3 && Dom(lv, k) && n < 512 && InSub(u, pt, lv - 1, k * 512 + n)
    ensures InSub(u, pt, lv, k) && !InFirst(u, pt, lv, k, n) && u != Slot(pt, lv, k)
  {
    SubIsFirst(u, pt, lv, k);
  }

  /** The table below the next entry is still intact. */
  lemma ChildIntact(mem0: seq<Page>, owner0: map<nat, Use>, mem: seq<Page>, owner: map<nat, Use>, mem1: seq<Page>,
                    owner1: map<nat, Use>,
                    pt: nat, lv: nat, k: nat, n: nat, gone: set<nat>, t: nat, l: nat, c: nat)
    requires 1 <= lv <= 3 && Dom(lv, k) && n < 512 && Intact(mem0, owner0, mem, owner, pt, lv, k) && l == lv - 1
    requires c == k * 512 + n
    requires Gone(owner0, pt, lv, k, n, gone) && t in owner0 && owner0[t] == Slot(pt, lv, k)
    requires SameBut(mem, mem1, gone + {t}) && owner1 == owner - gone
    ensures Intact(mem0, owner0, mem1, owner1, pt, l, c) && !Sub(owner0, pt, l, c, t)
  {
    forall g: nat | Sub(owner0, pt, l, c, g) ensures 0 <= g < HI && g in owner1 && mem1[g] == mem0[g] {
      ChildSub(owner0[g], pt, lv, k, n);
      assert Sub(owner0, pt, lv, k, g);
      assert g in gone <==> First(owner0, pt, lv, k, n, g);
      assert g !in gone + {t};
    }
  }

  /** One table, one use: the frame of a valid entry is the only one used for it. */
  lemma OneFrame(mem: seq<Page>, owner: map<nat, Use>, pt: nat, lv: nat, k: nat)
    requires Tree(mem, owner) && IsRoot(owner, pt) && 1 <= lv <= 3 && Dom(lv, k) && V(Ent(mem, pt, lv, k))
    ensures var t := Frame(Ent(mem, pt, lv, k));
      && t in owner && owner[t] == Slot(pt, lv, k) && t < HI
      && forall g :: g in owner && owner[g] == Slot(pt, lv, k) ==> g == t
  {
    assert SlotOk(mem, owner, pt, lv, k);
    forall g | g in owner && owner[g] == Slot(pt, lv, k) ensures g == Frame(Ent(mem, pt, lv, k)) {
      assert FrameOk(mem, owner, g);
    }
  }

  /** Nothing is mapped in the whole address space. */
  ghost predicate NoLeaf(mem: seq<Page>, pt: nat) {
    forall v: nat :: Dom(0, v) ==> Map(mem, pt, v) == 0
  }

  lemma EightTimes(n: nat)
    ensures n * 8 % 8 == 0
  {
  }

  /** An entry with no flag but the valid one points to a table. */
  lemma NotLeaf(e: nat)
    ensures Flags(e) == PTE_V ==> e / 2 % 8 == 0
  {
    if Flags(e) == PTE_V {
      var q := e / 1024;
      assert e == q * 512 * 2 + 1;
      assert e / 2 == q * 512;
      EightTimes(q * 64);
    }
  }

  /** Entry i of the table of (lv, k): not a leaf, and what it says of the tables below. */
  lemma EntryOf(mem: seq<Page>, owner: map<nat, Use>, pt: nat, lv: nat, k: nat, i: nat)
    requires Tree(mem, owner) && IsRoot(owner, pt) && 1 <= lv <= 3 && Dom(lv, k) && V(Ent(mem, pt, lv, k))
    requires NoLeaf(mem, pt)
    requires i < 512 && Frame(Ent(mem, pt, lv, k)) < HI
    ensures var e := mem[Frame(Ent(mem, pt, lv, k))][i];
      && Dom(lv - 1, k * 512 + i) && Ent(mem, pt, lv - 1, k * 512 + i) == Norm(e)
      && (V(e) ==> lv > 1 && e / 2 % 8 == 0)
  {
    assert (k * 512 + i) / 512 == k && (k * 512 + i) % 512 == i;
    assert SlotOk(mem, owner, pt, lv - 1, k * 512 + i);
    assert lv == 1 ==> Map(mem, pt, k * 512 + i) == 0;
    NotLeaf(mem[Frame(Ent(mem, pt, lv, k))][i]);
  }

  /** Entry (lv, k) of pt, which maps nothing, points to table t. */
  ghost predicate TableAt(mem: seq<Page>, owner: map<nat, Use>, pt: nat, lv: nat, k: nat, t: nat) {
    && Tree(mem, owner) && IsRoot(owner, pt) && 1 <= lv <= 3 && Dom(lv, k) && NoLeaf(mem, pt)
    && V(Ent(mem, pt, lv, k)) && Frame(Ent(mem, pt, lv, k)) == t
  }

  /** Table t, intact in (mem1, owner1), with its first i entries done since. */
  ghost predicate Parted(vm: Vm, owner0: map<nat, Use>, mem1: seq<Page>, owner1: map<nat, Use>, pt: nat, lv: nat,
                         k: nat, t: nat, i: nat, gone: set<nat>)
    reads vm
  {
    && vm.Alloc() && Gone(owner0, pt, lv, k, i, gone) && t in vm.owner && t < HI && i <= 512
    && vm.owner == owner1 - gone && SameBut(mem1, vm.mem, gone + {t})
    && forall j :: i <= j < 512 ==> vm.mem[t][j] == mem1[t][j]
  }

  /** Frees table t, which entry (lv, k) of pt pointed to in (mem0, owner0), and all tables
      below it; gone are their frames. */
  method Freewalk(vm: Vm, t: nat, ghost pt: nat, ghost lv: nat, ghost k: nat, ghost mem0: seq<Page>,
                  ghost owner0: map<nat, Use>)
    returns (ghost gone: set<nat>)
    requires vm.Alloc() && TableAt(mem0, owner0, pt, lv, k, t) && Intact(mem0, owner0, vm.mem, vm.owner, pt, lv, k)
    modifies vm
    ensures vm.Alloc() && Done(owner0, pt, lv, k, gone)
    ensures vm.owner == old(vm.owner) - gone && SameBut(old(vm.mem), vm.mem, gone)
    decreases lv, 3
  {
    ghost var mem1, owner1 := vm.mem, vm.owner;
    OneFrame(mem0, owner0, pt, lv, k);
    assert Sub(owner0, pt, lv, k, t);
    gone := {};
    var i := 0;
    while i < 512
      invariant Parted(vm, owner0, mem1, owner1, pt, lv, k, t, i, gone)
    {
      gone := FreeNext(vm, t, i, pt, lv, k, mem0, owner0, mem1, owner1, gone);
      i := i + 1;
    }
    vm.Kfree(t);
    GoneAll(owner0, pt, lv, k, gone, t);
    gone := gone + {t};
  }

  /** One pass of freewalk's loop. */
  method FreeNext(vm: Vm, t: nat, i: nat, ghost pt: nat, ghost lv: nat, ghost k: nat, ghost mem0: seq<Page>,
                  ghost owner0: map<nat, Use>, ghost mem1: seq<Page>, ghost owner1: map<nat, Use>, ghost gone: set<nat>)
    returns (ghost now: set<nat>)
    requires TableAt(mem0, owner0, pt, lv, k, t) && Intact(mem0, owner0, mem1, owner1, pt, lv, k) && i < 512
    requires Parted(vm, owner0, mem1, owner1, pt, lv, k, t, i, gone)
    modifies vm
    ensures Parted(vm, owner0, mem1, owner1, pt, lv, k, t, i + 1, now)
    decreases lv, 2
  {
    OneFrame(mem0, owner0, pt, lv, k);
    assert Sub(owner0, pt, lv, k, t);
    ghost var more := FreeEntry(vm, t, i, pt, lv, k, mem0, owner0, mem1, owner1, gone);
    GoneNext(owner0, pt, lv, k, i, gone, more);
    now := gone + more;
  }

  /** The entry, and the tables below it. */
  method FreeEntry(vm: Vm, t: nat, i: nat, ghost pt: nat, ghost lv: nat, ghost k: nat, ghost mem0: seq<Page>,
                   ghost owner0: map<nat, Use>,
                   ghost mem1: seq<Page>, ghost owner1: map<nat, Use>, ghost gone: set<nat>)
    returns (ghost more: set<nat>)
    requires vm.Alloc() && TableAt(mem0, owner0, pt, lv, k, t) && t in owner0 && owner0[t] == Slot(pt, lv, k)
    requires i < 512 && t < HI
    requires Intact(mem0, owner0, mem1, owner1, pt, lv, k) && Gone(owner0, pt, lv, k, i, gone) && t in vm.owner
    requires vm.owner == owner1 - gone && SameBut(mem1, vm.mem, gone + {t}) && vm.mem[t][i] == mem0[t][i]
    modifies vm
    ensures vm.Alloc() && Done(owner0, pt, lv - 1, k * 512 + i, more) && t !in more
    ensures vm.owner == old(vm.owner) - more && SameBut(old(vm.mem), vm.mem, more + {t})
    ensures vm.mem[t] == old(vm.mem)[t][i := vm.mem[t][i]]
    decreases lv, 1
  {
    EntryOf(mem0, owner0, pt, lv, k, i);
    var pte := vm.mem[t][i];
    more := {};
    if V(pte) && pte / 2 % 8 == 0 {
      ghost var l, c := lv - 1, k * 512 + i;
      ChildIntact(mem0, owner0, mem1, owner1, vm.mem, vm.owner, pt, lv, k, i, gone, t, l, c);
      more := FreeChild(vm, t, i, Frame(pte), pt, l, c, mem0, owner0);
    } else if V(pte) {
      assert false;  // the source's "freewalk: leaf" panic
    } else {
      NothingDone(mem0, owner0, pt, lv - 1, k * 512 + i);
    }
  }

  /** The table c below entry i of t, then the entry. */
  method FreeChild(vm: Vm, t: nat, i: nat, c: nat, ghost pt: nat, ghost lv: nat, ghost k: nat, ghost mem0: seq<Page>,
                   ghost owner0: map<nat, Use>)
    returns (ghost more: set<nat>)
    requires vm.Alloc() && TableAt(mem0, owner0, pt, lv, k, c) && Intact(mem0, owner0, vm.mem, vm.owner, pt, lv, k)
    requires i < 512 && t in vm.owner && t < HI && !Sub(owner0, pt, lv, k, t)
    modifies vm
    ensures vm.Alloc() && Done(owner0, pt, lv, k, more) && t !in more
    ensures vm.owner == old(vm.owner) - more && SameBut(old(vm.mem), vm.mem, more + {t})
    ensures vm.mem[t] == old(vm.mem)[t][i := 0]
    decreases lv, 4
  {
    more := Freewalk(vm, c, pt, lv, k, mem0, owner0);
    vm.PutEntry(t, i, 0);
  }

  // ----- a whole address space

  /** Frames used for a page table: its tables and its user pages. */
  predicate Of(u: Use, pt: nat) {
    u.Slot? && u.pt == pt
  }

  predicate FreedFrame(mem: seq<Page>, owner: map<nat, Use>, mem': seq<Page>, owner': map<nat, Use>, pt: nat, g: nat)
    requires g in owner && |mem| == |mem'| == HI
  {
    if Of(owner[g], pt) then g !in owner' else Kept(mem, owner, mem', owner', g)
  }

  /** Every frame of pt was freed, and other address spaces are as they were. */
  ghost predicate Freed(mem: seq<Page>, owner: map<nat, Use>, mem': seq<Page>, owner': map<nat, Use>, pt: nat) {
    && |mem| == |mem'| == HI
    && (forall g {:trigger FreedFrame(mem, owner, mem', owner', pt, g)} ::
              g in owner ==> FreedFrame(mem, owner, mem', owner', pt, g))
    && (forall g :: g in owner' ==> g in owner)
    && (forall qt: nat, v: nat {:trigger Map(mem', qt, v)} :: IsRoot(owner, qt) && qt != pt && Dom(0, v) ==>
          Map(mem', qt, v) == Map(mem, qt, v))
  }

  /** Other trees do not reach into the frames of pt. */
  lemma {:induction false} EntOther(mem: seq<Page>, owner: map<nat, Use>, mem': seq<Page>, gone: set<nat>, pt: nat,
                                    qt: nat, lv: nat, k: nat)
    requires Tree(mem, owner) && IsRoot(owner, qt) && qt != pt && lv <= 3 && Dom(lv, k) && SameBut(mem, mem', gone)
    requires forall g :: g in gone ==> g in owner && Of(owner[g], pt)
    ensures Ent(mem', qt, lv, k) == Ent(mem, qt, lv, k)
    decreases 3 - lv
  {
    if lv < 3 {
      EntOther(mem, owner, mem', gone, pt, qt, lv + 1, k / 512);
      assert SlotOk(mem, owner, qt, lv + 1, k / 512);
    }
  }

  lemma TreeWithout(mem: seq<Page>, owner: map<nat, Use>, mem': seq<Page>, gone: set<nat>, pt: nat)
    requires Tree(mem, owner) && SameBut(mem, mem', gone)
    requires forall g :: g in gone <==> g in owner && Of(owner[g], pt)
    ensures Tree(mem', owner - gone)
    ensures forall qt: nat, v: nat {:trigger Map(mem', qt, v)} :: IsRoot(owner, qt) && qt != pt && Dom(0, v) ==>
              Map(mem', qt, v) == Map(mem, qt, v)
  {
    var owner' := owner - gone;
    forall qt, lv, k | IsRoot(owner, qt) && qt != pt && 0 <= lv <= 3 && Dom(lv, k)
      ensures Ent(mem', qt, lv, k) == Ent(mem, qt, lv, k)
    {
      EntOther(mem, owner, mem', gone, pt, qt, lv, k);
    }
    forall f | f in owner' ensures FrameOk(mem', owner', f) {
      assert FrameOk(mem, owner, f);
    }
    forall qt, lv, k | IsRoot(owner', qt) && 0 <= lv <= 3 && Dom(lv, k) ensures SlotOk(mem', owner', qt, lv, k) {
      assert SlotOk(mem, owner, qt, lv, k);
    }
    forall qt: nat, v: nat | IsRoot(owner, qt) && qt != pt && Dom(0, v) ensures Map(mem', qt, v) == Map(mem, qt, v) {
      assert Ent(mem', qt, 0, v) == Ent(mem, qt, 0, v);
    }
  }

  /** With no page mapped, the tables are all that is left of pt. */
  lemma AllTables(mem: seq<Page>, owner: map<nat, Use>, pt: nat, gone: set<nat>)
    requires Tree(mem, owner) && NoLeaf(mem, pt) && Done(owner, pt, 3, 0, gone)
    ensures forall g :: g in gone <==> g in owner && Of(owner[g], pt)
  {
    forall g ensures g in gone <==> g in owner && Of(owner[g], pt) {
      if g in owner && Of(owner[g], pt) {
        assert FrameOk(mem, owner, g);
        var u := owner[g];
        assert u.lv == 0 ==> Map(mem, pt, u.k) == 0;
        RootAbove(u.lv, u.k);
        assert Sub(owner, pt, 3, 0, g);
      } else {
        assert !Sub(owner, pt, 3, 0, g);
      }
    }
  }

  lemma RootAbove(lv: nat, k: nat)
    requires 1 <= lv <= 3 && Dom(lv, k)
    ensures Idx(k, 3 - lv) == 0
  {
    if lv == 1 {
      assert Idx(k, 2) == Idx(k, 1) / 512 == k / 512 / 512;
    } else if lv == 2 {
      assert Idx(k, 1) == k / 512;
    }
  }

  /** Frees sz bytes of user memory and all tables of pt. */
  method Uvmfree(vm: Vm, pt: nat, sz: nat)
    requires vm.Valid() && IsRoot(vm.owner, pt) && Pages(sz) <= MAXVPN
    requires forall v: nat :: Dom(0, v) && (v >= Pages(sz) || v >= USERTOP) ==> Map(vm.mem, pt, v) == 0
    modifies vm
    ensures vm.Valid() && Freed(old(vm.mem), old(vm.owner), vm.mem, vm.owner, pt)
  {
    RemovedNot(vm.mem, vm.owner, pt, 0, true);
    if sz > 0 {
      var _, _ := vm.Uvmunmap(pt, 0, Pages(sz), true);
    }
    ghost var mem1, owner1 := vm.mem, vm.owner;
    assert RemovedFrame(old(vm.mem), old(vm.owner), mem1, owner1, pt, 0, Pages(sz), true, pt);
    assert NoLeaf(mem1, pt);
    FreeTables(vm, pt);
    FreedAfter(old(vm.mem), old(vm.owner), mem1, owner1, vm.mem, vm.owner, pt, Pages(sz));
  }

  /** freewalk of a whole table that maps nothing. */
  method FreeTables(vm: Vm, pt: nat)
    requires vm.Valid() && IsRoot(vm.owner, pt) && NoLeaf(vm.mem, pt)
    modifies vm
    ensures vm.Valid() && Freed(old(vm.mem), old(vm.owner), vm.mem, vm.owner, pt)
  {
    ghost var gone := Freewalk(vm, pt, pt, 3, 0, vm.mem, vm.owner);
    AllTables(old(vm.mem), old(vm.owner), pt, gone);
    TreeWithout(old(vm.mem), old(vm.owner), vm.mem, gone, pt);
    forall g | g in old(vm.owner) ensures FreedFrame(old(vm.mem), old(vm.owner), vm.mem, vm.owner, pt, g) {
    }
  }

  lemma FreedAfter(mem: seq<Page>, owner: map<nat, Use>, mem1: seq<Page>, owner1: map<nat, Use>,
                   mem2: seq<Page>, owner2: map<nat, Use>, pt: nat, n: nat)
    requires Removed(mem, owner, mem1, owner1, pt, 0, n, true) && Freed(mem1, owner1, mem2, owner2, pt)
    ensures Freed(mem, owner, mem2, owner2, pt)
  {
    forall g | g in owner ensures FreedFrame(mem, owner, mem2, owner2, pt, g) {
      assert RemovedFrame(mem, owner, mem1, owner1, pt, 0, n, true, g);
      assert g in owner1 ==> FreedFrame(mem1, owner1, mem2, owner2, pt, g);
    }
    forall qt: nat, v: nat | IsRoot(owner, qt) && qt != pt && Dom(0, v) ensures Map(mem2, qt, v) == Map(mem, qt, v) {
      assert RemovedFrame(mem, owner, mem1, owner1, pt, 0, n, true, qt);
      assert IsRoot(owner1, qt) && Map(mem1, qt, v) == Map(mem, qt, v);
    }
  }
}
