/** A process's page table from creation to removal (uvmcreate of kernel/vm.c,
    proc_pagetable and proc_freepagetable of kernel/proc.c). */
module ProcMemory {
  import opened PageModel
  import opened PageProofs
  import opened PageChange
  import opened PageNeed
  import opened VmCode
  import opened UvmCode
  import opened FreeCode

  /** Since (mem, owner) a table pt was built, and nothing else happened. */
  ghost predicate Built(mem: seq<Page>, owner: map<nat, Use>, mem': seq<Page>, owner': map<nat, Use>, pt: nat) {
    && |mem| == |mem'| == HI && pt !in owner && IsRoot(owner', pt)
    && (forall g {:trigger Kept(mem, owner, mem', owner', g)} :: g in owner ==> Kept(mem, owner, mem', owner', g))
    && (forall g :: g in owner' && g !in owner ==> Of(owner'[g], pt))
    && (forall qt: nat, v: nat {:trigger Map(mem', qt, v)} :: IsRoot(owner, qt) && Dom(0, v) ==>
          Map(mem', qt, v) == Map(mem, qt, v))
  }

  /** Frames are used as they were, and pages are mapped as they were. */
  ghost predicate Restored(mem: seq<Page>, owner: map<nat, Use>, mem': seq<Page>, owner': map<nat, Use>) {
    && |mem| == |mem'| == HI && owner' == owner
    && (forall g {:trigger Kept(mem, owner, mem', owner', g)} :: g in owner ==> Kept(mem, owner, mem', owner', g))
    && (forall qt: nat, v: nat {:trigger Map(mem', qt, v)} :: IsRoot(owner, qt) && Dom(0, v) ==>
          Map(mem', qt, v) == Map(mem, qt, v))
  }

  /** Mapping pages above user memory goes on building. */
  lemma BuiltAdded(mem: seq<Page>, owner: map<nat, Use>, mem1: seq<Page>, owner1: map<nat, Use>,
                   mem2: seq<Page>, owner2: map<nat, Use>, pt: nat, vpn: nat, m: nat, f: nat, flags: nat)
    requires Built(mem, owner, mem1, owner1, pt) && Added(mem1, owner1, mem2, owner2, pt, vpn, m, f, flags)
    requires vpn >= USERTOP
    ensures Built(mem, owner, mem2, owner2, pt)
  {
    forall g | g in owner1
      ensures g in owner2 && owner2[g] == owner1[g] && (!IsTable(owner1, g) && g < HI ==> mem2[g] == mem1[g])
    {
      assert AddedFrame(mem1, owner1, mem2, owner2, pt, vpn, m, f, g);
    }
    forall g | g in owner ensures Kept(mem, owner, mem2, owner2, g) {
      assert Kept(mem, owner, mem1, owner1, g);
    }
    forall qt: nat, v: nat | IsRoot(owner, qt) && Dom(0, v) ensures Map(mem2, qt, v) == Map(mem, qt, v) {
      assert Kept(mem, owner, mem1, owner1, qt);
      assert IsRoot(owner1, qt) && Map(mem1, qt, v) == Map(mem, qt, v);
    }
  }

  /** Freeing what was built restores everything. */
  lemma BuiltFreed(mem: seq<Page>, owner: map<nat, Use>, mem1: seq<Page>, owner1: map<nat, Use>,
                   mem2: seq<Page>, owner2: map<nat, Use>, pt: nat)
    requires Built(mem, owner, mem1, owner1, pt) && Freed(mem1, owner1, mem2, owner2, pt) && Tree(mem, owner)
    ensures Restored(mem, owner, mem2, owner2)
  {
    forall g | g in owner ensures Kept(mem, owner, mem2, owner2, g) {
      assert Kept(mem, owner, mem1, owner1, g) && FreedFrame(mem1, owner1, mem2, owner2, pt, g);
      assert FrameOk(mem, owner, g);
    }
    forall g | g in owner2 ensures g in owner {
      assert FreedFrame(mem1, owner1, mem2, owner2, pt, g);
    }
    forall qt: nat, v: nat | IsRoot(owner, qt) && Dom(0, v) ensures Map(mem2, qt, v) == Map(mem, qt, v) {
      assert Kept(mem, owner, mem1, owner1, qt);
      assert IsRoot(owner1, qt) && Map(mem1, qt, v) == Map(mem, qt, v);
    }
    forall g | g in owner ensures g in owner2 && owner2[g] == owner[g] {
      assert Kept(mem, owner, mem2, owner2, g);
    }
    assert owner2 == owner;
  }

  /** The new table of a page of zeroes. */
  lemma BuiltRoot(mem: seq<Page>, owner: map<nat, Use>, mem1: seq<Page>, pt: nat)
    requires Tree(mem, owner) && pt < HI && pt !in owner && mem1 == mem[pt := Fill(0)] && SameEnts(mem, mem1, owner)
    ensures Built(mem, owner, mem1, owner[pt := Slot(pt, 3, 0)], pt) && NoLeaf(mem1, pt)
  {
    var owner1 := owner[pt := Slot(pt, 3, 0)];
    forall g | g in owner ensures Kept(mem, owner, mem1, owner1, g) {
    }
    forall qt: nat, v: nat | IsRoot(owner, qt) && Dom(0, v) ensures Map(mem1, qt, v) == Map(mem, qt, v) {
      assert Ent(mem1, qt, 0, v) == Ent(mem, qt, 0, v);
    }
    forall v: nat | Dom(0, v) ensures Map(mem1, pt, v) == 0 {
      BareRoot(mem1, pt, 0, v);
    }
  }

  /** An empty page table; 0 when there is no memory for one. */
  method Uvmcreate(vm: Vm) returns (pt: nat)
    requires vm.Valid()
    modifies vm
    ensures vm.Valid()
    ensures pt == 0 <==> old(vm.free) == []
    ensures pt == 0 ==> vm.mem == old(vm.mem) && vm.owner == old(vm.owner)
    ensures pt != 0 ==> |vm.free| == |old(vm.free)| - 1
    ensures pt != 0 ==> Built(old(vm.mem), old(vm.owner), vm.mem, vm.owner, pt) && NoLeaf(vm.mem, pt)
    ensures pt != 0 ==> pt < |vm.mem| && forall i :: 0 <= i < 512 ==> !V(vm.mem[pt][i])
  {
    pt := vm.KallocFilled(Fill(0));
    if pt != 0 {
      BuiltRoot(old(vm.mem), old(vm.owner), vm.mem, pt);
      RootAdded(vm.mem, vm.owner, pt);
      vm.Assign(pt, Slot(pt, 3, 0));
      assert vm.owner == old(vm.owner)[pt := Slot(pt, 3, 0)];
    }
  }

  /** mappages of one page above user memory, while pt is being built. */
  method MapHigh(vm: Vm, pt: nat, vpn: nat, f: nat, perm: nat, ghost mem0: seq<Page>, ghost owner0: map<nat, Use>)
    returns (ok: bool)
    requires vm.Valid() && USERTOP <= vpn < MAXVPN && f < 0x1000_0000_0000 - 1 && perm < 1024
    requires Map(vm.mem, pt, vpn) == 0
    requires Built(mem0, owner0, vm.mem, vm.owner, pt)
    modifies vm
    ensures vm.Valid() && Built(mem0, owner0, vm.mem, vm.owner, pt)
    ensures forall v: nat {:trigger Map(vm.mem, pt, v)} :: Dom(0, v) ==>
              Map(vm.mem, pt, v) == if ok && v == vpn then Pte(f, WithV(perm)) else Map(old(vm.mem), pt, v)
    ensures ok <==> |old(vm.free)| >= |Missing(old(vm.mem), pt, Path(vpn))|
    ensures ok ==> Spent(old(vm.free), old(vm.mem), vm.free, vm.mem, pt, Path(vpn), 0)
  {
    assert Paths(vpn, 1) == Path(vpn) by {
      assert Paths(vpn, 0) == {};
    }
    ghost var m;
    ok, m := vm.Mappages(pt, vpn, 1, f, perm);
    BuiltAdded(mem0, owner0, old(vm.mem), old(vm.owner), vm.mem, vm.owner, pt, vpn, m, f, WithV(perm));
  }

  /** Takes back a table that maps nothing. */
  method Scrap(vm: Vm, pt: nat, ghost mem0: seq<Page>, ghost owner0: map<nat, Use>)
    requires vm.Valid() && Tree(mem0, owner0) && Built(mem0, owner0, vm.mem, vm.owner, pt) && NoLeaf(vm.mem, pt)
    modifies vm
    ensures vm.Valid() && Restored(mem0, owner0, vm.mem, vm.owner)
  {
    Uvmfree(vm, pt, 0);
    BuiltFreed(mem0, owner0, old(vm.mem), old(vm.owner), vm.mem, vm.owner, pt);
  }

  /** A new table needs two more for its first page. */
  lemma FirstPath(mem: seq<Page>, pt: nat, vpn: nat)
    requires pt < |mem| && (forall i :: 0 <= i < 512 ==> !V(mem[pt][i])) && vpn < MAXVPN
    ensures |Missing(mem, pt, Path(vpn))| == 2
  {
    PathIs(vpn);
    var a, b := Node(1, vpn / 512), Node(2, vpn / 512 / 512);
    BareRoot(mem, pt, 1, a.k);
    BareRoot(mem, pt, 2, b.k);
    assert Missing(mem, pt, Path(vpn)) == {a, b};
  }

  /** Neighbours in one table have the same way to it. */
  lemma SamePath(mem: seq<Page>, mem': seq<Page>, pt: nat, v: nat, u: nat)
    requires u / 512 == v / 512 && v < MAXVPN && Tabled(mem, mem', pt, Path(v))
    ensures Missing(mem', pt, Path(u)) == {}
  {
    PathIs(u);
    PathIs(v);
    forall t | t in Path(u) ensures V(Ent(mem', pt, t.lv, t.k)) {
      assert NodeOk(t) && HasTable(mem', pt, t);
    }
  }

  /** The map of a process without user memory. */
  function HighPages(trampoline: nat, trapframe: nat, v: nat): nat {
    if v == MAXVPN - 1 then Pte(trampoline, PTE_R + PTE_X + PTE_V)
    else if v == MAXVPN - 2 then Pte(trapframe, PTE_R + PTE_W + PTE_V)
    else 0
  }

  /** A page table with nothing but the trampoline and trapframe pages; 0 when memory runs
      out, and then every frame is used as before. */
  method ProcPagetable(vm: Vm, trampoline: nat, trapframe: nat) returns (pt: nat)
    requires vm.Valid() && trampoline < HI && trapframe < HI
    modifies vm
    ensures vm.Valid()
    ensures pt == 0 <==> |old(vm.free)| < 3
    ensures pt == 0 ==> Restored(old(vm.mem), old(vm.owner), vm.mem, vm.owner)
    ensures pt != 0 ==> Built(old(vm.mem), old(vm.owner), vm.mem, vm.owner, pt)
    ensures pt != 0 ==>
      forall v: nat {:trigger Map(vm.mem, pt, v)} ::
        Dom(0, v) ==> Map(vm.mem, pt, v) == HighPages(trampoline, trapframe, v)
  {
    pt := Uvmcreate(vm);
    if pt == 0 {
      return;
    }
    FirstPath(vm.mem, pt, MAXVPN - 1);
    ghost var mem1 := vm.mem;
    var ok := MapHigh(vm, pt, MAXVPN - 1, trampoline, PTE_R + PTE_X, old(vm.mem), old(vm.owner));
    if !ok {
      Scrap(vm, pt, old(vm.mem), old(vm.owner));
      return 0;
    }
    SamePath(mem1, vm.mem, pt, MAXVPN - 1, MAXVPN - 2);
    ok := MapHigh(vm, pt, MAXVPN - 2, trapframe, PTE_R + PTE_W, old(vm.mem), old(vm.owner));
    // the trapframe page finds the tables of the trampoline page: the source's way back from
    // here is never taken
    assert ok;
  }

  /** Unmaps the two pages above user memory and frees everything else. */
  method ProcFreepagetable(vm: Vm, pt: nat, sz: nat)
    requires vm.Valid() && IsRoot(vm.owner, pt) && Pages(sz) <= MAXVPN
    requires forall v: nat :: Dom(0, v) && (v >= Pages(sz) || v >= MAXVPN) && v != MAXVPN - 1 && v != MAXVPN - 2 ==>
      Map(vm.mem, pt, v) == 0
    modifies vm
    ensures vm.Valid() && Freed(old(vm.mem), old(vm.owner), vm.mem, vm.owner, pt)
  {
    var _, _ := vm.Uvmunmap(pt, MAXVPN - 1, 1, false);
    ghost var mem1, owner1 := vm.mem, vm.owner;
    assert RemovedFrame(old(vm.mem), old(vm.owner), mem1, owner1, pt, MAXVPN - 1, 1, false, pt);
    var _, _ := vm.Uvmunmap(pt, MAXVPN - 2, 1, false);
    ghost var mem2, owner2 := vm.mem, vm.owner;
    assert RemovedFrame(mem1, owner1, mem2, owner2, pt, MAXVPN - 2, 1, false, pt);
    Uvmfree(vm, pt, sz);
    FreedHigh(mem1, owner1, mem2, owner2, vm.mem, vm.owner, pt, MAXVPN - 2);
    FreedHigh(old(vm.mem), old(vm.owner), mem1, owner1, vm.mem, vm.owner, pt, MAXVPN - 1);
  }

  lemma FreedHigh(mem: seq<Page>, owner: map<nat, Use>, mem1: seq<Page>, owner1: map<nat, Use>,
                  mem2: seq<Page>, owner2: map<nat, Use>, pt: nat, vpn: nat)
    requires Tree(mem, owner) && Removed(mem, owner, mem1, owner1, pt, vpn, 1, false) && vpn >= USERTOP
    requires Freed(mem1, owner1, mem2, owner2, pt)
    ensures Freed(mem, owner, mem2, owner2, pt)
  {
    forall g | g in owner ensures FreedFrame(mem, owner, mem2, owner2, pt, g) {
      assert RemovedFrame(mem, owner, mem1, owner1, pt, vpn, 1, false, g) && FrameOk(mem, owner, g);
      assert FreedFrame(mem1, owner1, mem2, owner2, pt, g);
    }
    forall qt: nat, v: nat | IsRoot(owner, qt) && qt != pt && Dom(0, v) ensures Map(mem2, qt, v) == Map(mem, qt, v) {
      assert RemovedFrame(mem, owner, mem1, owner1, pt, vpn, 1, false, qt);
      assert IsRoot(owner1, qt) && Map(mem1, qt, v) == Map(mem, qt, v);
    }
  }

  /** Shrinking a size that goes a page beyond the trapframe: the trapframe's frame is on the
      free list while the process goes on using it. */
  method TrapframeFreed(vm: Vm, pt: nat, trapframe: nat)
    requires vm.Valid() && IsRoot(vm.owner, pt) && trapframe in vm.owner && vm.owner[trapframe] == Held
    requires Map(vm.mem, pt, USERTOP) == Pte(trapframe, PTE_R + PTE_W + PTE_V)
    modifies vm
    ensures FreedInUse(vm.free, vm.owner, trapframe) && !Divided(vm.free, vm.owner, vm.lo)
  {
    assert !CanUnmap(HighOf(vm.mem, pt), USERTOP, true);
    var _, u, _ := Uvmdealloc(vm, pt, TRAPFRAME + PGSIZE, TRAPFRAME);
    assert u == Doubled;
    InUseIsUndivided(vm.free, vm.owner, vm.lo, trapframe);
  }
}
