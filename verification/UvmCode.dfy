/** Growing, shrinking and copying user memory (kernel/vm.c). */
module UvmCode {
  import opened PageModel
  import opened PageProofs
  import opened PageChange
  import opened PageNeed
  import opened VmCode

  const TRAPFRAME: nat := USERTOP * PGSIZE

  /** PGROUNDUP(sz) / PGSIZE */
  function Pages(sz: nat): nat {
    (sz + PGSIZE - 1) / PGSIZE
  }

  /** n times the same. */
  function Times(n: nat, w: Want): (r: seq<Want>)
    ensures |r| == n && forall i :: 0 <= i < n ==> r[i] == w
  {
    if n == 0 then [] else Times(n - 1, w) + [w]
  }

  /** A frame off the free list, filled with p and mapped, is the wanted page. */
  lemma PageFilled(mem: seq<Page>, owner: map<nat, Use>, mem1: seq<Page>, owner1: map<nat, Use>,
                   mem2: seq<Page>, owner2: map<nat, Use>, pt: nat, v: nat, f: nat, flags: nat, p: Page)
    requires |mem| == |mem1| == HI && f < HI && f !in owner && mem1 == mem[f := p] && SameEnts(mem, mem1, owner)
    requires owner1 == owner[f := Held] && Added(mem1, owner1, mem2, owner2, pt, v, 1, f, flags)
    requires v < USERTOP && flags < 1024 && V(flags)
    ensures Filled(mem, owner, mem2, owner2, pt, v, [New(flags, p)])
  {
    forall g | g in owner ensures Kept(mem, owner, mem2, owner2, g) {
      assert AddedFrame(mem1, owner1, mem2, owner2, pt, v, 1, f, g);
    }
    assert AddedFrame(mem1, owner1, mem2, owner2, pt, v, 1, f, f);
    forall qt: nat, u: nat | IsRoot(owner, qt) && Dom(0, u)
      ensures FilledPage(mem, owner, mem2, owner2, pt, v, [New(flags, p)], qt, u)
    {
      assert IsRoot(owner1, qt) && Ent(mem1, qt, 0, u) == Ent(mem, qt, 0, u);
      if qt == pt && u == v {
        assert Map(mem2, qt, u) == Pte(f, flags);
      } else {
        assert Map(mem2, qt, u) == Map(mem, qt, u);
      }
    }
  }

  /** The frame goes back when it could not be mapped. */
  lemma PageUndone(mem: seq<Page>, owner: map<nat, Use>, mem1: seq<Page>, owner1: map<nat, Use>,
                   mem2: seq<Page>, owner2: map<nat, Use>, pt: nat, f: nat, p: Page)
    requires |mem| == |mem1| == HI && f < HI && f !in owner && mem1 == mem[f := mem1[f]] && SameEnts(mem, mem1, owner)
    requires owner1 == owner[f := Held] && Grew(mem1, owner1, mem2, owner2, pt) && Tree(mem2, owner2)
    ensures Tree(mem2[f := p], owner2 - {f}) && Grew(mem, owner, mem2[f := p], owner2 - {f}, pt)
  {
    var mem3, owner3 := mem2[f := p], owner2 - {f};
    assert Kept(mem1, owner1, mem2, owner2, f);
    DataKeeps(mem2, owner2, f, p);
    DropKeeps(mem3, owner2, f);
    forall g | g in owner ensures Kept(mem, owner, mem3, owner3, g) {
      assert Kept(mem1, owner1, mem2, owner2, g);
    }
    forall qt: nat, v: nat | IsRoot(owner, qt) && Dom(0, v) ensures Map(mem3, qt, v) == Map(mem, qt, v) {
      assert IsRoot(owner1, qt) && Ent(mem1, qt, 0, v) == Ent(mem, qt, 0, v);
      assert Kept(mem1, owner1, mem2, owner2, qt);
      assert IsRoot(owner2, qt) && Map(mem2, qt, v) == Map(mem1, qt, v);
      assert Ent(mem3, qt, 0, v) == Ent(mem2, qt, 0, v);
    }
  }

  /** kfree of a frame that could not be mapped, after tables grew since (mem0, owner0). */
  method GiveBack(vm: Vm, ghost pt: nat, f: nat, ghost mem0: seq<Page>, ghost owner0: map<nat, Use>,
                  ghost mem1: seq<Page>, ghost owner1: map<nat, Use>)
    requires vm.Valid() && |mem0| == |mem1| == HI && f < HI && f !in owner0 && mem1 == mem0[f := mem1[f]]
    requires SameEnts(mem0, mem1, owner0) && owner1 == owner0[f := Held] && Grew(mem1, owner1, vm.mem, vm.owner, pt)
    modifies vm
    ensures vm.Valid() && Grew(mem0, owner0, vm.mem, vm.owner, pt)
  {
    assert Kept(mem1, owner1, vm.mem, vm.owner, f);
    vm.Kfree(f);
    PageUndone(mem0, owner0, mem1, owner1, old(vm.mem), old(vm.owner), pt, f, vm.mem[f]);
  }

  /** mappages of a single user page. */
  method MapOne(vm: Vm, pt: nat, v: nat, f: nat, perm: nat) returns (ok: bool, ghost m: nat)
    requires vm.Valid() && IsRoot(vm.owner, pt) && v < USERTOP && perm < 1024 && Map(vm.mem, pt, v) == 0
    requires f in vm.owner && vm.owner[f] == Held
    modifies vm
    ensures vm.Valid()
    ensures ok ==> Added(old(vm.mem), old(vm.owner), vm.mem, vm.owner, pt, v, 1, f, WithV(perm))
    ensures !ok ==> Grew(old(vm.mem), old(vm.owner), vm.mem, vm.owner, pt)
    ensures ok ==> Spent(old(vm.free), old(vm.mem), vm.free, vm.mem, pt, Path(v), 0)
    ensures !ok ==> |old(vm.free)| < |Missing(old(vm.mem), pt, Path(v))|
  {
    assert Paths(v, 1) == Path(v) by {
      assert Paths(v, 0) == {};
    }
    ok, m := vm.Mappages(pt, v, 1, f, perm);
    AddedNothing(old(vm.mem), old(vm.owner), vm.mem, vm.owner, pt, v, f, WithV(perm));
  }

  /** A frame for a page does not change which tables are missing on the way to it. */
  lemma PageBought(free: seq<nat>, mem: seq<Page>, owner: map<nat, Use>, free1: seq<nat>, mem1: seq<Page>, pt: nat,
                   v: nat)
    requires IsRoot(owner, pt) && SameEnts(mem, mem1, owner) && v < USERTOP && |free1| + 1 == |free|
    ensures Spent(free, mem, free1, mem1, pt, {}, 1) && |Missing(mem1, pt, Path(v))| == |Missing(mem, pt, Path(v))|
  {
    SpentFrames(free, mem, free1, mem1, owner, pt, 1);
    PathIs(v);
    MissingMore(mem, mem1, pt, {}, Path(v));
    assert {} + Path(v) == Path(v) && Missing(mem, pt, {}) == {};
  }

  /** kalloc, contents p, mappages, and kfree if that fails: the body of the loops of
      uvmalloc and uvmcopy. */
  method NewPage(vm: Vm, pt: nat, v: nat, perm: nat, p: Page) returns (ok: bool)
    requires vm.Valid() && IsRoot(vm.owner, pt) && v < USERTOP && perm < 1024 && Map(vm.mem, pt, v) == 0
    modifies vm
    ensures vm.Valid()
    ensures ok ==> Filled(old(vm.mem), old(vm.owner), vm.mem, vm.owner, pt, v, [New(WithV(perm), p)])
    ensures !ok ==> Grew(old(vm.mem), old(vm.owner), vm.mem, vm.owner, pt)
    ensures ok <==> |old(vm.free)| >= 1 + |Missing(old(vm.mem), pt, Path(v))|
    ensures ok ==> Spent(old(vm.free), old(vm.mem), vm.free, vm.mem, pt, Path(v), 1)
  {
    GrewNot(vm.mem, vm.owner, pt);
    var f := vm.KallocFilled(p);
    if f == 0 {
      return false;
    }
    ghost var free1, mem1, owner1 := vm.free, vm.mem, vm.owner;
    PageBought(old(vm.free), old(vm.mem), old(vm.owner), free1, mem1, pt, v);
    WithVIs(f, perm);
    assert Map(vm.mem, pt, v) == 0 && IsRoot(vm.owner, pt);
    ghost var m;
    ok, m := MapOne(vm, pt, v, f, perm);
    if ok {
      PageFilled(old(vm.mem), old(vm.owner), mem1, owner1, vm.mem, vm.owner, pt, v, f, WithV(perm), p);
      SpentMore(old(vm.free), old(vm.mem), free1, mem1, vm.free, vm.mem, pt, {}, 1, Path(v), 0);
      assert {} + Path(v) == Path(v);
    } else {
      GiveBack(vm, pt, f, old(vm.mem), old(vm.owner), mem1, owner1);
    }
  }

  /** Shrinks user memory to newsz bytes: exactly the whole pages above it go. */
  method Uvmdealloc(vm: Vm, pt: nat, oldsz: nat, newsz: nat) returns (r: nat, u: Unmapping, ghost at: nat)
    requires vm.Valid() && IsRoot(vm.owner, pt)
    modifies vm
    ensures r == (if newsz < oldsz then newsz else oldsz) && Pages(r) <= Pages(oldsz)
    ensures u == Complete <==> CanUnmapAll(HighOf(old(vm.mem), pt), Pages(r), Pages(oldsz) - Pages(r), true)
    ensures u == Complete ==>
      vm.Valid() && Removed(old(vm.mem), old(vm.owner), vm.mem, vm.owner, pt, Pages(r), Pages(oldsz) - Pages(r), true)
    ensures u != Complete ==> Pages(r) <= at < Pages(oldsz) && vm.Stopped(u, HighOf(old(vm.mem), pt), at, true)
  {
    RemovedNot(vm.mem, vm.owner, pt, Pages(oldsz), true);
    u, at := Complete, 0;
    if newsz >= oldsz {
      return oldsz, u, at;
    }
    if Pages(newsz) < Pages(oldsz) {
      u, at := vm.Uvmunmap(pt, Pages(newsz), Pages(oldsz) - Pages(newsz), true);
    }
    return newsz, u, at;
  }

  lemma PagesLeft(p: nat, size: nat)
    ensures p * PGSIZE < size <==> p < Pages(size)
  {
  }

  lemma PagesBelow(size: nat)
    ensures size <= TRAPFRAME <==> Pages(size) <= USERTOP
  {
  }

  /** What uvmalloc's loop has done after n pages from p0 on, of which most are below the
      trapframe. */
  ghost predicate Growing(vm: Vm, free: seq<nat>, mem: seq<Page>, owner: map<nat, Use>, pt: nat, p0: nat, n: nat,
                          most: nat, w: Want)
    reads vm
  {
    && vm.Valid() && IsRoot(owner, pt) && Vacant(mem, owner, pt, p0, most)
    && n <= most && (most == 0 || p0 + most <= USERTOP) && w.New?
    && Filled(mem, owner, vm.mem, vm.owner, pt, p0, Times(n, w))
    && SpentOn(free, mem, vm.free, vm.mem, pt, p0, Times(n, w))
  }

  /** One more page was had. */
  lemma PageAdded(free: seq<nat>, mem: seq<Page>, owner: map<nat, Use>, free1: seq<nat>, mem1: seq<Page>,
                  owner1: map<nat, Use>, free2: seq<nat>, mem2: seq<Page>, owner2: map<nat, Use>, pt: nat, p0: nat,
                  n: nat, w: Want)
    requires w.New? && Filled(mem, owner, mem1, owner1, pt, p0, Times(n, w))
    requires Filled(mem1, owner1, mem2, owner2, pt, p0 + n, [w])
    requires SpentOn(free, mem, free1, mem1, pt, p0, Times(n, w))
    requires Spent(free1, mem1, free2, mem2, pt, Path(p0 + n), 1)
    ensures Filled(mem, owner, mem2, owner2, pt, p0, Times(n + 1, w))
    ensures SpentOn(free, mem, free2, mem2, pt, p0, Times(n + 1, w))
  {
    FilledNext(mem, owner, mem1, owner1, mem2, owner2, pt, p0, Times(n, w), [w]);
    SpentOnNext(free, mem, free1, mem1, free2, mem2, pt, p0, Times(n, w), w);
  }

  /** How growing or copying ends, for pages wanted from p0 on, and beyond the trapframe or not:
      with all of them, if and only if there were frames enough and none is beyond; with the
      panic, if and only if some is beyond and there was a frame for it; else with everything
      taken back but table pages. */
  ghost predicate Outcome(vm: Vm, ok: bool, panicked: bool, free: seq<nat>, mem: seq<Page>, owner: map<nat, Use>,
                          pt: nat, p0: nat, want: seq<Want>, beyond: bool)
    reads vm
  {
    && vm.Valid()
    && (ok <==> !beyond && |free| >= Needed(mem, pt, p0, want))
    && (panicked <==> beyond && |free| > Needed(mem, pt, p0, want))
    && (ok ==> Filled(mem, owner, vm.mem, vm.owner, pt, p0, want))
    && (!ok && !panicked ==> Grew(mem, owner, vm.mem, vm.owner, pt))
  }

  /** One pass of uvmalloc's loop, after n pages from p0 on; takes everything back when the
      page cannot be had. */
  method GrowNext(vm: Vm, pt: nat, p0: nat, n: nat, ghost most: nat, perm: nat, ghost w: Want,
                  ghost free0: seq<nat>, ghost mem0: seq<Page>, ghost owner0: map<nat, Use>, ghost beyond: bool)
    returns (ok: bool)
    requires Growing(vm, free0, mem0, owner0, pt, p0, n, most, w) && n < most
    requires perm < 1024 && w == New(WithV(perm), Fill(0))
    modifies vm
    ensures ok ==> Growing(vm, free0, mem0, owner0, pt, p0, n + 1, most, w)
    ensures !ok ==> Outcome(vm, false, false, free0, mem0, owner0, pt, p0, Times(most, w), beyond)
  {
    FilledReady(mem0, owner0, vm.mem, vm.owner, pt, p0, Times(n, w));
    var zero := Fill(0);
    ok := NewPage(vm, pt, p0 + n, perm, zero);
    if ok {
      PageAdded(free0, mem0, owner0, old(vm.free), old(vm.mem), old(vm.owner), vm.free, vm.mem, vm.owner, pt, p0, n, w);
    } else {
      GrowNeeds(free0, mem0, old(vm.free), old(vm.mem), pt, p0, n, most, w);
      Undo(vm, pt, p0, n, most, w, mem0, owner0, old(vm.mem), old(vm.owner));
    }
  }

  lemma GrowNeeds(free: seq<nat>, mem: seq<Page>, free1: seq<nat>, mem1: seq<Page>, pt: nat, p0: nat, n: nat, most: nat,
                  w: Want)
    requires n < most && p0 + most <= USERTOP && w.New? && SpentOn(free, mem, free1, mem1, pt, p0, Times(n, w))
    requires |free1| < 1 + |Missing(mem1, pt, Path(p0 + n))|
    ensures |free| < Needed(mem, pt, p0, Times(most, w))
  {
    TimesLess(n, most, w);
    NeedsMore(free, mem, free1, mem1, pt, p0, Times(most, w), n);
  }

  lemma {:induction false} TimesLess(n: nat, m: nat, w: Want)
    requires n <= m
    ensures Times(m, w)[..n] == Times(n, w)
  {
  }

  /** A pass for a page at or above the trapframe: mappages panics, unless there is no frame. */
  method GrowBeyond(vm: Vm, pt: nat, p0: nat, n: nat, ghost most: nat, ghost w: Want,
                    ghost free0: seq<nat>, ghost mem0: seq<Page>, ghost owner0: map<nat, Use>)
    returns (panicked: bool)
    requires Growing(vm, free0, mem0, owner0, pt, p0, n, most, w) && n == most
    modifies vm
    ensures Outcome(vm, false, panicked, free0, mem0, owner0, pt, p0, Times(most, w), true)
  {
    SpentEnough(free0, mem0, vm.free, vm.mem, pt, p0, Times(n, w));
    var f := vm.KallocFilled(Fill(0));
    panicked := f != 0;
    if !panicked {
      GrewNot(vm.mem, vm.owner, pt);
      Undo(vm, pt, p0, n, most, w, mem0, owner0, old(vm.mem), old(vm.owner));
    }
  }

  /** uvmalloc's loop, from page p0 on. */
  method Grow(vm: Vm, pt: nat, p0: nat, newsz: nat, ghost most: nat, perm: nat, ghost w: Want)
    returns (ok: bool, panicked: bool)
    requires Growing(vm, vm.free, vm.mem, vm.owner, pt, p0, 0, most, w)
    requires perm < 1024 && w == New(WithV(perm), Fill(0)) && p0 <= Pages(newsz)
    requires most == if p0 < USERTOP then UserPages(newsz) - p0 else 0
    modifies vm
    ensures Outcome(vm, ok, panicked, old(vm.free), old(vm.mem), old(vm.owner), pt, p0, Times(most, w),
                    most < Pages(newsz) - p0)
  {
    panicked := false;
    var n := 0;
    ghost var beyond := most < Pages(newsz) - p0;
    ghost var free0, mem0, owner0 := vm.free, vm.mem, vm.owner;
    PagesLeft(p0, newsz);
    while (p0 + n) * PGSIZE < newsz
      invariant Growing(vm, free0, mem0, owner0, pt, p0, n, most, w)
      invariant (p0 + n) * PGSIZE < newsz <==> p0 + n < Pages(newsz)
      decreases Pages(newsz) - n
    {
      if p0 + n >= USERTOP {
        panicked := GrowBeyond(vm, pt, p0, n, most, w, free0, mem0, owner0);
        return false, panicked;
      }
      ok := GrowNext(vm, pt, p0, n, most, perm, w, free0, mem0, owner0, beyond);
      if !ok {
        return;
      }
      n := n + 1;
      PagesLeft(p0 + n, newsz);
    }
    ok := true;
    GrowEnds(vm, free0, mem0, owner0, pt, p0, most, w);
  }

  lemma GrowEnds(vm: Vm, free: seq<nat>, mem: seq<Page>, owner: map<nat, Use>, pt: nat, p0: nat, most: nat, w: Want)
    requires Growing(vm, free, mem, owner, pt, p0, most, most, w)
    ensures Outcome(vm, true, false, free, mem, owner, pt, p0, Times(most, w), false)
  {
    SpentEnough(free, mem, vm.free, vm.mem, pt, p0, Times(most, w));
  }

  lemma GrowStarts(free: seq<nat>, mem: seq<Page>, owner: map<nat, Use>, pt: nat, p0: nat, most: nat, w: Want)
    requires Tree(mem, owner) && forall v :: p0 <= v < p0 + most ==> Map(mem, pt, v) == 0
    ensures Vacant(mem, owner, pt, p0, most) && Filled(mem, owner, mem, owner, pt, p0, Times(0, w))
    ensures SpentOn(free, mem, free, mem, pt, p0, Times(0, w))
  {
    UnmappedVacant(mem, owner, pt, p0, most);
    FilledNot(mem, owner, pt, p0);
    SpentOnNothing(free, mem, pt, p0);
    assert Times(0, w) == [];
  }

  /** Pages of user memory of that size, but for those above the trapframe. */
  function UserPages(size: nat): nat {
    if Pages(size) <= USERTOP then Pages(size) else USERTOP
  }

  /** The pages that growing from oldsz to newsz calls for, but for those above the trapframe. */
  ghost function NewPages(oldsz: nat, newsz: nat): nat
    requires oldsz <= newsz
  {
    if Pages(oldsz) < USERTOP then UserPages(newsz) - Pages(oldsz) else 0
  }

  /** Grows user memory from oldsz to newsz bytes with pages of zeroes; 0 when memory runs
      out, and then user memory is as it was.  ok tells the two apart when newsz is 0.  The
      panic is that of mappages or walk, when a page at or above the trapframe is reached
      with memory left. */
  method Uvmalloc(vm: Vm, pt: nat, oldsz: nat, newsz: nat, xperm: nat) returns (r: nat, panicked: bool, ghost ok: bool)
    requires vm.Valid() && IsRoot(vm.owner, pt)
    requires xperm == 0 || xperm == PTE_W || xperm == PTE_X || xperm == PTE_W + PTE_X
    requires forall v :: Pages(oldsz) <= v < UserPages(newsz) ==> Map(vm.mem, pt, v) == 0
    requires newsz > TRAPFRAME ==> V(Map(vm.mem, pt, USERTOP)) && V(Map(vm.mem, pt, USERTOP + 1))
    modifies vm
    ensures vm.Valid()
    ensures newsz < oldsz ==> r == oldsz && ok && !panicked
    ensures newsz < oldsz ==> vm.mem == old(vm.mem) && vm.owner == old(vm.owner) && vm.free == old(vm.free)
    ensures newsz >= oldsz ==> r == if ok then newsz else 0
    ensures newsz >= oldsz && ok ==> newsz <= TRAPFRAME || Pages(oldsz) == Pages(newsz)
    ensures newsz >= oldsz ==>
      var n := NewPages(oldsz, newsz);
      && (newsz <= TRAPFRAME ==> n == Pages(newsz) - Pages(oldsz))
      && Outcome(vm, ok, panicked, old(vm.free), old(vm.mem), old(vm.owner), pt, Pages(oldsz),
                 Times(n, New(PTE_V + PTE_R + PTE_U + xperm, Fill(0))), n < Pages(newsz) - Pages(oldsz))
  {
    ok := true;
    if newsz < oldsz {
      return oldsz, false, ok;
    }
    var p0 := Pages(oldsz);
    ghost var most := NewPages(oldsz, newsz);
    ghost var w := New(PTE_V + PTE_R + PTE_U + xperm, Fill(0));
    PagesBelow(newsz);
    GrowStarts(vm.free, vm.mem, vm.owner, pt, p0, most, w);
    var grew;
    grew, panicked := Grow(vm, pt, p0, newsz, most, PTE_R + PTE_U + xperm, w);
    return if grew then newsz else 0, panicked, grew;
  }

  /** The next page is still unmapped. */
  lemma FilledReady(mem: seq<Page>, owner: map<nat, Use>, mem1: seq<Page>, owner1: map<nat, Use>, pt: nat, p0: nat,
                    want: seq<Want>)
    requires Filled(mem, owner, mem1, owner1, pt, p0, want) && IsRoot(owner, pt) && p0 + |want| < USERTOP
    ensures IsRoot(owner1, pt) && Map(mem1, pt, p0 + |want|) == Map(mem, pt, p0 + |want|)
  {
    assert Kept(mem, owner, mem1, owner1, pt);
    assert FilledPage(mem, owner, mem1, owner1, pt, p0, want, pt, p0 + |want|);
  }

  /** uvmdealloc of whole pages below the trapframe. */
  method DeallocPages(vm: Vm, pt: nat, p0: nat, n: nat)
    requires vm.Valid() && IsRoot(vm.owner, pt) && (n == 0 || p0 + n <= USERTOP)
    modifies vm
    ensures vm.Valid() && Removed(old(vm.mem), old(vm.owner), vm.mem, vm.owner, pt, p0, n, true)
  {
    assert Pages((p0 + n) * PGSIZE) == p0 + n && Pages(p0 * PGSIZE) == p0;
    var _, _, _ := Uvmdealloc(vm, pt, (p0 + n) * PGSIZE, p0 * PGSIZE);
  }

  /** uvmalloc's way back, after n pages from p0 on. */
  method Undo(vm: Vm, pt: nat, p0: nat, n: nat, ghost most: nat, ghost w: Want, ghost mem0: seq<Page>,
              ghost owner0: map<nat, Use>, ghost mem1: seq<Page>, ghost owner1: map<nat, Use>)
    requires vm.Valid() && IsRoot(owner0, pt) && n <= most && (most == 0 || p0 + most <= USERTOP)
    requires Filled(mem0, owner0, mem1, owner1, pt, p0, Times(n, w)) && Grew(mem1, owner1, vm.mem, vm.owner, pt)
    requires Vacant(mem0, owner0, pt, p0, most)
    modifies vm
    ensures vm.Valid() && Grew(mem0, owner0, vm.mem, vm.owner, pt)
  {
    VacantLess(mem0, owner0, pt, p0, most, n);
    FilledGrew(mem1, owner1, vm.mem, vm.owner, pt, p0 + n);
    FilledNext(mem0, owner0, mem1, owner1, vm.mem, vm.owner, pt, p0, Times(n, w), []);
    assert Times(n, w) + [] == Times(n, w);
    assert Kept(mem0, owner0, vm.mem, vm.owner, pt);
    DeallocPages(vm, pt, p0, n);
    FilledUndone(mem0, owner0, old(vm.mem), old(vm.owner), vm.mem, vm.owner, pt, p0, Times(n, w));
  }

  // ----- copying

  /** What a copy of page v is to be: the same flags and the same bytes, if it is mapped. */
  function WantOf(mem: seq<Page>, pt: nat, v: nat): Want {
    var e := Map(mem, pt, v);
    if V(e) && Frame(e) < |mem| then New(Flags(e), mem[Frame(e)]) else No
  }

  function Wants(mem: seq<Page>, pt: nat, n: nat): (r: seq<Want>)
    ensures |r| == n && forall v :: 0 <= v < n ==> r[v] == WantOf(mem, pt, v)
  {
    if n == 0 then [] else Wants(mem, pt, n - 1) + [WantOf(mem, pt, n - 1)]
  }

  lemma FilledNone(mem: seq<Page>, owner: map<nat, Use>, pt: nat, v: nat)
    requires |mem| == HI
    ensures Filled(mem, owner, mem, owner, pt, v, [No])
  {
  }

  /** The parent's page is as it was, and the child's is still unmapped. */
  lemma CopyReady(mem: seq<Page>, owner: map<nat, Use>, mem1: seq<Page>, owner1: map<nat, Use>, parent: nat, child: nat,
                  want: seq<Want>, v: nat)
    requires Tree(mem, owner) && Filled(mem, owner, mem1, owner1, child, 0, want) && |want| == v < USERTOP
    requires IsRoot(owner, parent) && IsRoot(owner, child) && parent != child
    ensures IsRoot(owner1, parent) && IsRoot(owner1, child) && Map(mem1, child, v) == Map(mem, child, v)
    ensures WantOf(mem1, parent, v) == WantOf(mem, parent, v)
  {
    FilledReady(mem, owner, mem1, owner1, child, 0, want);
    assert Kept(mem, owner, mem1, owner1, parent);
    assert FilledPage(mem, owner, mem1, owner1, child, 0, want, parent, v);
    assert SlotOk(mem, owner, parent, 0, v);
    var f := Frame(Map(mem, parent, v));
    assert f in owner ==> Kept(mem, owner, mem1, owner1, f);
  }

  /** A copy of page v, if it is mapped. */
  method CopyPage(vm: Vm, parent: nat, child: nat, v: nat) returns (ok: bool)
    requires vm.Valid() && IsRoot(vm.owner, parent) && IsRoot(vm.owner, child) && v < USERTOP
    requires Map(vm.mem, child, v) == 0
    modifies vm
    ensures vm.Valid()
    ensures ok ==> Filled(old(vm.mem), old(vm.owner), vm.mem, vm.owner, child, v, [WantOf(old(vm.mem), parent, v)])
    ensures !ok ==> Grew(old(vm.mem), old(vm.owner), vm.mem, vm.owner, child)
    ensures var w := WantOf(old(vm.mem), parent, v);
      && (ok ==> Spent(old(vm.free), old(vm.mem), vm.free, vm.mem, child, WantNodes(v, w), WantCount(w)))
      && (!ok ==> w.New? && |old(vm.free)| < 1 + |Missing(old(vm.mem), child, Path(v))|)
  {
    SpentNothing(vm.free, vm.mem, child);
    FilledNone(vm.mem, vm.owner, child, v);
    var t := vm.Walk(parent, v, false);
    if t == 0 {
      return true;
    }
    LeafSet(vm.mem, vm.owner, parent, v, t, 0);
    var pte := vm.mem[t][v % 512];
    if !V(pte) {
      return true;
    }
    LeafFrame(vm.mem, vm.owner, parent, v, t);
    FlagsV(pte);
    ok := NewPage(vm, child, v, Flags(pte), vm.mem[Frame(pte)]);
  }

  /** The flags of a valid entry hold the valid bit. */
  lemma FlagsV(e: nat)
    requires V(e)
    ensures Flags(e) < 1024 && WithV(Flags(e)) == Flags(e)
  {
    PteReads(e / 1024, e % 1024);
  }

  /** What uvmcopy's loop has done after v pages, of which most are below the trapframe. */
  ghost predicate Copying(vm: Vm, free: seq<nat>, mem: seq<Page>, owner: map<nat, Use>, parent: nat, child: nat, v: nat,
                          most: nat)
    reads vm
  {
    && vm.Valid() && Tree(mem, owner) && IsRoot(owner, parent) && IsRoot(owner, child) && parent != child
    && v <= most <= USERTOP && Vacant(mem, owner, child, 0, most)
    && Filled(mem, owner, vm.mem, vm.owner, child, 0, Wants(mem, parent, v))
    && SpentOn(free, mem, vm.free, vm.mem, child, 0, Wants(mem, parent, v))
  }

  /** One more page was copied, or there was none. */
  lemma PageCopied(free: seq<nat>, mem: seq<Page>, owner: map<nat, Use>, free1: seq<nat>, mem1: seq<Page>,
                   owner1: map<nat, Use>, free2: seq<nat>, mem2: seq<Page>, owner2: map<nat, Use>, parent: nat,
                   child: nat, v: nat)
    requires Filled(mem, owner, mem1, owner1, child, 0, Wants(mem, parent, v))
    requires Filled(mem1, owner1, mem2, owner2, child, v, [WantOf(mem, parent, v)])
    requires SpentOn(free, mem, free1, mem1, child, 0, Wants(mem, parent, v))
    requires var w := WantOf(mem, parent, v); Spent(free1, mem1, free2, mem2, child, WantNodes(v, w), WantCount(w))
    ensures Filled(mem, owner, mem2, owner2, child, 0, Wants(mem, parent, v + 1))
    ensures SpentOn(free, mem, free2, mem2, child, 0, Wants(mem, parent, v + 1))
  {
    var want, w := Wants(mem, parent, v), WantOf(mem, parent, v);
    assert 0 + |want| == v;
    FilledNext(mem, owner, mem1, owner1, mem2, owner2, child, 0, want, [w]);
    SpentOnNext(free, mem, free1, mem1, free2, mem2, child, 0, want, w);
  }

  lemma CopyNeeds(free: seq<nat>, mem: seq<Page>, free1: seq<nat>, mem1: seq<Page>, parent: nat, child: nat, v: nat,
                  most: nat)
    requires v < most <= USERTOP && WantOf(mem, parent, v).New?
    requires SpentOn(free, mem, free1, mem1, child, 0, Wants(mem, parent, v))
    requires |free1| < 1 + |Missing(mem1, child, Path(v))|
    ensures |free| < Needed(mem, child, 0, Wants(mem, parent, most))
  {
    WantsLess(mem, parent, v, most);
    NeedsMore(free, mem, free1, mem1, child, 0, Wants(mem, parent, most), v);
  }

  lemma {:induction false} WantsLess(mem: seq<Page>, pt: nat, v: nat, n: nat)
    requires v <= n
    ensures Wants(mem, pt, n)[..v] == Wants(mem, pt, v)
  {
  }

  /** One pass of uvmcopy's loop; unmaps and frees every copy when this one cannot be had. */
  method CopyNext(vm: Vm, parent: nat, child: nat, v: nat, ghost most: nat, ghost free0: seq<nat>,
                  ghost mem0: seq<Page>, ghost owner0: map<nat, Use>, ghost beyond: bool)
    returns (ok: bool)
    requires Copying(vm, free0, mem0, owner0, parent, child, v, most) && v < most
    modifies vm
    ensures ok ==> Copying(vm, free0, mem0, owner0, parent, child, v + 1, most)
    ensures !ok ==> Outcome(vm, false, false, free0, mem0, owner0, child, 0, Wants(mem0, parent, most), beyond)
  {
    ghost var want := Wants(mem0, parent, v);
    CopyReady(mem0, owner0, vm.mem, vm.owner, parent, child, want, v);
    ok := CopyPage(vm, parent, child, v);
    if ok {
      PageCopied(free0, mem0, owner0, old(vm.free), old(vm.mem), old(vm.owner), vm.free, vm.mem, vm.owner, parent,
                 child, v);
    } else {
      CopyNeeds(free0, mem0, old(vm.free), old(vm.mem), parent, child, v, most);
      CopyUndo(vm, child, v, most, want, mem0, owner0, old(vm.mem), old(vm.owner));
    }
  }

  /** The pass for the trapframe, which parent and child have mapped: mappages panics, unless
      there is no frame. */
  method CopyBeyond(vm: Vm, parent: nat, child: nat, v: nat, ghost most: nat, ghost free0: seq<nat>,
                    ghost mem0: seq<Page>, ghost owner0: map<nat, Use>)
    returns (panicked: bool)
    requires Copying(vm, free0, mem0, owner0, parent, child, v, most) && v == most
    modifies vm
    ensures Outcome(vm, false, panicked, free0, mem0, owner0, child, 0, Wants(mem0, parent, most), true)
  {
    SpentEnough(free0, mem0, vm.free, vm.mem, child, 0, Wants(mem0, parent, v));
    var f := vm.KallocFilled(Fill(0));
    panicked := f != 0;
    if !panicked {
      GrewNot(vm.mem, vm.owner, child);
      CopyUndo(vm, child, v, most, Wants(mem0, parent, v), mem0, owner0, old(vm.mem), old(vm.owner));
    }
  }

  /** uvmcopy's way back, after v pages. */
  method CopyUndo(vm: Vm, child: nat, v: nat, ghost most: nat, ghost want: seq<Want>, ghost mem0: seq<Page>,
                  ghost owner0: map<nat, Use>, ghost mem1: seq<Page>, ghost owner1: map<nat, Use>)
    requires vm.Valid() && IsRoot(owner0, child) && v <= most <= USERTOP && |want| == v
    requires Filled(mem0, owner0, mem1, owner1, child, 0, want) && Grew(mem1, owner1, vm.mem, vm.owner, child)
    requires Vacant(mem0, owner0, child, 0, most)
    modifies vm
    ensures vm.Valid() && Grew(mem0, owner0, vm.mem, vm.owner, child)
  {
    VacantLess(mem0, owner0, child, 0, most, v);
    FilledGrew(mem1, owner1, vm.mem, vm.owner, child, 0 + |want|);
    FilledNext(mem0, owner0, mem1, owner1, vm.mem, vm.owner, child, 0, want, []);
    assert want + [] == want;
    assert Kept(mem0, owner0, vm.mem, vm.owner, child);
    var _, _ := vm.Uvmunmap(child, 0, v, true);
    FilledUndone(mem0, owner0, old(vm.mem), old(vm.owner), vm.mem, vm.owner, child, 0, want);
  }

  lemma CopyStarts(free: seq<nat>, mem: seq<Page>, owner: map<nat, Use>, parent: nat, child: nat, most: nat)
    requires Tree(mem, owner) && forall v :: 0 <= v < most ==> Map(mem, child, v) == 0
    ensures Vacant(mem, owner, child, 0, most) && Filled(mem, owner, mem, owner, child, 0, Wants(mem, parent, 0))
    ensures SpentOn(free, mem, free, mem, child, 0, Wants(mem, parent, 0))
  {
    UnmappedVacant(mem, owner, child, 0, most);
    FilledNot(mem, owner, child, 0);
    SpentOnNothing(free, mem, child, 0);
    assert Wants(mem, parent, 0) == [];
  }

  /** uvmcopy's loop. */
  method CopyAll(vm: Vm, parent: nat, child: nat, sz: nat, ghost most: nat) returns (ok: bool, panicked: bool)
    requires Copying(vm, vm.free, vm.mem, vm.owner, parent, child, 0, most) && most == UserPages(sz)
    modifies vm
    ensures Outcome(vm, ok, panicked, old(vm.free), old(vm.mem), old(vm.owner), child, 0,
                    Wants(old(vm.mem), parent, most), most < Pages(sz))
  {
    ghost var free0, mem0, owner0 := vm.free, vm.mem, vm.owner;
    ghost var beyond := most < Pages(sz);
    var v := 0;
    ok, panicked := true, false;
    PagesLeft(v, sz);
    while v * PGSIZE < sz
      invariant Copying(vm, free0, mem0, owner0, parent, child, v, most)
      invariant v * PGSIZE < sz <==> v < Pages(sz)
      decreases Pages(sz) - v
    {
      if v >= USERTOP {
        panicked := CopyBeyond(vm, parent, child, v, most, free0, mem0, owner0);
        return false, panicked;
      }
      ok := CopyNext(vm, parent, child, v, most, free0, mem0, owner0, beyond);
      if !ok {
        return;
      }
      v := v + 1;
      PagesLeft(v, sz);
    }
    ok := true;
    CopyEnds(vm, free0, mem0, owner0, parent, child, most);
  }

  lemma CopyEnds(vm: Vm, free: seq<nat>, mem: seq<Page>, owner: map<nat, Use>, parent: nat, child: nat, most: nat)
    requires Copying(vm, free, mem, owner, parent, child, most, most)
    ensures Outcome(vm, true, false, free, mem, owner, child, 0, Wants(mem, parent, most), false)
  {
    SpentEnough(free, mem, vm.free, vm.mem, child, 0, Wants(mem, parent, most));
  }

  /** Copies sz bytes of user memory of parent into child, page by page.  On success every mapped
      page has a copy with the same flags and bytes in a frame of its own; on failure child
      has no user page, and no frame but table pages was used up.  The panic is that of
      mappages, when the trapframe is reached with memory left. */
  method Uvmcopy(vm: Vm, parent: nat, child: nat, sz: nat) returns (ok: bool, panicked: bool)
    requires vm.Valid() && IsRoot(vm.owner, parent) && IsRoot(vm.owner, child) && parent != child
    requires forall v :: 0 <= v < UserPages(sz) ==> Map(vm.mem, child, v) == 0
    requires sz > TRAPFRAME ==> V(Map(vm.mem, parent, USERTOP)) && V(Map(vm.mem, child, USERTOP))
    modifies vm
    ensures Outcome(vm, ok, panicked, old(vm.free), old(vm.mem), old(vm.owner), child, 0,
                    Wants(old(vm.mem), parent, UserPages(sz)), sz > TRAPFRAME)
    ensures sz <= TRAPFRAME ==> UserPages(sz) == Pages(sz)
  {
    ghost var most := UserPages(sz);
    PagesBelow(sz);
    CopyStarts(vm.free, vm.mem, vm.owner, parent, child, most);
    ok, panicked := CopyAll(vm, parent, child, sz, most);
  }
}
