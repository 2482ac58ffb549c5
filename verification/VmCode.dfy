/** Physical pages and page tables as kernel/kalloc.c and kernel/vm.c handle them.  A frame
    number stands for a physical address, PGSIZE bytes a frame; 0 is null. */
module VmCode {
  import opened PageModel
  import opened PageProofs
  import opened PageChange
  import opened PageNeed

  /** A page all of whose bytes are b. */
  function Fill(b: nat): (p: Page)
    requires b < 256
    ensures forall i :: 0 <= i < 512 ==> p[i] == b * 0x101_0101_0101_0101
  {
    seq(512, i => b * 0x101_0101_0101_0101)
  }

  /** What follows the i-th free frame. */
  function Next(free: seq<nat>, i: nat): nat {
    if i + 1 < |free| then free[i + 1] else 0
  }

  /** The free list, linked through the first word of each free frame. */
  ghost predicate Links(mem: seq<Page>, head: nat, free: seq<nat>) {
    && |mem| == HI && head == (if free == [] then 0 else free[0])
    && (forall i {:trigger LinkedAt(mem, free, i)} :: 0 <= i < |free| ==> LinkedAt(mem, free, i))
  }

  predicate LinkedAt(mem: seq<Page>, free: seq<nat>, i: nat)
    requires i < |free| && |mem| == HI
  {
    free[i] < HI && mem[free[i]][0] == Next(free, i) * PGSIZE
  }

  /** The managed frames from lo on are divided into free ones, each on the list once, and
      ones in use. */
  ghost predicate Divided(free: seq<nat>, owner: map<nat, Use>, lo: nat) {
    && 0 < lo <= HI
    && (forall i :: 0 <= i < |free| ==> lo <= free[i] < HI && free[i] !in owner)
    && (forall i, j {:trigger Apart(free, i, j)} :: 0 <= i < j < |free| ==> Apart(free, i, j))
    && (forall f :: f in owner ==> lo <= f < HI)
    && (forall f {:trigger Placed(free, owner, f)} :: lo <= f < HI ==> Placed(free, owner, f))
  }

  predicate Apart(free: seq<nat>, i: nat, j: nat)
    requires i < |free| && j < |free|
  {
    free[i] != free[j]
  }

  predicate Placed(free: seq<nat>, owner: map<nat, Use>, f: nat) {
    f in owner || f in free
  }

  /** The rest of the list is linked whatever is in the first frame. */
  lemma LinksRest(mem: seq<Page>, free: seq<nat>, next: nat, p: Page)
    requires free != [] && free[0] < HI && Links(mem, free[0], free) && next == Next(free, 0)
    requires forall i, j {:trigger Apart(free, i, j)} :: 0 <= i < j < |free| ==> Apart(free, i, j)
    ensures Links(mem[free[0] := p], next, free[1..])
  {
    var rest, mem' := free[1..], mem[free[0] := p];
    forall i | 0 <= i < |rest| ensures LinkedAt(mem', rest, i) {
      assert LinkedAt(mem, free, i + 1);
      assert rest[i] == free[i + 1] && Next(rest, i) == Next(free, i + 1) && Apart(free, 0, i + 1);
    }
  }

  /** A frame put in front. */
  lemma LinksFirst(mem: seq<Page>, head: nat, free: seq<nat>, f: nat, p: Page)
    requires Links(mem, head, free) && f < HI && f !in free && p[0] == head * PGSIZE
    ensures Links(mem[f := p], f, [f] + free)
  {
    var all, mem' := [f] + free, mem[f := p];
    forall i | 0 <= i < |all| ensures LinkedAt(mem', all, i) {
      if i > 0 {
        assert LinkedAt(mem, free, i - 1);
        assert all[i] == free[i - 1] && Next(all, i) == Next(free, i - 1);
      }
    }
  }

  /** Frames that are not free may be written. */
  lemma LinksOther(mem: seq<Page>, head: nat, free: seq<nat>, f: nat, p: Page)
    requires Links(mem, head, free) && f < HI && f !in free
    ensures Links(mem[f := p], head, free)
  {
    var mem' := mem[f := p];
    forall i | 0 <= i < |free| ensures LinkedAt(mem', free, i) {
      assert LinkedAt(mem, free, i) && free[i] in free;
    }
  }

  /** t is the table of this level on the way to page vpn. */
  predicate Reached(mem: seq<Page>, pt: nat, vpn: nat, level: nat, t: nat) {
    V(Ent(mem, pt, level + 1, Idx(vpn, level + 1))) && Frame(Ent(mem, pt, level + 1, Idx(vpn, level + 1))) == t
  }

  lemma IdxSteps(vpn: nat)
    requires vpn < MAXVPN
    ensures Idx(vpn, 1) == vpn / 512 && Idx(vpn, 2) == Idx(vpn, 1) / 512 && Idx(vpn, 3) == Idx(vpn, 2) / 512 == 0
    ensures Dom(1, Idx(vpn, 1)) && Dom(2, Idx(vpn, 2)) && Dom(0, vpn)
  {
    assert Idx(vpn, 2) == Idx(vpn, 1) / 512 && Idx(vpn, 3) == Idx(vpn, 2) / 512;
  }

  /** A fresh page of zeroes as a new table. */
  lemma TableAdded(mem: seq<Page>, owner: map<nat, Use>, pt: nat, lv: nat, k: nat, t: nat, r: nat)
    requires Tree(mem, owner) && IsRoot(owner, pt) && 1 <= lv <= 2 && Dom(lv, k) && 0 < r < HI && r !in owner
    requires V(Ent(mem, pt, lv + 1, k / 512)) && t == Frame(Ent(mem, pt, lv + 1, k / 512)) && Ent(mem, pt, lv, k) == 0
    ensures t < HI
    ensures var mem' := SetWord(mem[r := Fill(0)], t, k % 512, Pte(r, PTE_V));
      var owner' := owner[r := Slot(pt, lv, k)];
      && Tree(mem', owner') && Grew(mem, owner, mem', owner', pt)
      && V(Ent(mem', pt, lv, k)) && Frame(Ent(mem', pt, lv, k)) == r && Tabled(mem, mem', pt, {Node(lv, k)})
  {
    var w := Pte(r, PTE_V);
    var mem1, owner1 := mem[r := Fill(0)], owner[r := Held];
    EntryTable(mem, owner, pt, lv, k);
    DataKeeps(mem, owner, r, Fill(0));
    HoldKeeps(mem1, owner, r);
    var mem' := SetWord(mem1, t, k % 512, w);
    WriteOne(mem1, owner1, pt, lv, k, t, w);
    EntryAdded(mem1, mem', owner1, pt, lv, k, r, w);
    assert owner1[r := Slot(pt, lv, k)] == owner[r := Slot(pt, lv, k)];
    GrewByTable(mem, owner, mem1, mem', owner[r := Slot(pt, lv, k)], pt, lv, k, r, t);
    assert Ent(mem', pt, lv, k) == w;
    TabledOne(mem, mem1, mem', owner, owner1, pt, lv, k, w);
  }

  /** Just this table was put in. */
  lemma TabledOne(mem: seq<Page>, mem1: seq<Page>, mem': seq<Page>, owner: map<nat, Use>, owner1: map<nat, Use>,
                  pt: nat, lv: nat, k: nat, w: nat)
    requires IsRoot(owner, pt) && IsRoot(owner1, pt) && SameEnts(mem, mem1, owner)
    requires OneEnt(mem1, mem', owner1, pt, lv, k, w) && V(w)
    ensures Tabled(mem, mem', pt, {Node(lv, k)})
  {
    forall t | NodeOk(t) ensures HasTable(mem', pt, t) <==> HasTable(mem, pt, t) || t in {Node(lv, k)} {
      assert Ent(mem', pt, t.lv, t.k) == if t.lv == lv && t.k == k then w else Ent(mem1, pt, t.lv, t.k);
    }
  }

  /** A leaf entry is no table. */
  lemma TabledLeaf(mem: seq<Page>, mem': seq<Page>, owner: map<nat, Use>, pt: nat, k: nat, w: nat)
    requires IsRoot(owner, pt) && OneEnt(mem, mem', owner, pt, 0, k, w)
    ensures Tabled(mem, mem', pt, {})
  {
    forall t | NodeOk(t) ensures HasTable(mem', pt, t) <==> HasTable(mem, pt, t) {
      assert Ent(mem', pt, t.lv, t.k) == Ent(mem, pt, t.lv, t.k);
    }
  }

  /** One table of the way is there, or has been put in with the frame it takes. */
  lemma SpentTable(free: seq<nat>, mem: seq<Page>, free': seq<nat>, mem': seq<Page>, pt: nat, t: Node)
    requires NodeOk(t) && Tabled(mem, mem', pt, {t}) && |free| == |free'| + if HasTable(mem, pt, t) then 0 else 1
    ensures Spent(free, mem, free', mem', pt, {t}, 0)
  {
    assert Missing(mem, pt, {t}) == if HasTable(mem, pt, t) then {} else {t};
  }

  /** Where the next table is missing and no frame is left, there were too few. */
  lemma TooFew(free: seq<nat>, mem: seq<Page>, mem': seq<Page>, pt: nat, vpn: nat, level: nat)
    requires Spent(free, mem, [], mem', pt, Down(vpn, level), 0) && 1 <= level <= 2 && vpn < MAXVPN
    requires !HasTable(mem', pt, Node(level, Idx(vpn, level)))
    ensures |free| < |Missing(mem, pt, Path(vpn))|
  {
    var t := Node(level, Idx(vpn, level));
    PathIs(vpn);
    IdxSteps(vpn);
    MissingMore(mem, mem', pt, Down(vpn, level), {t});
    assert Missing(mem', pt, {t}) == {t};
    assert Down(vpn, level - 1) == Down(vpn, level) + {t};
    MissingLess(mem, pt, Down(vpn, level - 1), Path(vpn));
  }

  /** A leaf entry, seen and written. */
  lemma LeafSet(mem: seq<Page>, owner: map<nat, Use>, pt: nat, vpn: nat, t: nat, w: Word)
    requires Tree(mem, owner) && IsRoot(owner, pt) && vpn < MAXVPN && Reached(mem, pt, vpn, 0, t)
    ensures t < HI && IsTable(owner, t) && Map(mem, pt, vpn) == Norm(mem[t][vpn % 512])
    ensures OneEnt(mem, SetWord(mem, t, vpn % 512, w), owner, pt, 0, vpn, Norm(w))
  {
    IdxSteps(vpn);
    EntryTable(mem, owner, pt, 0, vpn);
    WriteOne(mem, owner, pt, 0, vpn, t, w);
  }

  /** A mapped user page's frame is its own, and not a table. */
  lemma LeafFrame(mem: seq<Page>, owner: map<nat, Use>, pt: nat, vpn: nat, t: nat)
    requires Tree(mem, owner) && IsRoot(owner, pt) && vpn < USERTOP && Reached(mem, pt, vpn, 0, t)
    requires V(Map(mem, pt, vpn))
    ensures t < HI && IsTable(owner, t) && Map(mem, pt, vpn) == mem[t][vpn % 512]
    ensures var f := Frame(mem[t][vpn % 512]); f in owner && owner[f] == Slot(pt, 0, vpn) && f < HI && f != t
  {
    IdxSteps(vpn);
    LeafSet(mem, owner, pt, vpn, t, 0);
    assert SlotOk(mem, owner, pt, 0, vpn);
  }

  /** Freed and then unmapped. */
  lemma LeafFreed(mem: seq<Page>, owner: map<nat, Use>, pt: nat, vpn: nat, t: nat, f: nat, p: Page)
    requires Tree(mem, owner) && IsRoot(owner, pt) && vpn < USERTOP && Reached(mem, pt, vpn, 0, t)
    requires V(Map(mem, pt, vpn))
    requires f == Frame(Map(mem, pt, vpn))
    ensures t < HI && f < HI
    ensures var mem' := SetWord(mem[f := p], t, vpn % 512, 0);
      Tree(mem', owner - {f}) && Removed(mem, owner, mem', owner - {f}, pt, vpn, 1, true)
  {
    LeafFrame(mem, owner, pt, vpn, t);
    IdxSteps(vpn);
    var mem1 := mem[f := p];
    DataKeeps(mem, owner, f, p);
    assert Ent(mem1, pt, 0, vpn) == Ent(mem, pt, 0, vpn) && Ent(mem1, pt, 1, vpn / 512) == Ent(mem, pt, 1, vpn / 512);
    LeafSet(mem1, owner, pt, vpn, t, 0);
    var mem' := SetWord(mem1, t, vpn % 512, 0);
    EntryCleared(mem1, mem', owner, pt, vpn);
    DropKeeps(mem', owner[f := Held], f);
    assert owner[f := Held] - {f} == owner - {f};
    RemovedOne(mem, owner, mem1, mem', owner - {f}, pt, vpn, true, t);
  }

  lemma WithVIs(f: nat, perm: nat)
    requires f < 0x1000_0000_0000 && perm < 1024
    ensures WithV(perm) < 1024 && V(WithV(perm)) && Pte(f, WithV(perm)) < 0x1_0000_0000_0000_0000
  {
  }

  /** What the next page needs is still so. */
  lemma AddedReady(mem: seq<Page>, owner: map<nat, Use>, mem1: seq<Page>, owner1: map<nat, Use>,
                   pt: nat, vpn: nat, m: nat, n: nat, f: nat, flags: nat)
    requires Added(mem, owner, mem1, owner1, pt, vpn, m, f, flags) && m < n && vpn + n <= MAXVPN && IsRoot(owner, pt)
    requires forall v :: vpn <= v < vpn + n ==> Map(mem, pt, v) == 0
    requires forall g :: Taken(vpn, n, f, g) ==> g in owner && owner[g] == Held
    ensures IsRoot(owner1, pt) && Map(mem1, pt, vpn + m) == 0
    ensures vpn + m < USERTOP ==> f + m in owner1 && owner1[f + m] == Held
  {
    assert AddedFrame(mem, owner, mem1, owner1, pt, vpn, m, f, pt);
    if vpn + m < USERTOP {
      assert Taken(vpn, n, f, f + m);
      assert AddedFrame(mem, owner, mem1, owner1, pt, vpn, m, f, f + m);
    }
  }

  /** Without the table nothing is mapped. */
  lemma NothingBelow(mem: seq<Page>, pt: nat, lv: nat, vpn: nat)
    requires 1 <= lv <= 2 && Ent(mem, pt, lv, Idx(vpn, lv)) == 0
    ensures Map(mem, pt, vpn) == 0
  {
    assert Idx(vpn, 2) == Idx(vpn, 1) / 512 && Idx(vpn, 1) == vpn / 512;
    assert Ent(mem, pt, 1, vpn / 512) == Below(mem, Ent(mem, pt, 2, vpn / 512 / 512), vpn / 512 % 512);
    assert Ent(mem, pt, 0, vpn) == Below(mem, Ent(mem, pt, 1, vpn / 512), vpn % 512);
  }

  lemma DividedPush(free: seq<nat>, owner: map<nat, Use>, lo: nat, f: nat)
    requires Divided(free, owner, lo) && f in owner
    ensures Divided([f] + free, owner - {f}, lo)
  {
    var all := [f] + free;
    forall i, j | 0 <= i < j < |all| ensures Apart(all, i, j) {
      assert i > 0 ==> Apart(free, i - 1, j - 1);
    }
    forall g | lo <= g < HI ensures Placed(all, owner - {f}, g) {
      assert Placed(free, owner, g) && all[0] == f;
    }
  }

  lemma DividedPop(free: seq<nat>, owner: map<nat, Use>, lo: nat)
    requires Divided(free, owner, lo) && free != []
    ensures Divided(free[1..], owner[free[0] := Held], lo)
  {
    var rest, owner' := free[1..], owner[free[0] := Held];
    forall i | 0 <= i < |rest| ensures rest[i] !in owner' {
      assert Apart(free, 0, i + 1);
    }
    forall i, j | 0 <= i < j < |rest| ensures Apart(rest, i, j) {
      assert Apart(free, i + 1, j + 1);
    }
    forall g | lo <= g < HI ensures Placed(rest, owner', g) {
      assert Placed(free, owner, g);
    }
  }

  lemma DividedSame(free: seq<nat>, owner: map<nat, Use>, lo: nat, f: nat, u: Use)
    requires Divided(free, owner, lo) && f in owner
    ensures Divided(free, owner[f := u], lo)
  {
    var owner' := owner[f := u];
    forall g | lo <= g < HI ensures Placed(free, owner', g) {
      assert Placed(free, owner, g);
    }
  }

  /** Before kinit the frames are nobody's. */
  ghost function HeldFrom(lo: nat): (r: map<nat, Use>)
    ensures forall f :: f in r <==> lo <= f < HI
    decreases HI - lo
  {
    if lo >= HI then map[] else HeldFrom(lo + 1)[lo := Held]
  }

  /** Frame f was freed last, and is in use or on the list a second time. */
  predicate FreedInUse(free: seq<nat>, owner: map<nat, Use>, f: nat) {
    free != [] && free[0] == f && (f in owner || f in free[1..])
  }

  /** Then the frames are not divided any more. */
  lemma InUseIsUndivided(free: seq<nat>, owner: map<nat, Use>, lo: nat, f: nat)
    requires FreedInUse(free, owner, f)
    ensures !Divided(free, owner, lo)
  {
    if free[0] !in owner {
      var i :| 0 <= i < |free[1..]| && free[1..][i] == free[0];
      assert free[i + 1] == free[0] && !Apart(free, 0, i + 1);
    }
  }

  /** hi gives the frame of page v, if that is mapped above user memory. */
  predicate HighAt(hi: map<nat, nat>, mem: seq<Page>, pt: nat, v: nat) {
    if v >= USERTOP && Map(mem, pt, v) != 0 then v in hi && hi[v] == Frame(Map(mem, pt, v)) else v !in hi
  }

  ghost predicate IsHigh(hi: map<nat, nat>, mem: seq<Page>, pt: nat) {
    forall v {:trigger Map(mem, pt, v)} :: 0 <= v < MAXVPN ==> HighAt(hi, mem, pt, v)
  }

  ghost function HighOf(mem: seq<Page>, pt: nat): map<nat, nat> {
    map v | USERTOP <= v < MAXVPN && Map(mem, pt, v) != 0 :: Frame(Map(mem, pt, v))
  }

  lemma HighOfIs(mem: seq<Page>, pt: nat)
    ensures IsHigh(HighOf(mem, pt), mem, pt)
  {
    forall v | 0 <= v < MAXVPN ensures HighAt(HighOf(mem, pt), mem, pt, v) {
      assert v in HighOf(mem, pt) <==> USERTOP <= v && Map(mem, pt, v) != 0;
    }
  }

  /** Page v can be unmapped, and its frame freed if asked: it is below MAXVA, and not a mapped
      page above user memory. */
  predicate CanUnmap(hi: map<nat, nat>, v: nat, free: bool) {
    v < MAXVPN && (free ==> v !in hi)
  }

  ghost predicate CanUnmapAll(hi: map<nat, nat>, vpn: nat, n: nat, free: bool) {
    forall v :: vpn <= v < vpn + n ==> CanUnmap(hi, v, free)
  }

  /** How uvmunmap ends: with the range unmapped; with a frame freed that is still in use;
      with a panic. */
  datatype Unmapping = Complete | Doubled | Panicked

  class Vm {
    const lo: nat             // first frame after the kernel
    var mem: seq<Page>
    var freelist: nat
    ghost var free: seq<nat>
    ghost var owner: map<nat, Use>

    ghost predicate Alloc()
      reads this
    {
      Links(mem, freelist, free) && Divided(free, owner, lo)
    }

    ghost predicate Valid()
      reads this
    {
      Alloc() && Tree(mem, owner)
    }

    // ----- kernel/kalloc.c

    /** kinit: every frame from lo on is freed. */
    constructor (lo: nat, ram: seq<Page>)
      requires 0 < lo <= HI && |ram| == HI
      ensures Valid() && this.lo == lo && owner == map[] && |free| == HI - lo
    {
      this.lo := lo;
      mem := ram;
      freelist := 0;
      free := [];
      owner := HeldFrom(lo);
      new;
      Freerange();
    }

    method Freerange()
      requires Alloc() && free == [] && forall f :: lo <= f < HI ==> f in owner
      modifies `mem, `freelist, `free, `owner
      ensures Alloc() && owner == map[] && |free| == HI - lo
    {
      var p := lo;
      while p < HI
        invariant lo <= p <= HI && Alloc() && |free| == p - lo
        invariant forall f :: f in owner <==> p <= f < HI
      {
        Kfree(p);
        p := p + 1;
      }
      assert owner == map[];
    }

    /** Puts frame f on the free list. */
    method Kfree(f: nat)
      requires Alloc() && f in owner
      modifies `mem, `freelist, `free, `owner
      ensures Alloc() && free == [f] + old(free) && owner == old(owner) - {f}
      ensures mem == old(mem)[f := mem[f]]
    {
      mem := mem[f := Fill(1)];
      mem := SetWord(mem, f, 0, freelist * PGSIZE);
      assert mem == old(mem)[f := mem[f]];
      LinksFirst(old(mem), freelist, free, f, mem[f]);
      DividedPush(free, owner, lo, f);
      freelist := f;
      free := [f] + free;
      owner := owner - {f};
    }

    /** Takes the first frame from the free list; 0 when there is none. */
    method Kalloc() returns (r: nat)
      requires Alloc()
      modifies `mem, `freelist, `free, `owner
      ensures Alloc() && (r == 0 <==> old(free) == [])
      ensures r == 0 ==> mem == old(mem) && freelist == old(freelist) && free == old(free) && owner == old(owner)
      ensures r != 0 ==>
        && r == old(free)[0] && free == old(free)[1..] && lo <= r < HI
        && r !in old(owner) && owner == old(owner)[r := Held] && mem == old(mem)[r := mem[r]]
    {
      r := freelist;
      if r != 0 {
        assert LinkedAt(mem, free, 0);
        freelist := mem[r][0] / PGSIZE;
        LinksRest(mem, free, freelist, Fill(5));
        DividedPop(free, owner, lo);
        mem := mem[r := Fill(5)];
        free := free[1..];
        owner := owner[r := Held];
      }
    }

    /** memset or memmove of a whole frame in somebody's hands. */
    method PutPage(f: nat, p: Page)
      requires Valid() && f in owner && owner[f] == Held
      modifies `mem
      ensures Valid() && mem == old(mem)[f := p] && SameEnts(old(mem), mem, owner)
    {
      DataKeeps(mem, owner, f, p);
      LinksOther(mem, freelist, free, f, p);
      mem := mem[f := p];
    }

    // ----- kernel/vm.c

    /** kalloc of a frame with given contents. */
    method KallocFilled(p: Page) returns (r: nat)
      requires Valid()
      modifies `mem, `freelist, `free, `owner
      ensures Valid() && (r == 0 <==> old(free) == [])
      ensures r == 0 ==> mem == old(mem) && free == old(free) && owner == old(owner)
      ensures r != 0 ==>
        && r == old(free)[0] && free == old(free)[1..] && r < HI && mem[r] == p
        && r !in old(owner) && owner == old(owner)[r := Held] && mem == old(mem)[r := mem[r]]
        && SameEnts(old(mem), mem, old(owner))
    {
      r := Kalloc();
      if r != 0 {
        DataKeeps(old(mem), old(owner), r, mem[r]);
        HoldKeeps(mem, old(owner), r);
        PutPage(r, p);
        DataKeeps(old(mem), old(owner), r, p);
        assert mem == old(mem)[r := p];
      }
    }

    /** Writes an entry of table t. */
    method PutEntry(t: nat, i: nat, w: Word)
      requires Alloc() && t in owner && i < 512
      modifies `mem
      ensures Alloc() && mem == SetWord(old(mem), t, i, w)
    {
      LinksOther(mem, freelist, free, t, mem[t][i := w]);
      mem := SetWord(mem, t, i, w);
    }

    /** One level of walk: the table that entry k of level lv points to, put in if need be. */
    method Descend(pt: nat, t: nat, lv: nat, k: nat, alloc: bool) returns (r: nat)
      requires Valid() && IsRoot(owner, pt) && 1 <= lv <= 2 && Dom(lv, k)
      requires V(Ent(mem, pt, lv + 1, k / 512)) && t == Frame(Ent(mem, pt, lv + 1, k / 512))
      modifies `mem, `freelist, `free, `owner
      ensures Valid() && Grew(old(mem), old(owner), mem, owner, pt)
      ensures r != 0 ==> V(Ent(mem, pt, lv, k)) && Frame(Ent(mem, pt, lv, k)) == r
      ensures r == 0 ==> Ent(mem, pt, lv, k) == 0 && (alloc ==> free == [])
      ensures r == 0 || !alloc ==> mem == old(mem) && owner == old(owner) && free == old(free)
      ensures r != 0 ==> Spent(old(free), old(mem), free, mem, pt, {Node(lv, k)}, 0)
    {
      EntryTable(mem, owner, pt, lv, k);
      GrewNot(mem, owner, pt);
      var pte := mem[t][k % 512];
      if V(pte) {
        assert SlotOk(mem, owner, pt, lv, k);
        SpentTable(free, mem, free, mem, pt, Node(lv, k));
        return Frame(pte);
      }
      if !alloc {
        return 0;
      }
      r := KallocFilled(Fill(0));
      if r != 0 {
        assert mem == old(mem)[r := Fill(0)];
        AddTable(pt, t, lv, k, r, old(mem), old(owner));
        SpentTable(old(free), old(mem), free, mem, pt, Node(lv, k));
      }
    }

    /** The new table page r goes into entry k of level lv. */
    method AddTable(pt: nat, t: nat, lv: nat, k: nat, r: nat, ghost mem0: seq<Page>, ghost owner0: map<nat, Use>)
      requires Alloc() && Tree(mem0, owner0) && IsRoot(owner0, pt) && 1 <= lv <= 2 && Dom(lv, k) && 0 < r < HI
      requires V(Ent(mem0, pt, lv + 1, k / 512)) && t == Frame(Ent(mem0, pt, lv + 1, k / 512))
      requires Ent(mem0, pt, lv, k) == 0
      requires r !in owner0 && owner == owner0[r := Held] && mem == mem0[r := Fill(0)]
      modifies `mem, `owner
      ensures Valid() && Grew(mem0, owner0, mem, owner, pt) && Tabled(mem0, mem, pt, {Node(lv, k)})
      ensures V(Ent(mem, pt, lv, k)) && Frame(Ent(mem, pt, lv, k)) == r
    {
      EntryTable(mem0, owner0, pt, lv, k);
      TableAdded(mem0, owner0, pt, lv, k, t, r);
      PutEntry(t, k % 512, Pte(r, PTE_V));
      Assign(r, Slot(pt, lv, k));
      assert owner == owner0[r := Slot(pt, lv, k)];
    }

    /** A frame in use gets another use. */
    ghost method Assign(f: nat, u: Use)
      requires Alloc() && f in owner
      modifies `owner
      ensures Alloc() && owner == old(owner)[f := u]
    {
      DividedSame(free, owner, lo, f, u);
      owner := owner[f := u];
    }

    /** The leaf table for page vpn; 0 when there is none, and with alloc only when memory
        has run out. */
    method Walk(pt: nat, vpn: nat, alloc: bool) returns (t: nat)
      requires Valid() && IsRoot(owner, pt) && vpn < MAXVPN
      modifies `mem, `freelist, `free, `owner
      ensures Valid() && IsRoot(owner, pt) && Grew(old(mem), old(owner), mem, owner, pt)
      ensures t != 0 ==> Reached(mem, pt, vpn, 0, t)
      ensures t == 0 ==> Map(mem, pt, vpn) == 0 && (alloc ==> free == [])
      ensures !alloc ==> mem == old(mem) && owner == old(owner) && free == old(free)
      ensures t != 0 ==> Spent(old(free), old(mem), free, mem, pt, Path(vpn), 0)
      ensures t == 0 && alloc ==> |old(free)| < |Missing(old(mem), pt, Path(vpn))|
    {
      t := pt;
      var level := 2;
      GrewNot(mem, owner, pt);
      SpentNothing(free, mem, pt);
      IdxSteps(vpn);
      while level > 0
        invariant 0 <= level <= 2 && Valid() && IsRoot(owner, pt) && Grew(old(mem), old(owner), mem, owner, pt)
        invariant t != 0 && Reached(mem, pt, vpn, level, t)
        invariant !alloc ==> mem == old(mem) && owner == old(owner) && free == old(free)
        invariant Spent(old(free), old(mem), free, mem, pt, Down(vpn, level), 0)
      {
        t := WalkStep(pt, vpn, t, level, alloc, old(free), old(mem), old(owner));
        if t == 0 {
          NothingBelow(mem, pt, level, vpn);
          return;
        }
        level := level - 1;
      }
    }

    /** One pass of walk's loop. */
    method WalkStep(pt: nat, vpn: nat, t: nat, level: nat, alloc: bool, ghost free0: seq<nat>, ghost mem0: seq<Page>,
                    ghost owner0: map<nat, Use>)
      returns (r: nat)
      requires Valid() && IsRoot(owner, pt) && vpn < MAXVPN && 1 <= level <= 2 && Reached(mem, pt, vpn, level, t)
      requires Grew(mem0, owner0, mem, owner, pt) && Spent(free0, mem0, free, mem, pt, Down(vpn, level), 0)
      modifies `mem, `freelist, `free, `owner
      ensures Valid() && IsRoot(owner, pt) && Grew(mem0, owner0, mem, owner, pt)
      ensures r != 0 ==> Reached(mem, pt, vpn, level - 1, r)
      ensures r == 0 ==> Ent(mem, pt, level, Idx(vpn, level)) == 0 && (alloc ==> free == [])
      ensures !alloc ==> mem == old(mem) && owner == old(owner) && free == old(free)
      ensures r != 0 ==> Spent(free0, mem0, free, mem, pt, Down(vpn, level - 1), 0)
      ensures r == 0 && alloc ==> |free0| < |Missing(mem0, pt, Path(vpn))|
    {
      IdxSteps(vpn);
      ghost var k := Idx(vpn, level);
      r := Descend(pt, t, level, Idx(vpn, level), alloc);
      GrewTwice(mem0, owner0, old(mem), old(owner), mem, owner, pt);
      assert Kept(old(mem), old(owner), mem, owner, pt);
      if r != 0 {
        SpentMore(free0, mem0, old(free), old(mem), free, mem, pt, Down(vpn, level), 0, {Node(level, k)}, 0);
        assert Down(vpn, level - 1) == Down(vpn, level) + {Node(level, k)};
      } else if alloc {
        TooFew(free0, mem0, mem, pt, vpn, level);
      }
    }

    /** The entry for page vpn in leaf table t, after a walk from (mem0, owner0). */
    method SetLeaf(pt: nat, vpn: nat, t: nat, f: nat, perm: nat, ghost mem0: seq<Page>, ghost owner0: map<nat, Use>)
      requires Valid() && IsRoot(owner0, pt) && IsRoot(owner, pt) && vpn < MAXVPN && f < 0x1000_0000_0000 && perm < 1024
      requires Grew(mem0, owner0, mem, owner, pt) && Reached(mem, pt, vpn, 0, t) && Map(mem, pt, vpn) == 0
      requires vpn < USERTOP ==> f in owner0 && owner0[f] == Held && f in owner && owner[f] == Held
      modifies `mem, `owner
      ensures Valid() && Added(mem0, owner0, mem, owner, pt, vpn, 1, f, WithV(perm)) && Tabled(old(mem), mem, pt, {})
    {
      IdxSteps(vpn);
      WithVIs(f, perm);
      var w := Pte(f, WithV(perm));
      LeafSet(mem, owner, pt, vpn, t, w);
      // a valid entry here is the source's "mappages: remap" panic
      assert !V(mem[t][vpn % 512]);
      PutEntry(t, vpn % 512, w);
      TabledLeaf(old(mem), mem, owner, pt, vpn, w);
      if vpn < USERTOP {
        EntryAdded(old(mem), mem, owner, pt, 0, vpn, f, w);
        Assign(f, Slot(pt, 0, vpn));
      } else {
        HighEntry(old(mem), mem, owner, pt, vpn, w);
      }
      AddedOne(mem0, owner0, old(mem), old(owner), mem, owner, pt, vpn, f, WithV(perm), t);
    }

    /** One pass of mappages' loop. */
    method MapPage(pt: nat, vpn: nat, f: nat, perm: nat) returns (ok: bool, ghost k: nat)
      requires Valid() && IsRoot(owner, pt) && vpn < MAXVPN && f < 0x1000_0000_0000 && perm < 1024
      requires Map(mem, pt, vpn) == 0 && (vpn < USERTOP ==> f in owner && owner[f] == Held)
      modifies `mem, `freelist, `free, `owner
      ensures Valid() && k == (if ok then 1 else 0) && (!ok ==> free == [])
      ensures Added(old(mem), old(owner), mem, owner, pt, vpn, k, f, WithV(perm))
      ensures ok ==> Spent(old(free), old(mem), free, mem, pt, Path(vpn), 0)
      ensures !ok ==> |old(free)| < |Missing(old(mem), pt, Path(vpn))|
    {
      var t := Walk(pt, vpn, true);
      if t == 0 {
        AddedNothing(old(mem), old(owner), mem, owner, pt, vpn, f, WithV(perm));
        return false, 0;
      }
      assert Dom(0, vpn);
      assert vpn < USERTOP ==> Kept(old(mem), old(owner), mem, owner, f);
      ghost var mem1 := mem;
      SetLeaf(pt, vpn, t, f, perm, old(mem), old(owner));
      SpentLeaf(old(free), old(mem), free, mem1, mem, pt, Path(vpn), 0);
      return true, 1;
    }

    /** The same pass as the i-th of n, since (mem0, owner0). */
    method MapNext(pt: nat, vpn: nat, i: nat, n: nat, f: nat, perm: nat, ghost free0: seq<nat>,
                   ghost mem0: seq<Page>, ghost owner0: map<nat, Use>)
      returns (ok: bool)
      requires Valid() && IsRoot(owner0, pt) && i < n && vpn + n <= MAXVPN && f + n <= 0x1000_0000_0000 && perm < 1024
      requires forall v :: vpn <= v < vpn + n ==> Map(mem0, pt, v) == 0
      requires forall g :: Taken(vpn, n, f, g) ==> g in owner0 && owner0[g] == Held
      requires Added(mem0, owner0, mem, owner, pt, vpn, i, f, WithV(perm))
      requires Spent(free0, mem0, free, mem, pt, Paths(vpn, i), 0)
      modifies `mem, `freelist, `free, `owner
      ensures Valid() && (!ok ==> free == [])
      ensures Added(mem0, owner0, mem, owner, pt, vpn, if ok then i + 1 else i, f, WithV(perm))
      ensures ok ==> Spent(free0, mem0, free, mem, pt, Paths(vpn, i + 1), 0)
      ensures !ok ==> |free0| < |Missing(mem0, pt, Paths(vpn, n))|
    {
      AddedReady(mem0, owner0, mem, owner, pt, vpn, i, n, f, WithV(perm));
      ghost var k;
      ok, k := MapPage(pt, vpn + i, f + i, perm);
      AddedNext(mem0, owner0, old(mem), old(owner), mem, owner, pt, vpn, i, k, f, WithV(perm));
      ghost var T, U := Paths(vpn, i), Path(vpn + i);
      assert Paths(vpn, i + 1) == T + U;
      if ok {
        SpentMore(free0, mem0, old(free), old(mem), free, mem, pt, T, 0, U, 0);
      } else {
        PathsTooFew(free0, mem0, old(free), old(mem), pt, vpn, i, n);
      }
    }

    /** Maps n pages from vpn on to the frames from f on.  m pages were mapped: all of them,
        or those before the first for which no table page could be had. */
    method Mappages(pt: nat, vpn: nat, n: nat, f: nat, perm: nat) returns (ok: bool, ghost m: nat)
      requires Valid() && IsRoot(owner, pt) && 0 < n && vpn + n <= MAXVPN && f + n <= 0x1000_0000_0000 && perm < 1024
      requires forall v :: vpn <= v < vpn + n ==> Map(mem, pt, v) == 0
      requires forall g :: Taken(vpn, n, f, g) ==> g in owner && owner[g] == Held
      modifies `mem, `freelist, `free, `owner
      ensures Valid() && m <= n && (ok <==> m == n) && (!ok ==> free == [])
      ensures Added(old(mem), old(owner), mem, owner, pt, vpn, m, f, WithV(perm))
      ensures ok <==> |old(free)| >= |Missing(old(mem), pt, Paths(vpn, n))|
      ensures ok ==> Spent(old(free), old(mem), free, mem, pt, Paths(vpn, n), 0)
    {
      GrewNot(mem, owner, pt);
      SpentNothing(free, mem, pt);
      AddedNothing(mem, owner, mem, owner, pt, vpn, f, WithV(perm));
      var i := 0;
      while i < n
        invariant i <= n && Valid() && Added(old(mem), old(owner), mem, owner, pt, vpn, i, f, WithV(perm))
        invariant Spent(old(free), old(mem), free, mem, pt, Paths(vpn, i), 0)
      {
        ok := MapNext(pt, vpn, i, n, f, perm, old(free), old(mem), old(owner));
        if !ok {
          return false, i;
        }
        i := i + 1;
      }
      return true, n;
    }

    /** uvmunmap stopped at page v, which cannot be unmapped: walk refuses the page, or kfree its
        frame, or the frame was freed. */
    ghost predicate Stopped(r: Unmapping, hi: map<nat, nat>, v: nat, free: bool)
      reads this
    {
      && !CanUnmap(hi, v, free)
      && if v < MAXVPN && lo <= hi[v] < HI then r == Doubled && FreedInUse(this.free, owner, hi[v]) else r == Panicked
    }

    /** kfree of a frame that somebody goes on using: it is refused if it is no frame of the
        managed memory, and else both free and in use, or free twice. */
    method KfreeInUse(f: nat) returns (r: Unmapping)
      requires Alloc()
      modifies `mem, `freelist, `free
      ensures |mem| == HI && r == if lo <= f < HI then Doubled else Panicked
      ensures r == Doubled ==> FreedInUse(free, owner, f)
    {
      if f < lo || HI <= f {
        return Panicked;
      }
      mem := mem[f := Fill(1)];
      mem := SetWord(mem, f, 0, freelist * PGSIZE);
      freelist := f;
      assert Placed(free, owner, f);
      free := [f] + free;
      return Doubled;
    }

    /** One pass of uvmunmap's loop.  The frame of a page above user memory is in other hands,
        which do not learn that it was freed. */
    method UnmapPage(pt: nat, vpn: nat, doFree: bool, ghost hi: map<nat, nat>) returns (r: Unmapping)
      requires Valid() && IsRoot(owner, pt) && vpn < MAXVPN && HighAt(hi, mem, pt, vpn)
      modifies `mem, `freelist, `free, `owner
      ensures r == Complete ==> Valid() && Removed(old(mem), old(owner), mem, owner, pt, vpn, 1, doFree)
      ensures if r == Complete then CanUnmap(hi, vpn, doFree) else Stopped(r, hi, vpn, doFree)
    {
      r := Complete;
      var t := Walk(pt, vpn, false);
      if t == 0 {
        RemovedNone(mem, owner, pt, vpn, doFree);
        return;
      }
      LeafSet(mem, owner, pt, vpn, t, 0);
      var pte := mem[t][vpn % 512];
      if !V(pte) {
        RemovedNone(mem, owner, pt, vpn, doFree);
        return;
      }
      IdxSteps(vpn);
      if !doFree {
        ClearLeaf(pt, vpn, t);
      } else if vpn < USERTOP {
        FreeLeaf(pt, vpn, t);
      } else {
        r := FreeHighLeaf(t, vpn % 512, Frame(pte));
      }
    }

    /** The frame of a page above user memory is freed, then the page's entry cleared. */
    method FreeHighLeaf(t: nat, i: nat, f: nat) returns (r: Unmapping)
      requires Alloc() && t < HI && i < 512
      modifies `mem, `freelist, `free
      ensures r == (if lo <= f < HI then Doubled else Panicked) && (r == Doubled ==> FreedInUse(free, owner, f))
    {
      r := KfreeInUse(f);
      if r == Doubled {
        mem := SetWord(mem, t, i, 0);
      }
    }

    /** The page's frame is freed, then its entry cleared. */
    method FreeLeaf(pt: nat, vpn: nat, t: nat)
      requires Valid() && IsRoot(owner, pt) && vpn < USERTOP && Reached(mem, pt, vpn, 0, t) && V(Map(mem, pt, vpn))
      modifies `mem, `freelist, `free, `owner
      ensures Valid() && Removed(old(mem), old(owner), mem, owner, pt, vpn, 1, true)
    {
      LeafFrame(mem, owner, pt, vpn, t);
      var f := Frame(mem[t][vpn % 512]);
      Kfree(f);
      LeafFreed(old(mem), old(owner), pt, vpn, t, f, mem[f]);
      PutEntry(t, vpn % 512, 0);
    }

    /** The page's entry is cleared and its frame left to the caller. */
    method ClearLeaf(pt: nat, vpn: nat, t: nat)
      requires Valid() && IsRoot(owner, pt) && vpn < MAXVPN && Reached(mem, pt, vpn, 0, t) && V(Map(mem, pt, vpn))
      modifies `mem, `owner
      ensures Valid() && Removed(old(mem), old(owner), mem, owner, pt, vpn, 1, false)
    {
      IdxSteps(vpn);
      LeafSet(mem, owner, pt, vpn, t, 0);
      PutEntry(t, vpn % 512, 0);
      if vpn < USERTOP {
        EntryCleared(old(mem), mem, owner, pt, vpn);
        Assign(Frame(Map(old(mem), pt, vpn)), Held);
      } else {
        HighEntry(old(mem), mem, owner, pt, vpn, 0);
      }
      RemovedOne(old(mem), old(owner), old(mem), mem, owner, pt, vpn, false, t);
    }

    /** Unmaps n pages from vpn on, freeing their frames if asked to.  Pages without a
        mapping are passed over.  at is the page it stops at. */
    method Uvmunmap(pt: nat, vpn: nat, n: nat, doFree: bool) returns (r: Unmapping, ghost at: nat)
      requires Valid() && IsRoot(owner, pt)
      modifies `mem, `freelist, `free, `owner
      ensures r == Complete <==> CanUnmapAll(HighOf(old(mem), pt), vpn, n, doFree)
      ensures r == Complete ==> Valid() && Removed(old(mem), old(owner), mem, owner, pt, vpn, n, doFree)
      ensures r != Complete ==> vpn <= at < vpn + n && Stopped(r, HighOf(old(mem), pt), at, doFree)
    {
      RemovedNot(mem, owner, pt, vpn, doFree);
      HighOfIs(mem, pt);
      r, at := UnmapAll(pt, vpn, n, doFree, HighOf(mem, pt));
    }

    /** The first i pages were unmapped since (mem0, owner0), as they could be. */
    ghost predicate Passed(hi: map<nat, nat>, mem0: seq<Page>, owner0: map<nat, Use>, pt: nat, vpn: nat, i: nat,
                           free: bool)
      reads this
    {
      && Valid() && Removed(mem0, owner0, mem, owner, pt, vpn, i, free) && IsRoot(owner0, pt) && IsHigh(hi, mem0, pt)
      && CanUnmapAll(hi, vpn, i, free)
    }

    method UnmapAll(pt: nat, vpn: nat, n: nat, doFree: bool, ghost hi: map<nat, nat>)
      returns (r: Unmapping, ghost at: nat)
      requires Passed(hi, mem, owner, pt, vpn, 0, doFree)
      modifies `mem, `freelist, `free, `owner
      ensures r == Complete ==> Passed(hi, old(mem), old(owner), pt, vpn, n, doFree)
      ensures r != Complete ==> vpn <= at < vpn + n && Stopped(r, hi, at, doFree)
    {
      ghost var mem0, owner0 := mem, owner;
      var i := 0;
      while i < n
        invariant i <= n && Passed(hi, mem0, owner0, pt, vpn, i, doFree)
      {
        at := vpn + i;
        r := UnmapNext(pt, vpn, i, vpn + i, doFree, hi, mem0, owner0);
        if r != Complete {
          return;
        }
        i := i + 1;
      }
      return Complete, vpn;
    }

    /** One pass of the loop as the i-th, for page v, since (mem0, owner0). */
    method UnmapNext(pt: nat, ghost vpn: nat, ghost i: nat, v: nat, doFree: bool, ghost hi: map<nat, nat>,
                     ghost mem0: seq<Page>, ghost owner0: map<nat, Use>)
      returns (r: Unmapping)
      requires Passed(hi, mem0, owner0, pt, vpn, i, doFree) && v == vpn + i
      modifies `mem, `freelist, `free, `owner
      ensures r == Complete ==> Passed(hi, mem0, owner0, pt, vpn, i + 1, doFree)
      ensures r != Complete ==> Stopped(r, hi, v, doFree)
    {
      if v >= MAXVPN {
        return Panicked;
      }
      assert RemovedFrame(mem0, owner0, mem, owner, pt, vpn, i, doFree, pt);
      assert Map(mem, pt, v) == Map(mem0, pt, v);
      r := UnmapPage(pt, v, doFree, hi);
      if r == Complete {
        RemovedNext(mem0, owner0, old(mem), old(owner), mem, owner, pt, vpn, i, 1, doFree);
      }
    }
  }
}
