/** What the page tables add up to: hardware sees the map, address spaces are apart, and
    frames are conserved. */
module PageTheorems {
  import opened PageModel
  import opened PageProofs
  import opened PageChange
  import opened VmCode
  import opened UvmCode
  import opened Sets

  // ----- the hardware's walk

  function PX(level: nat, va: nat): nat
    requires level <= 2
  {
    if level == 0 then va / 0x1000 % 512 else if level == 1 then va / 0x20_0000 % 512 else va / 0x4000_0000 % 512
  }

  datatype Translation = Fault | Leaf(pte: nat, level: nat)

  predicate R(e: nat) {
    e / 2 % 2 == 1
  }

  predicate W(e: nat) {
    e / 4 % 2 == 1
  }

  predicate X(e: nat) {
    e / 8 % 2 == 1
  }

  /** Steps 2 to 5 of the translation algorithm in section 4.3.2 of the RISC-V Privileged
      Architecture, version 20211203, from the table in frame a on. */
  function Sv39(mem: seq<Page>, a: nat, level: nat, va: nat): Translation
    requires level <= 2
    decreases level, |mem|
  {
    var pte := if a < |mem| then mem[a][PX(level, va)] else 0;
    if !V(pte) || (!R(pte) && W(pte)) then Fault
    else if R(pte) || X(pte) then Leaf(pte, level)
    else if level == 0 then Fault
    else Sv39(mem, Frame(pte), level - 1, va)
  }

  /** What hardware makes of the leaf entry e. */
  function Seen(e: nat): Translation {
    if V(e) && (R(e) || (X(e) && !W(e))) then Leaf(e, 0) else Fault
  }

  lemma IndexIsPX(va: nat)
    ensures PX(0, va) == va / PGSIZE % 512
    ensures PX(1, va) == va / PGSIZE / 512 % 512
    ensures PX(2, va) == va / PGSIZE / 512 / 512 % 512
  {
    assert va / 0x20_0000 == va / PGSIZE / 512 && va / 0x4000_0000 == va / 0x20_0000 / 512;
  }

  /** An entry that points to a table is none of R, W, X. */
  lemma TableFlags(e: nat)
    requires Flags(e) == PTE_V
    ensures V(e) && !R(e) && !W(e) && !X(e)
  {
    var q := e / 1024;
    assert e == q * 512 * 2 + 1;
    assert e / 2 == q * 256 * 2 && e / 4 == q * 128 * 2 && e / 8 == q * 64 * 2;
    EvenPlus(q * 256, 0);
    EvenPlus(q * 128, 0);
    EvenPlus(q * 64, 0);
    EvenPlus(q * 512, 1);
  }

  /** One step down: hardware does as the software walk does. */
  lemma Sv39Down(mem: seq<Page>, owner: map<nat, Use>, pt: nat, a: nat, level: nat, k: nat, va: nat)
    requires Tree(mem, owner) && IsRoot(owner, pt) && 1 <= level <= 2 && Dom(level, k) && PX(level, va) == k % 512
    requires V(Ent(mem, pt, level + 1, k / 512)) && Frame(Ent(mem, pt, level + 1, k / 512)) == a
    ensures var e := Ent(mem, pt, level, k);
      Sv39(mem, a, level, va) == if V(e) then Sv39(mem, Frame(e), level - 1, va) else Fault
  {
    EntryTable(mem, owner, pt, level, k);
    var e := Ent(mem, pt, level, k);
    assert SlotOk(mem, owner, pt, level, k);
    if V(e) {
      TableFlags(e);
    }
  }

  lemma Sv39Leaf(mem: seq<Page>, owner: map<nat, Use>, pt: nat, a: nat, k: nat, va: nat)
    requires Tree(mem, owner) && IsRoot(owner, pt) && Dom(0, k) && PX(0, va) == k % 512
    requires V(Ent(mem, pt, 1, k / 512)) && Frame(Ent(mem, pt, 1, k / 512)) == a
    ensures Sv39(mem, a, 0, va) == Seen(Map(mem, pt, k))
  {
    EntryTable(mem, owner, pt, 0, k);
  }

  /** The hardware's walk of any address below MAXVA finds the entry the map gives its page,
      with no superpage on the way. */
  lemma HardwareSeesMap(mem: seq<Page>, owner: map<nat, Use>, pt: nat, va: nat)
    requires Tree(mem, owner) && IsRoot(owner, pt) && va / PGSIZE < MAXVPN
    ensures Sv39(mem, pt, 2, va) == Seen(Map(mem, pt, va / PGSIZE))
  {
    var v := va / PGSIZE;
    IndexIsPX(va);
    IdxSteps(v);
    Sv39Down(mem, owner, pt, pt, 2, v / 512 / 512, va);
    var e2 := Ent(mem, pt, 2, v / 512 / 512);
    if V(e2) {
      Sv39Down(mem, owner, pt, Frame(e2), 1, v / 512, va);
      var e1 := Ent(mem, pt, 1, v / 512);
      if V(e1) {
        Sv39Leaf(mem, owner, pt, Frame(e1), v, va);
      } else {
        NothingBelow(mem, pt, 1, v);
      }
    } else {
      NothingBelow(mem, pt, 2, v);
    }
  }

  // ----- apart

  /** Distinct pages, in one table or in two, have distinct leaf slots. */
  lemma SlotsApart(mem: seq<Page>, owner: map<nat, Use>, pt: nat, u: nat, qt: nat, v: nat)
    requires Tree(mem, owner) && IsRoot(owner, pt) && IsRoot(owner, qt) && Dom(0, u) && Dom(0, v)
    requires (pt != qt || u != v)
    requires V(Ent(mem, pt, 1, u / 512)) && V(Ent(mem, qt, 1, v / 512))
    ensures Frame(Ent(mem, pt, 1, u / 512)) != Frame(Ent(mem, qt, 1, v / 512)) || u % 512 != v % 512
  {
    assert SlotOk(mem, owner, pt, 1, u / 512) && SlotOk(mem, owner, qt, 1, v / 512);
    assert u == u / 512 * 512 + u % 512 && v == v / 512 * 512 + v % 512;
  }

  /** User pages, of one address space or of two, are in distinct frames, and none of these
      is a table page. */
  lemma UserPagesApart(mem: seq<Page>, owner: map<nat, Use>, pt: nat, u: nat, qt: nat, v: nat)
    requires Tree(mem, owner) && IsRoot(owner, pt) && IsRoot(owner, qt) && u < USERTOP && v < USERTOP
    requires (pt != qt || u != v)
    requires V(Map(mem, pt, u)) && V(Map(mem, qt, v))
    ensures Frame(Map(mem, pt, u)) != Frame(Map(mem, qt, v)) && !IsTable(owner, Frame(Map(mem, pt, u)))
  {
    assert SlotOk(mem, owner, pt, 0, u) && SlotOk(mem, owner, qt, 0, v);
  }

  /** What a successful uvmcopy amounts to. */
  lemma CopyIsCopy(mem: seq<Page>, owner: map<nat, Use>, mem': seq<Page>, owner': map<nat, Use>, parent: nat,
                   child: nat, n: nat, v: nat)
    requires Tree(mem, owner) && Filled(mem, owner, mem', owner', child, 0, Wants(mem, parent, n))
    requires IsRoot(owner, parent) && IsRoot(owner, child) && parent != child && v < n <= USERTOP
    ensures Map(mem', parent, v) == Map(mem, parent, v)
    ensures V(Map(mem, parent, v)) ==>
      var e, e' := Map(mem, parent, v), Map(mem', child, v);
      && V(e') && Flags(e') == Flags(e) && Frame(e) < HI && Frame(e') < HI && Frame(e') !in owner
      && mem'[Frame(e')] == mem'[Frame(e)] == mem[Frame(e)]
    ensures !V(Map(mem, parent, v)) ==> Map(mem', child, v) == Map(mem, child, v)
  {
    assert SlotOk(mem, owner, parent, 0, v);
    var f := Frame(Map(mem, parent, v));
    assert f in owner ==> Kept(mem, owner, mem', owner', f);
    var want := Wants(mem, parent, n);
    assert FilledPage(mem, owner, mem', owner', child, 0, want, parent, v);
    assert FilledPage(mem, owner, mem', owner', child, 0, want, child, v) && want[v] == WantOf(mem, parent, v);
  }

  // ----- conservation

  /** Free frames and frames in use are all there are. */
  lemma Conserved(free: seq<nat>, owner: map<nat, Use>, lo: nat)
    requires Divided(free, owner, lo)
    ensures |free| + |owner| == HI - lo
  {
    forall i, j | 0 <= i < j < |free| ensures free[i] != free[j] {
      assert Apart(free, i, j);
    }
    var all, unused := Range(lo, HI), Elements(free);
    AllPlaced(free, owner, lo, all, unused);
    assert |unused + owner.Keys| == |unused| + |owner.Keys|;
  }

  lemma AllPlaced(free: seq<nat>, owner: map<nat, Use>, lo: nat, all: set<nat>, unused: set<nat>)
    requires Divided(free, owner, lo) && forall f :: f in all <==> lo <= f < HI
    requires forall f :: f in unused <==> f in free
    ensures all == unused + owner.Keys && unused !! owner.Keys
  {
    forall f | f in all ensures f in unused || f in owner.Keys {
      assert Placed(free, owner, f);
    }
  }
}
