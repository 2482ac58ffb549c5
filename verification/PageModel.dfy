/** Sv39 page tables in physical memory (kernel/riscv.h, kernel/vm.c): what the words of
    table pages mean, and which frame is used for what. */
module PageModel {
  const PGSIZE: nat := 4096
  const HI: nat := 0x8_8000          // frames below PHYSTOP
  const MAXVPN: nat := 0x400_0000    // pages below MAXVA
  const USERTOP: nat := MAXVPN - 2   // pages below TRAPFRAME

  const PTE_V: nat := 1
  const PTE_R: nat := 2
  const PTE_W: nat := 4
  const PTE_X: nat := 8
  const PTE_U: nat := 16

  type Word = x: int | 0 <= x < 0x1_0000_0000_0000_0000
  type Page = p: seq<Word> | |p| == 512 witness seq(512, i => 0)

  // ----- page table entries

  predicate V(e: nat) {
    e % 2 == 1
  }

  function Frame(e: nat): nat {
    e / 1024
  }

  function Flags(e: nat): nat {
    e % 1024
  }

  /** PA2PTE(pa) | flags, of which the frame and the flags can be read back. */
  function Pte(f: nat, flags: nat): (e: nat)
    ensures flags < 1024 ==> Frame(e) == f && Flags(e) == flags && (V(e) <==> V(flags))
  {
    PteReads(f, flags);
    f * 1024 + flags
  }

  lemma PteReads(f: nat, flags: nat)
    ensures flags < 1024 ==> (f * 1024 + flags) / 1024 == f && (f * 1024 + flags) % 1024 == flags
    ensures (f * 1024 + flags) % 2 == flags % 2
  {
    EvenPlus(f * 512, flags);
  }

  lemma EvenPlus(n: nat, m: nat)
    ensures (n * 2 + m) % 2 == m % 2
  {
    assert n * 2 + m == (n + m / 2) * 2 + m % 2;
  }

  /** flags | PTE_V */
  function WithV(flags: nat): nat {
    flags - flags % 2 + 1
  }

  /** An entry's value; 0 when it is not valid. */
  function Norm(w: nat): nat {
    if V(w) then w else 0
  }

  // ----- tables

  /** Entries of level lv, all tables of that level taken together: k is the page number
      without its lv low digits.  Level 3 is the one reference to the root. */
  predicate Dom(lv: nat, k: nat) {
    if lv == 0 then k < 0x800_0000 else if lv == 1 then k < 0x4_0000 else if lv == 2 then k < 512 else k == 0
  }

  /** Page number without its lv low digits. */
  function Idx(vpn: nat, lv: nat): nat {
    if lv == 0 then vpn else Idx(vpn, lv - 1) / 512
  }

  /** Entry i of the table that entry e points to. */
  function Below(mem: seq<Page>, e: nat, i: nat): nat
    requires i < 512
  {
    if V(e) && Frame(e) < |mem| then Norm(mem[Frame(e)][i]) else 0
  }

  /** The entry that a walk from root pt finds; 0 when it is not valid or not there. */
  function Ent(mem: seq<Page>, pt: nat, lv: nat, k: nat): nat
    decreases 3 - lv, |mem|
  {
    if lv >= 3 then Pte(pt, PTE_V) else Below(mem, Ent(mem, pt, lv + 1, k / 512), k % 512)
  }

  /** What a page translates to; 0 for nothing. */
  function Map(mem: seq<Page>, pt: nat, vpn: nat): nat {
    Ent(mem, pt, 0, vpn)
  }

  // ----- uses of frames

  /** A frame is what an entry points to (a table page, or a page of user memory), or it
      is in other hands. */
  datatype Use = Slot(pt: nat, lv: nat, k: nat) | Held

  predicate IsRoot(owner: map<nat, Use>, pt: nat) {
    pt in owner && owner[pt] == Slot(pt, 3, 0)
  }

  predicate IsTable(owner: map<nat, Use>, f: nat) {
    f in owner && owner[f].Slot? && owner[f].lv > 0
  }

  /** A valid entry points to a frame that is used for just that: tables form a tree
      without sharing, and user pages are not shared either. */
  predicate SlotOk(mem: seq<Page>, owner: map<nat, Use>, pt: nat, lv: nat, k: nat) {
    var e := Ent(mem, pt, lv, k);
    V(e) && (lv > 0 || k < USERTOP) ==>
      Frame(e) in owner && owner[Frame(e)] == Slot(pt, lv, k) && (lv > 0 ==> Flags(e) == PTE_V)
  }

  /** A frame in use is where its use says. */
  predicate FrameOk(mem: seq<Page>, owner: map<nat, Use>, f: nat)
    requires f in owner
  {
    match owner[f]
    case Held => true
    case Slot(pt, lv, k) =>
      && IsRoot(owner, pt) && lv <= 3 && Dom(lv, k) && (lv == 0 ==> k < USERTOP)
      && V(Ent(mem, pt, lv, k)) && Frame(Ent(mem, pt, lv, k)) == f
  }

  ghost predicate Tree(mem: seq<Page>, owner: map<nat, Use>) {
    && |mem| == HI
    && (forall f :: f in owner ==> 0 < f < HI)
    && (forall f {:trigger FrameOk(mem, owner, f)} :: f in owner ==> FrameOk(mem, owner, f))
    && (forall pt, lv, k {:trigger SlotOk(mem, owner, pt, lv, k)} ::
              IsRoot(owner, pt) && 0 <= lv <= 3 && Dom(lv, k) ==> SlotOk(mem, owner, pt, lv, k))
  }

  /** The page an entry points to holds no valid entry. */
  predicate Bare(mem: seq<Page>, e: nat) {
    V(e) && Frame(e) < |mem| ==> forall i :: 0 <= i < 512 ==> !V(mem[Frame(e)][i])
  }

  function SetWord(mem: seq<Page>, f: nat, i: nat, w: Word): seq<Page>
    requires f < |mem| && i < 512
  {
    mem[f := mem[f][i := w]]
  }

  // ----- one entry written

  /** One level of the walk.  b is the entry above the read one, before and after; c the
      written entry's old value. */
  lemma BelowWrite(mem: seq<Page>, t: nat, i: nat, w: Word, b: nat, b': nat, c: nat, j: nat, above: bool, below: bool)
    requires t < |mem| && i < 512 && j < 512 && (V(b) ==> (Frame(b) == t <==> above))
    requires below ==> b == c && b' == Norm(w) && Bare(mem, c) && Bare(SetWord(mem, t, i, w), w)
    requires !below ==> b' == b && (above ==> V(b))
    ensures Below(SetWord(mem, t, i, w), b', j) == if above && !below && i == j then Norm(w) else Below(mem, b, j)
  {
  }

  /** Writing an entry changes that entry and no other, if the tables below the old and
      the new value are bare. */
  lemma {:induction false} EntWrite(mem: seq<Page>, owner: map<nat, Use>, pt: nat, lv: nat, k: nat, w: Word,
                                    qt: nat, lw: nat, j: nat)
    requires Tree(mem, owner) && IsRoot(owner, pt) && IsRoot(owner, qt) && lv <= 2 && Dom(lv, k) && lw <= 3
    requires Dom(lw, j)
    requires V(Ent(mem, pt, lv + 1, k / 512)) && Frame(Ent(mem, pt, lv + 1, k / 512)) < HI
    requires var mem' := SetWord(mem, Frame(Ent(mem, pt, lv + 1, k / 512)), k % 512, w);
      lv > 0 ==> Bare(mem, Ent(mem, pt, lv, k)) && Bare(mem', w)
    ensures var mem' := SetWord(mem, Frame(Ent(mem, pt, lv + 1, k / 512)), k % 512, w);
      Ent(mem', qt, lw, j) == if qt == pt && lw == lv && j == k then Norm(w) else Ent(mem, qt, lw, j)
    decreases 3 - lw
  {
    if lw < 3 {
      EntWrite(mem, owner, pt, lv, k, w, qt, lw + 1, j / 512);
      assert SlotOk(mem, owner, pt, lv + 1, k / 512) && SlotOk(mem, owner, qt, lw + 1, j / 512);
      var e, b := Ent(mem, pt, lv + 1, k / 512), Ent(mem, qt, lw + 1, j / 512);
      BelowWrite(mem, Frame(e), k % 512, w, b, Ent(SetWord(mem, Frame(e), k % 512, w), qt, lw + 1, j / 512),
                 Ent(mem, pt, lv, k), j % 512,
                 qt == pt && lw == lv && j / 512 == k / 512, qt == pt && lw + 1 == lv && j / 512 == k);
    }
  }

  /** What is in a frame that is no table page does not matter to any entry. */
  lemma {:induction false} EntData(mem: seq<Page>, owner: map<nat, Use>, f: nat, p: Page, qt: nat, lw: nat, j: nat)
    requires Tree(mem, owner) && f < HI && !IsTable(owner, f) && IsRoot(owner, qt) && lw <= 3 && Dom(lw, j)
    ensures Ent(mem[f := p], qt, lw, j) == Ent(mem, qt, lw, j)
    decreases 3 - lw
  {
    if lw < 3 {
      EntData(mem, owner, f, p, qt, lw + 1, j / 512);
      assert SlotOk(mem, owner, qt, lw + 1, j / 512);
    }
  }
}
