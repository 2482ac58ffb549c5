/** How the elementary changes of memory and of frame use act on page tables. */
module PageProofs {
  import opened PageModel

  /** mem' differs from mem, as far as walks can see, in one entry at most. */
  ghost predicate OneEnt(mem: seq<Page>, mem': seq<Page>, owner: map<nat, Use>, pt: nat, lv: nat, k: nat, w: nat) {
    forall qt, lw, j {:trigger Ent(mem', qt, lw, j)} :: IsRoot(owner, qt) && 0 <= lw <= 3 && Dom(lw, j) ==>
      Ent(mem', qt, lw, j) == if qt == pt && lw == lv && j == k then w else Ent(mem, qt, lw, j)
  }

  /** Walks see no difference. */
  ghost predicate SameEnts(mem: seq<Page>, mem': seq<Page>, owner: map<nat, Use>) {
    forall qt, lw, j {:trigger Ent(mem', qt, lw, j)} :: IsRoot(owner, qt) && 0 <= lw <= 3 && Dom(lw, j) ==>
      Ent(mem', qt, lw, j) == Ent(mem, qt, lw, j)
  }

  lemma DataKeeps(mem: seq<Page>, owner: map<nat, Use>, f: nat, p: Page)
    requires Tree(mem, owner) && f < HI && !IsTable(owner, f)
    ensures Tree(mem[f := p], owner) && SameEnts(mem, mem[f := p], owner)
  {
    forall qt, lw, j | IsRoot(owner, qt) && 0 <= lw <= 3 && Dom(lw, j)
      ensures Ent(mem[f := p], qt, lw, j) == Ent(mem, qt, lw, j)
    {
      EntData(mem, owner, f, p, qt, lw, j);
    }
    SameKeeps(mem, mem[f := p], owner);
  }

  lemma SameKeeps(mem: seq<Page>, mem': seq<Page>, owner: map<nat, Use>)
    requires Tree(mem, owner) && SameEnts(mem, mem', owner) && |mem'| == HI
    ensures Tree(mem', owner)
  {
    forall f | f in owner ensures FrameOk(mem', owner, f) {
      assert FrameOk(mem, owner, f);
    }
    forall pt, lv, k | IsRoot(owner, pt) && 0 <= lv <= 3 && Dom(lv, k) ensures SlotOk(mem', owner, pt, lv, k) {
      assert SlotOk(mem, owner, pt, lv, k);
    }
  }

  /** Frames may come into other hands, and leave them. */
  lemma HoldKeeps(mem: seq<Page>, owner: map<nat, Use>, f: nat)
    requires Tree(mem, owner) && 0 < f < HI && f !in owner
    ensures Tree(mem, owner[f := Held])
  {
    var owner' := owner[f := Held];
    forall g | g in owner ensures FrameOk(mem, owner', g) {
      assert FrameOk(mem, owner, g);
    }
    forall pt, lv, k | IsRoot(owner', pt) && 0 <= lv <= 3 && Dom(lv, k) ensures SlotOk(mem, owner', pt, lv, k) {
      assert SlotOk(mem, owner, pt, lv, k);
    }
  }

  lemma DropKeeps(mem: seq<Page>, owner: map<nat, Use>, f: nat)
    requires Tree(mem, owner) && f in owner && owner[f] == Held
    ensures Tree(mem, owner - {f})
  {
    var owner' := owner - {f};
    forall g | g in owner' ensures FrameOk(mem, owner', g) {
      assert FrameOk(mem, owner, g);
    }
    forall pt, lv, k | IsRoot(owner', pt) && 0 <= lv <= 3 && Dom(lv, k) ensures SlotOk(mem, owner', pt, lv, k) {
      assert SlotOk(mem, owner, pt, lv, k);
    }
  }

  /** An entry of a table that is there can be written. */
  lemma EntryTable(mem: seq<Page>, owner: map<nat, Use>, pt: nat, lv: nat, k: nat)
    requires Tree(mem, owner) && IsRoot(owner, pt) && lv <= 2 && Dom(lv, k) && V(Ent(mem, pt, lv + 1, k / 512))
    ensures Dom(lv + 1, k / 512)
    ensures var t := Frame(Ent(mem, pt, lv + 1, k / 512));
      t < HI && t in owner && owner[t] == Slot(pt, lv + 1, k / 512) && Ent(mem, pt, lv, k) == Norm(mem[t][k % 512])
  {
    assert SlotOk(mem, owner, pt, lv + 1, k / 512);
  }

  lemma WriteOne(mem: seq<Page>, owner: map<nat, Use>, pt: nat, lv: nat, k: nat, t: nat, w: Word)
    requires Tree(mem, owner) && IsRoot(owner, pt) && lv <= 2 && Dom(lv, k) && V(Ent(mem, pt, lv + 1, k / 512))
    requires t == Frame(Ent(mem, pt, lv + 1, k / 512)) && t < HI
    requires lv > 0 ==> Bare(mem, Ent(mem, pt, lv, k)) && Bare(SetWord(mem, t, k % 512, w), w)
    ensures OneEnt(mem, SetWord(mem, t, k % 512, w), owner, pt, lv, k, Norm(w))
  {
    forall qt, lw, j | IsRoot(owner, qt) && 0 <= lw <= 3 && Dom(lw, j)
      ensures Ent(SetWord(mem, t, k % 512, w), qt, lw, j) ==
        if qt == pt && lw == lv && j == k then Norm(w) else Ent(mem, qt, lw, j)
    {
      EntWrite(mem, owner, pt, lv, k, w, qt, lw, j);
    }
  }

  /** A new valid entry that takes a frame from other hands. */
  lemma EntryAdded(mem: seq<Page>, mem': seq<Page>, owner: map<nat, Use>, pt: nat, lv: nat, k: nat, n: nat, w: nat)
    requires Tree(mem, owner) && IsRoot(owner, pt) && lv <= 2 && Dom(lv, k) && (lv == 0 ==> k < USERTOP)
    requires |mem'| == HI && OneEnt(mem, mem', owner, pt, lv, k, w) && Ent(mem, pt, lv, k) == 0
    requires n in owner && owner[n] == Held && V(w) && Frame(w) == n && (lv > 0 ==> Flags(w) == PTE_V)
    ensures Tree(mem', owner[n := Slot(pt, lv, k)])
  {
    var owner' := owner[n := Slot(pt, lv, k)];
    assert Ent(mem', pt, lv, k) == w;
    forall f | f in owner' ensures FrameOk(mem', owner', f) {
      if f != n {
        assert FrameOk(mem, owner, f);
      }
    }
    forall qt, lw, j | IsRoot(owner', qt) && 0 <= lw <= 3 && Dom(lw, j) ensures SlotOk(mem', owner', qt, lw, j) {
      assert SlotOk(mem, owner, qt, lw, j);
    }
  }

  /** A page that is no longer mapped leaves its frame in other hands. */
  lemma EntryCleared(mem: seq<Page>, mem': seq<Page>, owner: map<nat, Use>, pt: nat, k: nat)
    requires Tree(mem, owner) && IsRoot(owner, pt) && k < USERTOP && V(Map(mem, pt, k))
    requires |mem'| == HI && OneEnt(mem, mem', owner, pt, 0, k, 0)
    ensures var f := Frame(Map(mem, pt, k)); f in owner && owner[f] == Slot(pt, 0, k) && Tree(mem', owner[f := Held])
  {
    var f := Frame(Map(mem, pt, k));
    assert SlotOk(mem, owner, pt, 0, k);
    var owner' := owner[f := Held];
    forall g | g in owner' ensures FrameOk(mem', owner', g) {
      if g != f {
        assert FrameOk(mem, owner, g);
      }
    }
    forall qt, lw, j | IsRoot(owner', qt) && 0 <= lw <= 3 && Dom(lw, j) ensures SlotOk(mem', owner', qt, lw, j) {
      assert SlotOk(mem, owner, qt, lw, j);
    }
  }

  /** Pages above user memory are mapped and unmapped without owning their frame. */
  lemma HighEntry(mem: seq<Page>, mem': seq<Page>, owner: map<nat, Use>, pt: nat, k: nat, w: nat)
    requires Tree(mem, owner) && IsRoot(owner, pt) && USERTOP <= k && Dom(0, k)
    requires |mem'| == HI && OneEnt(mem, mem', owner, pt, 0, k, w)
    ensures Tree(mem', owner)
  {
    forall f | f in owner ensures FrameOk(mem', owner, f) {
      assert FrameOk(mem, owner, f);
    }
    forall qt, lw, j | IsRoot(owner, qt) && 0 <= lw <= 3 && Dom(lw, j) ensures SlotOk(mem', owner, qt, lw, j) {
      assert SlotOk(mem, owner, qt, lw, j);
    }
  }

  /** Nothing is mapped below a root whose page is bare. */
  lemma {:induction false} BareRoot(mem: seq<Page>, pt: nat, lv: nat, k: nat)
    requires pt < |mem| && (forall i :: 0 <= i < 512 ==> !V(mem[pt][i])) && lv < 3 && Dom(lv, k)
    ensures Ent(mem, pt, lv, k) == 0
    decreases 3 - lv
  {
    if lv < 2 {
      BareRoot(mem, pt, lv + 1, k / 512);
    }
  }

  lemma BareRootSlot(mem: seq<Page>, owner: map<nat, Use>, n: nat, lv: nat, k: nat)
    requires IsRoot(owner, n) && n < |mem| && (forall i :: 0 <= i < 512 ==> !V(mem[n][i])) && lv <= 3 && Dom(lv, k)
    ensures SlotOk(mem, owner, n, lv, k)
  {
    if lv < 3 {
      BareRoot(mem, n, lv, k);
    }
  }

  /** A page of zeroes can become the root of a new, empty table. */
  lemma RootAdded(mem: seq<Page>, owner: map<nat, Use>, n: nat)
    requires Tree(mem, owner) && n in owner && owner[n] == Held && forall i :: 0 <= i < 512 ==> !V(mem[n][i])
    ensures Tree(mem, owner[n := Slot(n, 3, 0)])
  {
    var owner' := owner[n := Slot(n, 3, 0)];
    forall f | f in owner' ensures FrameOk(mem, owner', f) {
      assert f != n ==> FrameOk(mem, owner, f);
    }
    forall qt, lw, j | IsRoot(owner', qt) && 0 <= lw <= 3 && Dom(lw, j) ensures SlotOk(mem, owner', qt, lw, j) {
      if qt == n {
        BareRootSlot(mem, owner', n, lw, j);
      } else {
        assert SlotOk(mem, owner, qt, lw, j);
      }
    }
  }
}
