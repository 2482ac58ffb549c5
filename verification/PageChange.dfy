/** What whole operations on page tables change: which pages are mapped, to what, and who
    has which frame.  (mem, owner) is the state before and (mem', owner') the one after. */
module PageChange {
  import opened PageModel
  import opened PageProofs

  /** A table page below the root of pt. */
  predicate NewTable(u: Use, pt: nat) {
    u.Slot? && u.pt == pt && 1 <= u.lv <= 2
  }

  /** Frames keep their use and, table pages aside, their contents. */
  predicate Kept(mem: seq<Page>, owner: map<nat, Use>, mem': seq<Page>, owner': map<nat, Use>, g: nat)
    requires g in owner && |mem| == |mem'| == HI
  {
    g in owner' && owner'[g] == owner[g] && (!IsTable(owner, g) && g < HI ==> mem'[g] == mem[g])
  }

  // ----- mapping given frames

  /** Whether frame g is among the m user pages from vpn on, put into the frames from f on. */
  predicate Taken(vpn: nat, m: nat, f: nat, g: nat) {
    f <= g < f + m && vpn + (g - f) < USERTOP
  }

  predicate AddedFrame(mem: seq<Page>, owner: map<nat, Use>, mem': seq<Page>, owner': map<nat, Use>,
                       pt: nat, vpn: nat, m: nat, f: nat, g: nat)
    requires g in owner && |mem| == |mem'| == HI
  {
    && g in owner'
    && (if Taken(vpn, m, f, g) then owner[g] == Held && owner'[g] == Slot(pt, 0, vpn + (g - f))
        else owner'[g] == owner[g])
    && (!IsTable(owner, g) && g < HI ==> mem'[g] == mem[g])
  }

  /** m pages from vpn on became mapped to the frames from f on, table pages of pt were
      added, and nothing else changed. */
  ghost predicate Added(mem: seq<Page>, owner: map<nat, Use>, mem': seq<Page>, owner': map<nat, Use>,
                        pt: nat, vpn: nat, m: nat, f: nat, flags: nat) {
    && |mem| == |mem'| == HI
    && (forall g {:trigger AddedFrame(mem, owner, mem', owner', pt, vpn, m, f, g)} ::
              g in owner ==> AddedFrame(mem, owner, mem', owner', pt, vpn, m, f, g))
    && (forall g :: g in owner' && g !in owner ==> NewTable(owner'[g], pt))
    && (forall qt: nat, v: nat {:trigger Map(mem', qt, v)} :: IsRoot(owner, qt) && Dom(0, v) ==>
          Map(mem', qt, v) == if qt == pt && vpn <= v < vpn + m then Pte(f + (v - vpn), flags) else Map(mem, qt, v))
  }

  /** Table pages of pt were added, at most. */
  ghost predicate Grew(mem: seq<Page>, owner: map<nat, Use>, mem': seq<Page>, owner': map<nat, Use>, pt: nat) {
    && |mem| == |mem'| == HI
    && (forall g {:trigger Kept(mem, owner, mem', owner', g)} :: g in owner ==> Kept(mem, owner, mem', owner', g))
    && (forall g :: g in owner' && g !in owner ==> NewTable(owner'[g], pt))
    && (forall qt: nat, v: nat {:trigger Map(mem', qt, v)} :: IsRoot(owner, qt) && Dom(0, v) ==>
          Map(mem', qt, v) == Map(mem, qt, v))
  }

  lemma GrewNot(mem: seq<Page>, owner: map<nat, Use>, pt: nat)
    requires |mem| == HI
    ensures Grew(mem, owner, mem, owner, pt)
  {
  }

  lemma GrewTwice(mem: seq<Page>, owner: map<nat, Use>, mem1: seq<Page>, owner1: map<nat, Use>,
                  mem2: seq<Page>, owner2: map<nat, Use>, pt: nat)
    requires Grew(mem, owner, mem1, owner1, pt) && Grew(mem1, owner1, mem2, owner2, pt)
    ensures Grew(mem, owner, mem2, owner2, pt)
  {
    forall g | g in owner ensures Kept(mem, owner, mem2, owner2, g) {
      assert Kept(mem, owner, mem1, owner1, g) && Kept(mem1, owner1, mem2, owner2, g);
    }
    forall g | g in owner2 && g !in owner ensures NewTable(owner2[g], pt) {
      assert g in owner1 ==> Kept(mem1, owner1, mem2, owner2, g);
    }
    forall qt | IsRoot(owner, qt) ensures IsRoot(owner1, qt) {
      assert Kept(mem, owner, mem1, owner1, qt);
    }
  }

  lemma AddedNothing(mem: seq<Page>, owner: map<nat, Use>, mem': seq<Page>, owner': map<nat, Use>,
                     pt: nat, vpn: nat, f: nat, flags: nat)
    ensures Added(mem, owner, mem', owner', pt, vpn, 0, f, flags) <==> Grew(mem, owner, mem', owner', pt)
  {
    if Added(mem, owner, mem', owner', pt, vpn, 0, f, flags) {
      forall g | g in owner ensures Kept(mem, owner, mem', owner', g) {
        assert AddedFrame(mem, owner, mem', owner', pt, vpn, 0, f, g);
      }
    }
    if Grew(mem, owner, mem', owner', pt) {
      forall g | g in owner ensures AddedFrame(mem, owner, mem', owner', pt, vpn, 0, f, g) {
        assert Kept(mem, owner, mem', owner', g);
      }
    }
  }

  /** One more page. */
  lemma AddedNext(mem: seq<Page>, owner: map<nat, Use>, mem1: seq<Page>, owner1: map<nat, Use>,
                  mem2: seq<Page>, owner2: map<nat, Use>, pt: nat, vpn: nat, m: nat, n: nat, f: nat, flags: nat)
    requires Added(mem, owner, mem1, owner1, pt, vpn, m, f, flags)
    requires Added(mem1, owner1, mem2, owner2, pt, vpn + m, n, f + m, flags)
    ensures Added(mem, owner, mem2, owner2, pt, vpn, m + n, f, flags)
  {
    forall g | g in owner ensures AddedFrame(mem, owner, mem2, owner2, pt, vpn, m + n, f, g) {
      assert AddedFrame(mem, owner, mem1, owner1, pt, vpn, m, f, g);
      assert AddedFrame(mem1, owner1, mem2, owner2, pt, vpn + m, n, f + m, g);
    }
    forall g | g in owner2 && g !in owner ensures NewTable(owner2[g], pt) {
      assert g in owner1 ==> AddedFrame(mem1, owner1, mem2, owner2, pt, vpn + m, n, f + m, g);
    }
    forall qt: nat, v: nat | IsRoot(owner, qt) && Dom(0, v)
      ensures Map(mem2, qt, v) ==
        if qt == pt && vpn <= v < vpn + m + n then Pte(f + (v - vpn), flags) else Map(mem, qt, v)
    {
      assert AddedFrame(mem, owner, mem1, owner1, pt, vpn, m, f, qt);
      assert IsRoot(owner1, qt);
    }
  }

  // ----- unmapping

  /** Whether a frame is used for one of the m user pages from vpn on. */
  predicate Within(u: Use, pt: nat, vpn: nat, m: nat) {
    u.Slot? && u.pt == pt && u.lv == 0 && vpn <= u.k < vpn + m
  }

  predicate RemovedFrame(mem: seq<Page>, owner: map<nat, Use>, mem': seq<Page>, owner': map<nat, Use>,
                         pt: nat, vpn: nat, m: nat, free: bool, g: nat)
    requires g in owner && |mem| == |mem'| == HI
  {
    if !Within(owner[g], pt, vpn, m) then Kept(mem, owner, mem', owner', g)
    else if free then g !in owner'
    else g in owner' && owner'[g] == Held && (g < HI ==> mem'[g] == mem[g])
  }

  /** m pages from vpn on are no longer mapped; the user frames among them were freed, or
      went to other hands; nothing else changed. */
  ghost predicate Removed(mem: seq<Page>, owner: map<nat, Use>, mem': seq<Page>, owner': map<nat, Use>,
                          pt: nat, vpn: nat, m: nat, free: bool) {
    && |mem| == |mem'| == HI
    && (forall g {:trigger RemovedFrame(mem, owner, mem', owner', pt, vpn, m, free, g)} ::
              g in owner ==> RemovedFrame(mem, owner, mem', owner', pt, vpn, m, free, g))
    && (forall g :: g in owner' ==> g in owner)
    && (forall qt: nat, v: nat {:trigger Map(mem', qt, v)} :: IsRoot(owner, qt) && Dom(0, v) ==>
          Map(mem', qt, v) == if qt == pt && vpn <= v < vpn + m then 0 else Map(mem, qt, v))
  }

  lemma RemovedNot(mem: seq<Page>, owner: map<nat, Use>, pt: nat, vpn: nat, free: bool)
    requires |mem| == HI
    ensures Removed(mem, owner, mem, owner, pt, vpn, 0, free)
  {
  }

  lemma RemovedNext(mem: seq<Page>, owner: map<nat, Use>, mem1: seq<Page>, owner1: map<nat, Use>,
                    mem2: seq<Page>, owner2: map<nat, Use>, pt: nat, vpn: nat, m: nat, n: nat, free: bool)
    requires Removed(mem, owner, mem1, owner1, pt, vpn, m, free)
    requires Removed(mem1, owner1, mem2, owner2, pt, vpn + m, n, free)
    ensures Removed(mem, owner, mem2, owner2, pt, vpn, m + n, free)
  {
    forall g | g in owner ensures RemovedFrame(mem, owner, mem2, owner2, pt, vpn, m + n, free, g) {
      assert RemovedFrame(mem, owner, mem1, owner1, pt, vpn, m, free, g);
      assert g in owner1 ==> RemovedFrame(mem1, owner1, mem2, owner2, pt, vpn + m, n, free, g);
    }
    forall qt: nat, v: nat | IsRoot(owner, qt) && Dom(0, v)
      ensures Map(mem2, qt, v) == if qt == pt && vpn <= v < vpn + m + n then 0 else Map(mem, qt, v)
    {
      assert RemovedFrame(mem, owner, mem1, owner1, pt, vpn, m, free, qt);
      assert IsRoot(owner1, qt);
    }
  }

  // ----- mapping new frames

  /** What a page is to be filled with. */
  datatype Want = No | New(flags: nat, page: Page)

  /** e maps a page of its own that holds what was wanted. */
  predicate Fills(mem': seq<Page>, owner: map<nat, Use>, e: nat, w: Want)
    requires |mem'| == HI && w.New?
  {
    V(e) && Flags(e) == w.flags && Frame(e) !in owner && Frame(e) < HI && mem'[Frame(e)] == w.page
  }

  predicate FilledPage(mem: seq<Page>, owner: map<nat, Use>, mem': seq<Page>, owner': map<nat, Use>,
                       pt: nat, p0: nat, want: seq<Want>, qt: nat, v: nat)
    requires |mem| == |mem'| == HI
  {
    if qt == pt && p0 <= v < p0 + |want| && want[v - p0].New? then
      && Fills(mem', owner, Map(mem', qt, v), want[v - p0])
      && Frame(Map(mem', qt, v)) in owner' && owner'[Frame(Map(mem', qt, v))] == Slot(pt, 0, v)
    else Map(mem', qt, v) == Map(mem, qt, v)
  }

  /** The wanted pages from p0 on were mapped to frames that were free, table pages of pt
      were added, and nothing else changed. */
  ghost predicate Filled(mem: seq<Page>, owner: map<nat, Use>, mem': seq<Page>, owner': map<nat, Use>,
                         pt: nat, p0: nat, want: seq<Want>) {
    && |mem| == |mem'| == HI
    && (forall g {:trigger Kept(mem, owner, mem', owner', g)} :: g in owner ==> Kept(mem, owner, mem', owner', g))
    && (forall g :: g in owner' && g !in owner ==> NewTable(owner'[g], pt) || Within(owner'[g], pt, p0, |want|))
    && (forall qt: nat, v: nat {:trigger FilledPage(mem, owner, mem', owner', pt, p0, want, qt, v)} ::
          IsRoot(owner, qt) && Dom(0, v) ==> FilledPage(mem, owner, mem', owner', pt, p0, want, qt, v))
  }

  lemma FilledNot(mem: seq<Page>, owner: map<nat, Use>, pt: nat, p0: nat)
    requires |mem| == HI
    ensures Filled(mem, owner, mem, owner, pt, p0, [])
  {
  }

  lemma FilledNext(mem: seq<Page>, owner: map<nat, Use>, mem1: seq<Page>, owner1: map<nat, Use>,
                   mem2: seq<Page>, owner2: map<nat, Use>, pt: nat, p0: nat, want: seq<Want>, w: seq<Want>)
    requires Filled(mem, owner, mem1, owner1, pt, p0, want) && Filled(mem1, owner1, mem2, owner2, pt, p0 + |want|, w)
    ensures Filled(mem, owner, mem2, owner2, pt, p0, want + w)
  {
    forall g | g in owner ensures Kept(mem, owner, mem2, owner2, g) {
      assert Kept(mem, owner, mem1, owner1, g) && Kept(mem1, owner1, mem2, owner2, g);
    }
    forall g | g in owner2 && g !in owner
      ensures NewTable(owner2[g], pt) || Within(owner2[g], pt, p0, |want + w|)
    {
      assert g in owner1 ==> Kept(mem1, owner1, mem2, owner2, g);
    }
    forall qt: nat, v: nat | IsRoot(owner, qt) && Dom(0, v)
      ensures FilledPage(mem, owner, mem2, owner2, pt, p0, want + w, qt, v)
    {
      assert Kept(mem, owner, mem1, owner1, qt);
      FilledPageNext(mem, owner, mem1, owner1, mem2, owner2, pt, p0, want, w, qt, v);
    }
  }

  lemma FilledPageNext(mem: seq<Page>, owner: map<nat, Use>, mem1: seq<Page>, owner1: map<nat, Use>,
                       mem2: seq<Page>, owner2: map<nat, Use>, pt: nat, p0: nat, want: seq<Want>, w: seq<Want>, qt: nat,
                       v: nat)
    requires |mem| == |mem1| == |mem2| == HI
    requires FilledPage(mem, owner, mem1, owner1, pt, p0, want, qt, v)
    requires FilledPage(mem1, owner1, mem2, owner2, pt, p0 + |want|, w, qt, v)
    requires forall g :: g in owner ==> Kept(mem, owner, mem1, owner1, g)
    requires forall g :: g in owner1 ==> Kept(mem1, owner1, mem2, owner2, g)
    ensures FilledPage(mem, owner, mem2, owner2, pt, p0, want + w, qt, v)
  {
    if qt == pt && p0 <= v < p0 + |want| && want[v - p0].New? {
      var f := Frame(Map(mem1, qt, v));
      assert Kept(mem1, owner1, mem2, owner2, f);
    } else if qt == pt && p0 + |want| <= v < p0 + |want| + |w| && w[v - p0 - |want|].New? {
      var f := Frame(Map(mem2, qt, v));
      assert f in owner ==> Kept(mem, owner, mem1, owner1, f);
    }
  }

  /** Table pages that were added do not count against what was filled. */
  lemma FilledGrew(mem: seq<Page>, owner: map<nat, Use>, mem': seq<Page>, owner': map<nat, Use>, pt: nat, p0: nat)
    requires Grew(mem, owner, mem', owner', pt)
    ensures Filled(mem, owner, mem', owner', pt, p0, [])
  {
  }

  /** Nothing is mapped at the m pages from p0 on, so no frame is used for them. */
  ghost predicate Vacant(mem: seq<Page>, owner: map<nat, Use>, pt: nat, p0: nat, m: nat) {
    && (forall v {:trigger Map(mem, pt, v)} :: p0 <= v < p0 + m ==> Map(mem, pt, v) == 0)
    && (forall g :: g in owner ==> !Within(owner[g], pt, p0, m))
  }

  lemma UnmappedVacant(mem: seq<Page>, owner: map<nat, Use>, pt: nat, p0: nat, m: nat)
    requires Tree(mem, owner) && forall v :: p0 <= v < p0 + m ==> Map(mem, pt, v) == 0
    ensures Vacant(mem, owner, pt, p0, m)
  {
    forall g | g in owner ensures !Within(owner[g], pt, p0, m) {
      assert FrameOk(mem, owner, g);
      assert Within(owner[g], pt, p0, m) ==> Map(mem, pt, owner[g].k) == 0;
    }
  }

  lemma VacantLess(mem: seq<Page>, owner: map<nat, Use>, pt: nat, p0: nat, m: nat, n: nat)
    requires Vacant(mem, owner, pt, p0, m) && n <= m
    ensures Vacant(mem, owner, pt, p0, n)
  {
  }

  /** Unmapping and freeing what was filled leaves added table pages at most. */
  lemma FilledUndone(mem: seq<Page>, owner: map<nat, Use>, mem1: seq<Page>, owner1: map<nat, Use>,
                     mem2: seq<Page>, owner2: map<nat, Use>, pt: nat, p0: nat, want: seq<Want>)
    requires Filled(mem, owner, mem1, owner1, pt, p0, want)
    requires Removed(mem1, owner1, mem2, owner2, pt, p0, |want|, true)
    requires Vacant(mem, owner, pt, p0, |want|)
    ensures Grew(mem, owner, mem2, owner2, pt)
  {
    forall g | g in owner ensures Kept(mem, owner, mem2, owner2, g) {
      assert Kept(mem, owner, mem1, owner1, g);
      assert RemovedFrame(mem1, owner1, mem2, owner2, pt, p0, |want|, true, g);
    }
    forall g | g in owner2 && g !in owner ensures NewTable(owner2[g], pt) {
      assert RemovedFrame(mem1, owner1, mem2, owner2, pt, p0, |want|, true, g);
    }
    forall qt: nat, v: nat | IsRoot(owner, qt) && Dom(0, v) ensures Map(mem2, qt, v) == Map(mem, qt, v) {
      assert Kept(mem, owner, mem1, owner1, qt);
      assert IsRoot(owner1, qt) && FilledPage(mem, owner, mem1, owner1, pt, p0, want, qt, v);
    }
  }

  // ----- from entries to pages

  /** A table page was put in: the tables grew. */
  lemma GrewByTable(mem: seq<Page>, owner: map<nat, Use>, mem1: seq<Page>, mem2: seq<Page>, owner2: map<nat, Use>,
                    pt: nat, lv: nat, k: nat, n: nat, t: nat)
    requires |mem| == |mem1| == |mem2| == HI && 1 <= lv <= 2 && n < HI && t < HI
    requires n !in owner && IsTable(owner, t) && owner2 == owner[n := Slot(pt, lv, k)]
    requires mem1 == mem[n := mem1[n]] && mem2 == mem1[t := mem2[t]]
    requires SameEnts(mem, mem1, owner) && OneEnt(mem1, mem2, owner[n := Held], pt, lv, k, Pte(n, PTE_V))
    ensures Grew(mem, owner, mem2, owner2, pt)
  {
    forall g | g in owner ensures Kept(mem, owner, mem2, owner2, g) {
    }
    forall qt: nat, v: nat | IsRoot(owner, qt) && Dom(0, v) ensures Map(mem2, qt, v) == Map(mem, qt, v) {
      assert IsRoot(owner[n := Held], qt) && Ent(mem1, qt, 0, v) == Ent(mem, qt, 0, v);
    }
  }

  /** A leaf entry was put in, after the tables grew. */
  lemma AddedOne(mem: seq<Page>, owner: map<nat, Use>, mem1: seq<Page>, owner1: map<nat, Use>,
                 mem2: seq<Page>, owner2: map<nat, Use>, pt: nat, vpn: nat, f: nat, flags: nat, t: nat)
    requires Grew(mem, owner, mem1, owner1, pt) && |mem2| == HI && t < HI && Dom(0, vpn) && IsRoot(owner, pt)
    requires IsTable(owner1, t) && mem2 == mem1[t := mem2[t]] && OneEnt(mem1, mem2, owner1, pt, 0, vpn, Pte(f, flags))
    requires if vpn < USERTOP then f in owner && owner[f] == Held && owner2 == owner1[f := Slot(pt, 0, vpn)]
             else owner2 == owner1
    ensures Added(mem, owner, mem2, owner2, pt, vpn, 1, f, flags)
  {
    forall g | g in owner ensures AddedFrame(mem, owner, mem2, owner2, pt, vpn, 1, f, g) {
      assert Kept(mem, owner, mem1, owner1, g);
    }
    forall qt: nat, v: nat | IsRoot(owner, qt) && Dom(0, v)
      ensures Map(mem2, qt, v) == if qt == pt && vpn <= v < vpn + 1 then Pte(f + (v - vpn), flags) else Map(mem, qt, v)
    {
      assert Kept(mem, owner, mem1, owner1, qt);
      assert IsRoot(owner1, qt) && Map(mem1, qt, v) == Map(mem, qt, v);
    }
  }

  /** A page that is not mapped has no frame to lose. */
  lemma RemovedNone(mem: seq<Page>, owner: map<nat, Use>, pt: nat, vpn: nat, free: bool)
    requires Tree(mem, owner) && Map(mem, pt, vpn) == 0
    ensures Removed(mem, owner, mem, owner, pt, vpn, 1, free)
  {
    forall g | g in owner ensures RemovedFrame(mem, owner, mem, owner, pt, vpn, 1, free, g) {
      assert FrameOk(mem, owner, g);
    }
  }

  /** A leaf entry was cleared; before that the page's frame got other contents if it was
      to be freed. */
  lemma RemovedOne(mem: seq<Page>, owner: map<nat, Use>, mem1: seq<Page>, mem2: seq<Page>, owner2: map<nat, Use>,
                   pt: nat, vpn: nat, free: bool, t: nat)
    requires Tree(mem, owner) && IsRoot(owner, pt) && Dom(0, vpn) && V(Map(mem, pt, vpn)) && (free ==> vpn < USERTOP)
    requires |mem1| == |mem2| == HI && SameEnts(mem, mem1, owner) && OneEnt(mem1, mem2, owner, pt, 0, vpn, 0)
    requires t < HI && IsTable(owner, t) && mem2 == mem1[t := mem2[t]]
    requires var f := Frame(Map(mem, pt, vpn));
      if vpn >= USERTOP then owner2 == owner && mem1 == mem
      else f in owner && f < HI && owner[f] == Slot(pt, 0, vpn)
           && if free then owner2 == owner - {f} && mem1 == mem[f := mem1[f]]
              else owner2 == owner[f := Held] && mem1 == mem
    ensures Removed(mem, owner, mem2, owner2, pt, vpn, 1, free)
  {
    forall g | g in owner ensures RemovedFrame(mem, owner, mem2, owner2, pt, vpn, 1, free, g) {
      assert FrameOk(mem, owner, g);
    }
    forall qt: nat, v: nat | IsRoot(owner, qt) && Dom(0, v)
      ensures Map(mem2, qt, v) == if qt == pt && vpn <= v < vpn + 1 then 0 else Map(mem, qt, v)
    {
      assert Ent(mem1, qt, 0, v) == Ent(mem, qt, 0, v);
    }
  }
}
