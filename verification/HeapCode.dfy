/** malloc and free of user/umalloc.c. */
module HeapCode {
  import opened HeapModel
  import opened HeapProofs

  const HEADER: nat := 16        // sizeof(Header)
  const INT_MAX: nat := 0x7FFF_FFFF

  /** Units that a request takes, its header included. */
  function Units(nbytes: nat): nat {
    (nbytes + HEADER - 1) / HEADER + 1
  }

  /** They hold the request behind the header. */
  lemma UnitsEnough(nbytes: nat)
    ensures Units(nbytes) > 0 && nbytes <= (Units(nbytes) - 1) * HEADER < nbytes + HEADER
  {
  }

  /** What morecore asks the system for. */
  function Chunk(nunits: nat): nat {
    if nunits < 4096 then 4096 else nunits
  }

  /** Steps along a circular list of n entries from i to j. */
  function Steps(i: nat, j: nat, n: nat): nat
    requires i < n && j < n
  {
    if i <= j then j - i else n - i + j
  }

  class Umalloc {
    const base: nat             // where the static header is; the heap lies above it
    var mem: map<nat, Header>
    var freep: nat
    ghost var fl: seq<nat>      // the free list, base first
    ghost var blk: map<nat, nat>
    ghost var cover: map<nat, nat>
    ghost var live: set<nat>

    ghost predicate Started()
      reads this
    {
      Heap(mem, blk, cover, fl, live, base) && freep in fl
    }

    ghost predicate Valid()
      reads this
    {
      0 < base && if freep == 0 then blk == map[] && cover == map[] && live == {} else Started()
    }

    constructor (base: nat)
      requires 0 < base
      ensures Valid() && this.base == base && live == {} && cover == map[]
    {
      this.base := base;
      mem, freep, fl, blk, cover, live := map[], 0, [], map[], map[], {};
    }

    /** Live blocks but for `except` keep their size, and none of their units is written. */
    twostate predicate LiveKept(except: nat)
      reads this
    {
      Spares(old(mem), old(blk), old(cover), old(live), mem, blk, cover, except)
    }

    /** Some free block has n units. */
    ghost predicate Available(n: nat)
      reads this
    {
      exists k :: 0 <= k < |fl| && SizeOf(blk, fl[k]) >= n
    }

    /** free's scan for the free block after which bp belongs. */
    method FindPlace(bp: nat) returns (p: nat, ghost j: nat)
      requires Started() && bp in live
      ensures Place(fl, bp, j) && p == fl[j]
    {
      assert fl[0] == base;
      j := PlaceFrom(blk, fl, bp, 0);
      p := freep;
      ghost var i: nat :| i < |fl| && fl[i] == p;
      PlaceTest(mem, blk, fl, bp, j, i);
      while !(bp > p && bp < mem[p].ptr)
        invariant i < |fl| && p == fl[i] && p in mem && (p < bp < mem[p].ptr ==> i == j)
        decreases Steps(i, j, |fl|)
      {
        PlaceTest(mem, blk, fl, bp, j, i);
        if p >= mem[p].ptr && (bp > p || bp < mem[p].ptr) {
          break;
        }
        assert LinkOk(mem, fl, i);
        p := mem[p].ptr;
        i := Next(fl, i);
        PlaceTest(mem, blk, fl, bp, j, i);
      }
      PlaceTest(mem, blk, fl, bp, j, i);
    }

    /** bp takes in the free block right behind it, or notes it as its successor. */
    method Join(bp: nat, p: nat, ghost j: nat)
      requires Started() && bp in live && Place(fl, bp, j) && p == fl[j] && p in mem && bp in mem
      modifies `mem, `blk, `cover, `fl
      ensures Joined(mem, blk, cover, fl, live, base, bp, j) && fl[j] == p && p in mem && mem[p] == old(mem)[p]
      ensures cover.Keys == old(cover).Keys && SizeOf(blk, bp) >= SizeOf(old(blk), bp) && LiveKept(bp)
    {
      assert Covers(blk, cover, bp, bp);
      if bp + mem[bp].size == mem[p].ptr {
        JoinMerged(mem, blk, cover, fl, live, base, bp, j);
        var n := mem[p].ptr;
        mem := mem[bp := mem[bp].(size := mem[bp].size + mem[n].size)];
        mem := mem[bp := mem[bp].(ptr := mem[n].ptr)];
        blk, cover, fl := Merged(blk, bp, n), MergedCover(cover, bp, n), Without(fl, j + 1);
        assert mem == old(mem)[bp := Header(old(mem)[n].ptr, old(mem)[bp].size + old(mem)[n].size)];
        assert n in old(fl);
        FreeAside(old(mem), old(blk), old(cover), old(fl), live, base, n, bp);
        SparesMerge(old(mem), old(blk), old(cover), live, bp, mem[bp], n, bp);
      } else {
        JoinPlain(mem, blk, cover, fl, live, base, bp, j);
        SparesWrite(mem, blk, cover, live, bp, mem[bp].(ptr := mem[p].ptr), bp);
        mem := mem[bp := mem[bp].(ptr := mem[p].ptr)];
      }
    }

    /** The block before bp takes it in, or links to it. */
    method Link(bp: nat, p: nat, ghost j: nat) returns (ghost b: nat)
      requires Joined(mem, blk, cover, fl, live, base, bp, j) && fl[j] == p && p in mem
      modifies `mem, `blk, `cover, `fl, `live
      ensures Heap(mem, blk, cover, fl, live, base) && p in fl && live == old(live) - {bp}
      ensures b in fl && SizeOf(blk, b) >= SizeOf(old(blk), bp)
      ensures cover.Keys == old(cover).Keys && LiveKept(bp)
    {
      assert p in fl;
      FreeAside(mem, blk, cover, fl, live, base, p, bp);
      assert Covers(blk, cover, bp, bp);
      if p + mem[p].size == bp {
        LinkMerged(mem, blk, cover, fl, live, base, bp, j);
        mem := mem[p := mem[p].(size := mem[p].size + mem[bp].size)];
        mem := mem[p := mem[p].(ptr := mem[bp].ptr)];
        blk, cover, live := Merged(blk, p, bp), MergedCover(cover, p, bp), live - {bp};
        assert mem == old(mem)[p := Header(old(mem)[bp].ptr, old(mem)[p].size + old(mem)[bp].size)];
        SparesMerge(old(mem), old(blk), old(cover), old(live), p, mem[p], bp, bp);
        b := p;
      } else {
        LinkPlain(mem, blk, cover, fl, live, base, bp, j);
        SparesWrite(mem, blk, cover, live, p, mem[p].(ptr := bp), bp);
        mem := mem[p := mem[p].(ptr := bp)];
        fl, live := With(fl, j, bp), live - {bp};
        assert fl[j] == p && fl[j + 1] == bp;
        b := bp;
      }
    }

    /** Gives back the block whose user part starts at ap.  b is a free block that now
        holds it. */
    method Free(ap: nat) returns (ghost b: nat)
      requires Started() && 0 < ap && ap - 1 in live
      modifies `mem, `freep, `blk, `cover, `fl, `live
      ensures Started() && live == old(live) - {ap - 1} && cover.Keys == old(cover).Keys && LiveKept(ap - 1)
      ensures b in fl && SizeOf(blk, b) >= SizeOf(old(blk), ap - 1)
    {
      var bp := ap - 1;
      var p;
      ghost var j;
      p, j := FindPlace(bp);
      ListMember(mem, blk, fl, live, base, p);
      Join(bp, p, j);
      ghost var mem1, blk1, cover1, live1 := mem, blk, cover, live;
      b := Link(bp, p, j);
      SparesTwice(old(mem), old(blk), old(cover), old(live), mem1, blk1, cover1, live1, mem, blk, cover, bp, bp, bp);
      freep := p;
    }

    /** A new chunk from the system, put on the free list; grant is what sbrk returns, 0
        for an error. */
    method Morecore(nu: nat, grant: nat) returns (r: nat, ghost b: nat)
      requires Started() && 0 < nu
      requires grant != 0 ==> base < grant && forall u :: grant <= u < grant + Chunk(nu) ==> u !in cover
      modifies `mem, `freep, `blk, `cover, `fl, `live
      ensures Started() && live == old(live) && LiveKept(0)
      ensures grant == 0 ==> r == 0 && mem == old(mem) && freep == old(freep) && cover == old(cover)
      ensures grant != 0 ==> r == freep != 0 && b in fl && SizeOf(blk, b) >= nu
      ensures grant != 0 ==> cover.Keys == old(cover).Keys + Region(grant, Chunk(nu)).Keys
    {
      if grant == 0 {
        SparesNothing(mem, blk, cover, live, 0);
        return 0, 0;
      }
      var n := Chunk(nu);
      AddChunk(grant, n);
      ghost var mem1, blk1, cover1, live1 := mem, blk, cover, live;
      b := Free(grant + 1);
      SparesTwice(old(mem), old(blk), old(cover), old(live), mem1, blk1, cover1, live1, mem, blk, cover, 0, grant, 0);
      r := freep;
      ListMember(mem, blk, fl, live, base, freep);
    }

    /** The chunk's header; until it is freed the chunk counts as live. */
    method AddChunk(hp: nat, n: nat)
      requires Started() && base < hp && 0 < n && forall u :: hp <= u < hp + n ==> u !in cover
      modifies `mem, `blk, `cover, `live
      ensures Started() && live == old(live) + {hp} && hp !in old(live)
      ensures cover.Keys == old(cover).Keys + Region(hp, n).Keys
      ensures hp in blk && blk[hp] == n && LiveKept(0) && fl == old(fl) && freep == old(freep)
    {
      GrantKeeps(blk, cover, hp, n);
      forall i | 0 <= i < |fl| ensures fl[i] in mem && fl[i] != hp {
        assert LinkOk(mem, fl, i) && fl[i] in fl;
        ListMember(mem, blk, fl, live, base, fl[i]);
      }
      GrantHeap(mem, blk, cover, fl, live, base, hp, n, Header(if hp in mem then mem[hp].ptr else 0, n));
      SparesGrant(mem, blk, cover, live, hp, Header(if hp in mem then mem[hp].ptr else 0, n), n, 0);
      mem := mem[hp := Header(if hp in mem then mem[hp].ptr else 0, n)];
      blk, cover, live := blk[hp := n], cover + Region(hp, n), live + {hp};
    }

    /** Takes n units out of free block p, the k-th: all of it, or its tail. */
    method Take(prevp: nat, p: nat, n: nat, ghost k: nat) returns (a: nat)
      requires Started() && 1 <= k < |fl| && p == fl[k] && prevp == fl[k - 1] && 0 < n
      requires p in mem && prevp in mem && mem[p].size >= n
      modifies `mem, `freep, `blk, `cover, `fl, `live
      ensures Started() && live == old(live) + {a} && a !in old(live) && a in blk && blk[a] == n
      ensures cover.Keys == old(cover).Keys && LiveKept(0)
    {
      if mem[p].size == n {
        Unlink(prevp, p, k);
        a := p;
      } else {
        a := CutTail(p, n, k);
      }
      freep := prevp;
    }

    method Unlink(prevp: nat, p: nat, ghost k: nat)
      requires Started() && 1 <= k < |fl| && p == fl[k] && prevp == fl[k - 1] && p in mem && prevp in mem
      modifies `mem, `fl, `live
      ensures Heap(mem, blk, cover, fl, live, base) && prevp in fl && live == old(live) + {p} && p !in old(live)
      ensures p in blk && blk[p] == old(mem)[p].size && LiveKept(0)
    {
      assert p in fl && prevp in fl;
      TakeWhole(mem, blk, cover, fl, live, base, k);
      FreeAside(mem, blk, cover, fl, live, base, prevp, 0);
      SparesWrite(mem, blk, cover, live, prevp, mem[prevp].(ptr := mem[p].ptr), 0);
      mem := mem[prevp := mem[prevp].(ptr := mem[p].ptr)];
      fl := Without(fl, k);
      live := live + {p};
      assert fl[k - 1] == prevp;
    }

    method CutTail(p: nat, n: nat, ghost k: nat) returns (a: nat)
      requires Started() && 1 <= k < |fl| && p == fl[k] && p in mem && 0 < n < mem[p].size
      modifies `mem, `blk, `cover, `live
      ensures Heap(mem, blk, cover, fl, live, base) && live == old(live) + {a} && a !in old(live) && a in blk
      ensures blk[a] == n
      ensures cover.Keys == old(cover).Keys && LiveKept(0)
    {
      var rest := mem[p].size - n;
      a := p + rest;
      var h := Header(if a in mem then mem[a].ptr else 0, n);
      TakeTail(mem, blk, cover, fl, live, base, k, p, rest, a, n, h);
      assert p in fl;
      mem := mem[p := mem[p].(size := rest)];
      mem := mem[a := h];
      cover := CutCover(cover, p, a);
      blk := Cut(blk, p, n);
      live := live + {a};
    }

    /** malloc's first call makes base the whole free list. */
    method Start()
      requires Valid()
      modifies `mem, `freep, `fl
      ensures Started() && LiveKept(0) && (old(freep) != 0 ==> mem == old(mem) && freep == old(freep) && fl == old(fl))
    {
      SparesNothing(mem, blk, cover, live, 0);
      if freep == 0 {
        mem := mem[base := Header(base, 0)];
        freep := base;
        fl := [base];
        assert LinkOk(mem, fl, 0);
      }
    }

    /** An allocated block of at least nbytes bytes after its header, or 0 when the system has
        no memory (grant is what sbrk returns if it is called; 0 for an error). */
    method Malloc(nbytes: nat, grant: nat) returns (r: nat)
      requires Valid() && Units(nbytes) * HEADER <= INT_MAX
      requires grant != 0 ==> base < grant && forall u :: grant <= u < grant + Chunk(Units(nbytes)) ==> u !in cover
      modifies `mem, `freep, `blk, `cover, `fl, `live
      ensures Valid() && LiveKept(0)
      ensures r == 0 ==> live == old(live)
      ensures var found := old(freep) != 0 && old(Available(Units(nbytes)));
        && (r == 0 <==> !found && grant == 0)
        && cover.Keys == old(cover).Keys + if found || grant == 0 then {} else Region(grant, Chunk(Units(nbytes))).Keys
      ensures r != 0 ==>
        && r > 1 && r - 1 !in old(live) && live == old(live) + {r - 1}
        && r - 1 in blk && blk[r - 1] == Units(nbytes) && nbytes <= (blk[r - 1] - 1) * 16 < nbytes + 16
    {
      UnitsEnough(nbytes);
      Start();
      ghost var mem1, blk1, cover1, live1 := mem, blk, cover, live;
      r := Scan(Units(nbytes), grant);
      SparesTwice(old(mem), old(blk), old(cover), old(live), mem1, blk1, cover1, live1, mem, blk, cover, 0, 0, 0);
    }

    /** malloc's scan for a block of n units. */
    method Scan(nunits: nat, grant: nat) returns (r: nat)
      requires Started() && 0 < nunits
      requires grant != 0 ==> base < grant && forall u :: grant <= u < grant + Chunk(nunits) ==> u !in cover
      modifies `mem, `freep, `blk, `cover, `fl, `live
      ensures Started() && LiveKept(0)
      ensures r == 0 ==> live == old(live)
      ensures r == 0 <==> !old(Available(nunits)) && grant == 0
      ensures old(Available(nunits)) || grant == 0 ==> cover.Keys == old(cover).Keys
      ensures !old(Available(nunits)) && grant != 0 ==>
        cover.Keys == old(cover).Keys + Region(grant, Chunk(nunits)).Keys
      ensures r != 0 ==>
        r > 1 && r - 1 !in old(live) && live == old(live) + {r - 1} && r - 1 in blk && blk[r - 1] == nunits
    {
      var prevp := freep;
      ghost var more := false;      // morecore has been called
      ghost var fits := Available(nunits);
      ghost var g: nat :| g < |fl| && fl[g] == freep;
      ghost var i: nat, b: nat := g, g;  // where prevp is; a block that is large enough
      if fits {
        b :| 0 <= b < |fl| && SizeOf(blk, fl[b]) >= nunits;
      }
      ghost var grown := cover.Keys + Region(grant, Chunk(nunits)).Keys;
      SparesNothing(mem, blk, cover, live, 0);
      var p := Follow(prevp, i);
      while true
        invariant Started() && live == old(live) && LiveKept(0) && Scanning(prevp, p, i, g)
        invariant if more then grant != 0 && cover.Keys == grown else cover == old(cover)
        invariant (fits ==> !more) && (more || fits ==> Ahead(i, g, b, nunits))
        invariant !more ==> fl == old(fl) && blk == old(blk)
        decreases if more then 0 else 1, Steps(Next(fl, i), g, |fl|)
      {
        var size := Look(p, i, g, b, nunits, more || fits);
        if size >= nunits {
          var a := Grab(prevp, p, nunits, i, old(mem), old(blk), old(cover), old(live));
          return a + 1;
        }
        if p == freep {
          prevp, g, b := Refill(nunits, grant, old(mem), old(blk), old(cover), old(live));
          if prevp == 0 {
            return 0;
          }
          more, i := true, g;
        } else {
          prevp, i := p, Next(fl, i);
        }
        p := Follow(prevp, i);
      }
    }

    /** The successor of entry i. */
    method Follow(p: nat, ghost i: nat) returns (next: nat)
      requires Started() && i < |fl| && p == fl[i]
      ensures next == fl[Next(fl, i)]
    {
      assert LinkOk(mem, fl, i);
      next := mem[p].ptr;
    }

    /** Takes n units out of the block after entry i; (mem0, blk0, cover0, live0) is the
        state when malloc was called. */
    method Grab(prevp: nat, p: nat, n: nat, ghost i: nat, ghost mem0: map<nat, Header>, ghost blk0: map<nat, nat>,
                ghost cover0: map<nat, nat>, ghost live0: set<nat>) returns (a: nat)
      requires Started() && i < |fl| && prevp == fl[i] && p == fl[Next(fl, i)] && 0 < n <= SizeOf(blk, p)
      requires live0 <= live && Spares(mem0, blk0, cover0, live0, mem, blk, cover, 0)
      modifies `mem, `freep, `blk, `cover, `fl, `live
      ensures Started() && live == old(live) + {a} && a !in old(live) && a > 0 && a in blk && blk[a] == n
      ensures cover.Keys == old(cover).Keys && Spares(mem0, blk0, cover0, live0, mem, blk, cover, 0)
    {
      assert LinkOk(mem, fl, i) && LinkOk(mem, fl, Next(fl, i)) && fl[Next(fl, i)] in fl;
      ListMember(mem, blk, fl, live, base, p);
      a := Take(prevp, p, n, Next(fl, i));
      SparesTwice(mem0, blk0, cover0, live0, old(mem), old(blk), old(cover), old(live), mem, blk, cover, 0, 0, 0);
    }

    /** malloc's cursor: prevp is entry i of the list, p the next one, freep entry g. */
    ghost predicate Scanning(prevp: nat, p: nat, i: nat, g: nat)
      reads this
    {
      g < |fl| && fl[g] == freep && i < |fl| && fl[i] == prevp && p == fl[Next(fl, i)]
    }

    /** Entry b is large enough, and the cursor comes to it before it comes to freep. */
    ghost predicate Ahead(i: nat, g: nat, b: nat, n: nat)
      requires i < |fl| && g < |fl|
      reads this
    {
      b < |fl| && SizeOf(blk, fl[b]) >= n && Steps(Next(fl, i), b, |fl|) <= Steps(Next(fl, i), g, |fl|)
    }

    /** The size of the block under the cursor, and what it means for the scan. */
    method Look(p: nat, ghost i: nat, ghost g: nat, ghost b: nat, ghost n: nat, ghost more: bool) returns (size: nat)
      requires Started() && i < |fl| && g < |fl| && p == fl[Next(fl, i)] && fl[g] == freep
      requires (more ==> Ahead(i, g, b, n))
      ensures p in mem && fl[i] in mem && size == mem[p].size == SizeOf(blk, p) && (size > 0 ==> Next(fl, i) == i + 1)
      ensures p == freep <==> Next(fl, i) == g
      ensures more && p == freep ==> size >= n
      ensures more && size < n ==> Ahead(Next(fl, i), g, b, n)
      ensures Next(fl, i) != g ==> Steps(Next(fl, Next(fl, i)), g, |fl|) < Steps(Next(fl, i), g, |fl|)
    {
      assert LinkOk(mem, fl, i) && LinkOk(mem, fl, Next(fl, i)) && fl[Next(fl, i)] in fl;
      ListMember(mem, blk, fl, live, base, p);
      NoRepeats(blk, fl);
      size := mem[p].size;
    }

    /** morecore from malloc's loop: the scan starts again and will find the new block. */
    method Refill(nunits: nat, grant: nat, ghost mem0: map<nat, Header>, ghost blk0: map<nat, nat>,
                  ghost cover0: map<nat, nat>, ghost live0: set<nat>) returns (p: nat, ghost g: nat, ghost b: nat)
      requires Started() && 0 < nunits && live0 <= live && Spares(mem0, blk0, cover0, live0, mem, blk, cover, 0)
      requires grant != 0 ==> base < grant && forall u :: grant <= u < grant + Chunk(nunits) ==> u !in cover
      modifies `mem, `freep, `blk, `cover, `fl, `live
      ensures Started() && live == old(live) && Spares(mem0, blk0, cover0, live0, mem, blk, cover, 0)
      ensures grant == 0 ==> p == 0 && cover == old(cover)
      ensures grant != 0 ==> p == freep != 0 && cover.Keys == old(cover).Keys + Region(grant, Chunk(nunits)).Keys
      ensures grant != 0 ==> g < |fl| && fl[g] == freep && Ahead(g, g, b, nunits)
    {
      ghost var c;
      p, c := Morecore(nunits, grant);
      SparesTwice(mem0, blk0, cover0, live0, old(mem), old(blk), old(cover), old(live), mem, blk, cover, 0, 0, 0);
      g, b := 0, 0;
      if p != 0 {
        g :| 0 <= g < |fl| && fl[g] == freep;
        b :| 0 <= b < |fl| && fl[b] == c;
      }
    }
  }

  lemma GrantHeap(mem: map<nat, Header>, blk: map<nat, nat>, cover: map<nat, nat>, fl: seq<nat>, live: set<nat>,
                  base: nat,
                  hp: nat, n: nat, h: Header)
    requires Heap(mem, blk, cover, fl, live, base) && base < hp && 0 < n && hp !in blk && h.size == n
    requires Tiled(blk[hp := n], cover + Region(hp, n)) && forall i :: 0 <= i < |fl| ==> fl[i] in mem && fl[i] != hp
    ensures Heap(mem[hp := h], blk[hp := n], cover + Region(hp, n), fl, live + {hp}, base)
  {
    var mem', blk' := mem[hp := h], blk[hp := n];
    forall i | 0 <= i < |fl| ensures LinkOk(mem', fl, i) {
      assert LinkOk(mem, fl, i);
    }
    forall i, j | 0 <= i < j < |fl| ensures Before(blk', fl, i, j) {
      assert Before(blk, fl, i, j);
    }
  }
}
