/** Linking a block into the free list and taking one out keep the heap in order. */
module HeapProofs {
  import opened HeapModel

  /** Half way through free: bp knows its successor and is apart from it, and the link of
      the block before it is still open. */
  ghost predicate Joined(mem: map<nat, Header>, blk: map<nat, nat>, cover: map<nat, nat>, fl: seq<nat>, live: set<nat>,
                         base: nat, bp: nat, j: nat) {
    && Tiled(blk, cover) && Headed(mem, blk, base) && Sorted(blk, fl, live, base)
    && Ascending(blk, fl) && Circular(mem, fl, j)
    && bp in live && Place(fl, bp, j) && bp in mem && mem[bp].ptr == fl[Next(fl, j)]
    && (j + 1 < |fl| ==> bp + SizeOf(blk, bp) < fl[j + 1])
  }

  /** A list entry's link stays when other headers are written. */
  lemma CircularKeeps(mem: map<nat, Header>, mem': map<nat, Header>, fl: seq<nat>, skip: nat)
    requires Circular(mem, fl, |fl|)
    requires forall a :: a in fl ==> a in mem && a in mem' && mem'[a].ptr == mem[a].ptr
    ensures Circular(mem', fl, skip)
  {
    forall i | 0 <= i < |fl| && i != skip ensures LinkOk(mem', fl, i) {
      assert LinkOk(mem, fl, i) && fl[i] in fl;
    }
  }

  lemma LiveApart(mem: map<nat, Header>, blk: map<nat, nat>, cover: map<nat, nat>, fl: seq<nat>, live: set<nat>,
                  base: nat,
                  bp: nat, j: nat)
    requires Heap(mem, blk, cover, fl, live, base) && bp in live && Place(fl, bp, j)
    ensures fl[j] + SizeOf(blk, fl[j]) <= bp
    ensures j + 1 < |fl| ==> bp + SizeOf(blk, bp) <= fl[j + 1] && fl[j + 1] in blk
  {
    if j > 0 {
      BlocksApart(blk, cover, fl[j], bp);
    }
    if j + 1 < |fl| {
      BlocksApart(blk, cover, bp, fl[j + 1]);
    }
  }

  /** The successor is not contiguous. */
  lemma JoinPlain(mem: map<nat, Header>, blk: map<nat, nat>, cover: map<nat, nat>, fl: seq<nat>, live: set<nat>,
                  base: nat,
                  bp: nat, j: nat)
    requires Heap(mem, blk, cover, fl, live, base) && bp in live && Place(fl, bp, j) && fl[j] in mem && bp in mem
    requires bp + mem[bp].size != mem[fl[j]].ptr
    ensures Joined(mem[bp := mem[bp].(ptr := mem[fl[j]].ptr)], blk, cover, fl, live, base, bp, j)
  {
    LiveApart(mem, blk, cover, fl, live, base, bp, j);
    assert LinkOk(mem, fl, j);
    var mem' := mem[bp := mem[bp].(ptr := mem[fl[j]].ptr)];
    forall a | a in fl ensures a in mem && a in mem' && mem'[a].ptr == mem[a].ptr {
      ListMember(mem, blk, fl, live, base, a);
    }
    CircularKeeps(mem, mem', fl, j);
  }

  lemma ListMember(mem: map<nat, Header>, blk: map<nat, nat>, fl: seq<nat>, live: set<nat>, base: nat, a: nat)
    requires Headed(mem, blk, base) && Sorted(blk, fl, live, base) && a in fl
    ensures a in mem && a !in live && (a == base || a in blk)
  {
    var i :| 0 <= i < |fl| && fl[i] == a;
    assert i == 0 || fl[i] in blk;
  }

  /** A list without entry k. */
  function Without(fl: seq<nat>, k: nat): seq<nat>
    requires k < |fl|
  {
    fl[..k] + fl[k + 1..]
  }

  /** Where entry i of the shorter list comes from. */
  function From(k: nat, i: nat): nat {
    if i < k then i else i + 1
  }

  /** Entry k goes, and the link before it is either open or already leads past it. */
  lemma WithoutKeeps(mem: map<nat, Header>, blk: map<nat, nat>, mem': map<nat, Header>, blk': map<nat, nat>,
                     fl: seq<nat>, k: nat, skip: nat)
    requires Ascending(blk, fl) && Circular(mem, fl, |fl|) && 1 <= k < |fl|
    requires forall i :: 0 <= i < |fl| && i != k ==> SizeOf(blk', fl[i]) <= SizeOf(blk, fl[i])
    requires forall i :: 0 <= i < |fl| && i != k && i != k - 1 ==>
      fl[i] in mem && fl[i] in mem' && mem'[fl[i]].ptr == mem[fl[i]].ptr
    requires skip == k - 1 || (fl[k - 1] in mem' && fl[k] in mem && mem'[fl[k - 1]].ptr == mem[fl[k]].ptr)
    ensures Ascending(blk', Without(fl, k)) && Circular(mem', Without(fl, k), skip)
  {
    var w := Without(fl, k);
    forall i, j | 0 <= i < j < |w| ensures Before(blk', w, i, j) {
      assert Before(blk, fl, From(k, i), From(k, j));
    }
    forall i | 0 <= i < |w| && i != skip ensures LinkOk(mem', w, i) {
      assert LinkOk(mem, fl, From(k, i)) && LinkOk(mem, fl, k);
      assert w[Next(w, i)] == if i == k - 1 then fl[Next(fl, k)] else fl[Next(fl, From(k, i))];
    }
  }

  /** The successor is contiguous and becomes part of bp. */
  lemma JoinMerged(mem: map<nat, Header>, blk: map<nat, nat>, cover: map<nat, nat>, fl: seq<nat>, live: set<nat>,
                   base: nat,
                   bp: nat, j: nat)
    requires Heap(mem, blk, cover, fl, live, base) && bp in live && Place(fl, bp, j) && fl[j] in mem && bp in mem
    requires bp + mem[bp].size == mem[fl[j]].ptr
    ensures j + 1 < |fl| && mem[fl[j]].ptr == fl[j + 1] && fl[j + 1] in mem && fl[j + 1] in blk && bp in blk
    ensures var n := fl[j + 1];
      Joined(mem[bp := Header(mem[n].ptr, mem[bp].size + mem[n].size)], Merged(blk, bp, n), MergedCover(cover, bp, n),
             Without(fl, j + 1), live, base, bp, j)
  {
    LiveApart(mem, blk, cover, fl, live, base, bp, j);
    assert LinkOk(mem, fl, j);
    var n := fl[j + 1];
    var mem' := mem[bp := Header(mem[n].ptr, mem[bp].size + mem[n].size)];
    var blk', w := Merged(blk, bp, n), Without(fl, j + 1);
    MergeKeeps(blk, cover, bp, n);
    forall a | a in fl ensures a in mem && a !in live {
      ListMember(mem, blk, fl, live, base, a);
    }
    WithoutKeeps(mem, blk, mem', blk', fl, j + 1, j);
    assert LinkOk(mem, fl, j + 1) && w[Next(w, j)] == fl[Next(fl, j + 1)];
    MergedSorted(blk, fl, live, base, j + 1, bp);
    assert j + 2 < |fl| ==> Before(blk, fl, j + 1, j + 2);
    MergedHeaded(mem, blk, base, bp, n, mem[n].ptr);
  }

  lemma MergedHeaded(mem: map<nat, Header>, blk: map<nat, nat>, base: nat, a: nat, b: nat, ptr: nat)
    requires Headed(mem, blk, base) && a in blk && b in blk
    ensures Headed(mem[a := Header(ptr, mem[a].size + mem[b].size)], Merged(blk, a, b), base)
  {
  }

  lemma MergedSorted(blk: map<nat, nat>, fl: seq<nat>, live: set<nat>, base: nat, k: nat, bp: nat)
    requires Sorted(blk, fl, live, base) && Ascending(blk, fl) && 1 <= k < |fl| && bp in live
    ensures Sorted(Merged(blk, bp, fl[k]), Without(fl, k), live, base)
  {
    WithoutSorted(blk, fl, live, base, k);
  }

  lemma WithoutSorted(blk: map<nat, nat>, fl: seq<nat>, live: set<nat>, base: nat, k: nat)
    requires Sorted(blk, fl, live, base) && Ascending(blk, fl) && 1 <= k < |fl|
    ensures var w := Without(fl, k);
      && w != [] && w[0] == base && (forall i :: 1 <= i < |w| ==> w[i] in blk && w[i] != fl[k])
      && (forall a :: a in w <==> a in fl && a != fl[k])
  {
    var w := Without(fl, k);
    forall i | 0 <= i < |fl| && i != k ensures fl[i] != fl[k] {
      assert if i < k then Before(blk, fl, i, k) else Before(blk, fl, k, i);
    }
    forall a | a in fl && a != fl[k] ensures a in w {
      var i :| 0 <= i < |fl| && fl[i] == a;
      assert w[if i < k then i else i - 1] == a;
    }
  }

  // ----- the link before bp

  /** A list with x after entry k. */
  function With(fl: seq<nat>, k: nat, x: nat): seq<nat>
    requires k < |fl|
  {
    fl[..k + 1] + [x] + fl[k + 1..]
  }

  lemma WithAscends(blk: map<nat, nat>, fl: seq<nat>, k: nat, x: nat)
    requires Ascending(blk, fl) && k < |fl| && fl[k] + SizeOf(blk, fl[k]) < x
    requires (k + 1 < |fl| ==> x + SizeOf(blk, x) < fl[k + 1])
    ensures Ascending(blk, With(fl, k, x))
  {
    var w := With(fl, k, x);
    forall i, j | 0 <= i < j < |w| ensures Before(blk, w, i, j) {
      if i != k + 1 && j != k + 1 {
        assert Before(blk, fl, if i <= k then i else i - 1, if j <= k then j else j - 1);
      } else if j == k + 1 {
        assert i < k ==> Before(blk, fl, i, k);
      } else {
        assert k + 1 < j - 1 ==> Before(blk, fl, k + 1, j - 1);
      }
    }
  }

  lemma WithCircular(mem: map<nat, Header>, mem': map<nat, Header>, fl: seq<nat>, k: nat, x: nat)
    requires Circular(mem, fl, k) && k < |fl| && x !in fl && x in mem && mem[x].ptr == fl[Next(fl, k)]
    requires forall i, j :: 0 <= i < j < |fl| ==> fl[i] != fl[j]
    requires fl[k] in mem && mem' == mem[fl[k] := mem[fl[k]].(ptr := x)]
    ensures Circular(mem', With(fl, k, x), |fl| + 1)
  {
    var w := With(fl, k, x);
    forall i | 0 <= i < |w| ensures LinkOk(mem', w, i) {
      if i < k || i > k + 1 {
        var i0 := if i < k then i else i - 1;
        assert LinkOk(mem, fl, i0) && w[i] == fl[i0] && w[Next(w, i)] == fl[Next(fl, i0)];
      } else if i == k + 1 {
        assert w[Next(w, i)] == fl[Next(fl, k)];
      }
    }
  }

  /** The list has no entry twice. */
  lemma NoRepeats(blk: map<nat, nat>, fl: seq<nat>)
    requires Ascending(blk, fl)
    ensures forall i, j :: 0 <= i < j < |fl| ==> fl[i] != fl[j]
  {
    forall i, j | 0 <= i < j < |fl| ensures fl[i] != fl[j] {
      assert Before(blk, fl, i, j);
    }
  }

  lemma WithSorted(blk: map<nat, nat>, fl: seq<nat>, live: set<nat>, base: nat, k: nat, x: nat)
    requires Sorted(blk, fl, live, base) && k < |fl| && x in live
    ensures Sorted(blk, With(fl, k, x), live - {x}, base)
  {
    var w := With(fl, k, x);
    assert forall a :: a in w <==> a in fl || a == x;
  }

  /** bp is not contiguous with the block before it and goes on the list. */
  lemma LinkPlain(mem: map<nat, Header>, blk: map<nat, nat>, cover: map<nat, nat>, fl: seq<nat>, live: set<nat>,
                  base: nat,
                  bp: nat, j: nat)
    requires Joined(mem, blk, cover, fl, live, base, bp, j) && fl[j] in mem && fl[j] + mem[fl[j]].size != bp
    ensures Heap(mem[fl[j] := mem[fl[j]].(ptr := bp)], blk, cover, With(fl, j, bp), live - {bp}, base)
  {
    var p := fl[j];
    ListMember(mem, blk, fl, live, base, p);
    if p in blk {
      BlocksApart(blk, cover, p, bp);
    }
    NoRepeats(blk, fl);
    WithAscends(blk, fl, j, bp);
    WithCircular(mem, mem[p := mem[p].(ptr := bp)], fl, j, bp);
    WithSorted(blk, fl, live, base, j, bp);
  }

  /** bp is contiguous with the block before it and becomes part of it. */
  lemma LinkMerged(mem: map<nat, Header>, blk: map<nat, nat>, cover: map<nat, nat>, fl: seq<nat>, live: set<nat>,
                   base: nat,
                   bp: nat, j: nat)
    requires Joined(mem, blk, cover, fl, live, base, bp, j) && fl[j] in mem && fl[j] + mem[fl[j]].size == bp
    ensures fl[j] in blk && bp in blk
    ensures var p := fl[j];
      Heap(mem[p := Header(mem[bp].ptr, mem[p].size + mem[bp].size)], Merged(blk, p, bp), MergedCover(cover, p, bp),
           fl, live - {bp}, base)
  {
    var p := fl[j];
    ListMember(mem, blk, fl, live, base, p);
    MergeKeeps(blk, cover, p, bp);
    NoRepeats(blk, fl);
    var mem', blk' := mem[p := Header(mem[bp].ptr, mem[p].size + mem[bp].size)], Merged(blk, p, bp);
    forall i | 0 <= i < |fl| ensures LinkOk(mem', fl, i) {
      assert i != j ==> LinkOk(mem, fl, i);
    }
    forall i, k | 0 <= i < k < |fl| ensures Before(blk', fl, i, k) {
      assert Before(blk, fl, i, k);
      if i == j && j + 1 < k {
        assert Before(blk, fl, j + 1, k);
      }
    }
    forall i | 1 <= i < |fl| ensures fl[i] in blk' {
      assert fl[i] in fl;
    }
  }

  // ----- malloc

  /** A block that fits exactly is unlinked. */
  lemma TakeWhole(mem: map<nat, Header>, blk: map<nat, nat>, cover: map<nat, nat>, fl: seq<nat>, live: set<nat>,
                  base: nat, k: nat)
    requires Heap(mem, blk, cover, fl, live, base) && 1 <= k < |fl| && fl[k - 1] in mem && fl[k] in mem
    ensures fl[k] in blk
    ensures Heap(mem[fl[k - 1] := mem[fl[k - 1]].(ptr := mem[fl[k]].ptr)], blk, cover, Without(fl, k),
                 live + {fl[k]}, base)
  {
    var p, q := fl[k], fl[k - 1];
    var mem' := mem[q := mem[q].(ptr := mem[p].ptr)];
    NoRepeats(blk, fl);
    forall i | 0 <= i < |fl| ensures fl[i] in mem {
      assert LinkOk(mem, fl, i);
    }
    WithoutKeeps(mem, blk, mem', blk, fl, k, |fl| - 1);
    WithoutSorted(blk, fl, live, base, k);
  }

  /** The tail of a larger block is cut off. */
  lemma TakeTail(mem: map<nat, Header>, blk: map<nat, nat>, cover: map<nat, nat>, fl: seq<nat>, live: set<nat>,
                 base: nat,
                 k: nat, p: nat, rest: nat, t: nat, n: nat, h: Header)
    requires Heap(mem, blk, cover, fl, live, base) && 1 <= k < |fl| && p == fl[k] && p in mem
    requires 0 < n < mem[p].size && h.size == n && rest == mem[p].size - n && t == p + rest
    ensures p in blk && blk[p] == mem[p].size && t !in blk && t !in fl
    ensures Heap(mem[p := mem[p].(size := rest)][t := h], Cut(blk, p, n), CutCover(cover, p, t), fl, live + {t}, base)
    ensures Spares(mem, blk, cover, live,
                   mem[p := mem[p].(size := rest)][t := h], Cut(blk, p, n), CutCover(cover, p, t), 0)
  {
    CutKeeps(blk, cover, p, n);
    var mem', blk' := mem[p := mem[p].(size := rest)][t := h], Cut(blk, p, n);
    forall i | 0 <= i < |fl| ensures fl[i] != t && fl[i] in mem {
      assert LinkOk(mem, fl, i);
      assert i > 0 ==> fl[i] in blk;
    }
    forall i | 0 <= i < |fl| ensures LinkOk(mem', fl, i) {
      assert LinkOk(mem, fl, i);
    }
    forall i, j | 0 <= i < j < |fl| ensures Before(blk', fl, i, j) {
      assert Before(blk, fl, i, j);
    }
    assert p in fl && Covers(blk, cover, p, p) && Covers(blk, cover, p, t);
    FreeAside(mem, blk, cover, fl, live, base, p, 0);
    SparesCut(mem, blk, cover, live, p, mem[p].(size := rest), n, t, h, 0);
  }

  // ----- conservation

  ghost function Pick(blk: map<nat, nat>): (a: nat)
    requires blk != map[]
    ensures a in blk
  {
    assert blk.Keys == {} ==> blk == map[];
    var a :| a in blk.Keys;
    a
  }

  /** The sizes of all blocks together. */
  ghost function Total(blk: map<nat, nat>): nat
    decreases |blk|
  {
    if blk == map[] then 0 else
      var a := Pick(blk);
      assert (blk - {a}).Keys == blk.Keys - {a};
      blk[a] + Total(blk - {a})
  }

  lemma {:induction false} RegionSize(r: nat, n: nat)
    ensures |Region(r, n)| == n
  {
    if n > 0 {
      RegionSize(r, n - 1);
    }
  }

  /** Without one of the blocks, the others still divide the units that it does not hold. */
  lemma WithoutBlock(blk: map<nat, nat>, cover: map<nat, nat>, a: nat)
    requires Tiled(blk, cover) && a in blk
    ensures Tiled(blk - {a}, cover - Region(a, blk[a]).Keys)
    ensures Region(a, blk[a]).Keys <= cover.Keys
  {
    var mine := Region(a, blk[a]);
    var blk', cover' := blk - {a}, cover - mine.Keys;
    forall u | u in cover' ensures UnitOk(blk', cover', u) {
      assert UnitOk(blk, cover, u);
    }
    forall c, u | c in blk' ensures Covers(blk', cover', c, u) {
      assert Covers(blk, cover, c, u) && Covers(blk, cover, a, u);
    }
    forall u | u in mine ensures u in cover {
      assert Covers(blk, cover, a, u);
    }
  }

  lemma PartSize(all: set<nat>, part: set<nat>)
    requires part <= all
    ensures |all - part| + |part| == |all|
  {
    assert all == (all - part) + part;
  }

  /** Blocks taken together have as many units as were obtained from the system. */
  lemma {:induction false} UnitsConserved(blk: map<nat, nat>, cover: map<nat, nat>)
    requires Tiled(blk, cover)
    ensures Total(blk) == |cover|
    decreases |blk|
  {
    if blk == map[] {
      forall u ensures u !in cover {
        assert u in cover ==> UnitOk(blk, cover, u);
      }
      assert cover == map[];
    } else {
      var a := Pick(blk);
      var mine := Region(a, blk[a]);
      WithoutBlock(blk, cover, a);
      assert (blk - {a}).Keys == blk.Keys - {a};
      UnitsConserved(blk - {a}, cover - mine.Keys);
      RegionSize(a, blk[a]);
      PartSize(cover.Keys, mine.Keys);
      assert (cover - mine.Keys).Keys == cover.Keys - mine.Keys;
    }
  }

  // ----- no call writes into another live block

  /** Unit u is written by nobody, and is part of the same block, of the same size. */
  predicate SparedUnit(mem: map<nat, Header>, blk: map<nat, nat>, cover: map<nat, nat>,
                       mem': map<nat, Header>, blk': map<nat, nat>, cover': map<nat, nat>, u: nat)
    requires u in cover
  {
    && u in cover' && cover'[u] == cover[u]
    && (u in mem' <==> u in mem) && (u in mem ==> mem'[u] == mem[u])
    && (u in blk' <==> u in blk) && (u in blk ==> blk'[u] == blk[u])
  }

  /** That goes for all units of live blocks, but for those of block `except`. */
  ghost predicate Spares(mem: map<nat, Header>, blk: map<nat, nat>, cover: map<nat, nat>, live: set<nat>,
                         mem': map<nat, Header>, blk': map<nat, nat>, cover': map<nat, nat>, except: nat) {
    forall u {:trigger SparedUnit(mem, blk, cover, mem', blk', cover', u)} ::
      u in cover && cover[u] in live && cover[u] != except ==> SparedUnit(mem, blk, cover, mem', blk', cover', u)
  }

  lemma SparesNothing(mem: map<nat, Header>, blk: map<nat, nat>, cover: map<nat, nat>, live: set<nat>, except: nat)
    ensures Spares(mem, blk, cover, live, mem, blk, cover, except)
  {
  }

  lemma SparesTwice(mem0: map<nat, Header>, blk0: map<nat, nat>, cover0: map<nat, nat>, live0: set<nat>,
                    mem1: map<nat, Header>, blk1: map<nat, nat>, cover1: map<nat, nat>, live1: set<nat>,
                    mem2: map<nat, Header>, blk2: map<nat, nat>, cover2: map<nat, nat>, e1: nat, e2: nat, e: nat)
    requires Spares(mem0, blk0, cover0, live0, mem1, blk1, cover1, e1)
    requires Spares(mem1, blk1, cover1, live1, mem2, blk2, cover2, e2)
    requires forall b :: b in live0 && b != e ==> b in live1 && b != e1 && b != e2
    ensures Spares(mem0, blk0, cover0, live0, mem2, blk2, cover2, e)
  {
    forall u | u in cover0 && cover0[u] in live0 && cover0[u] != e
      ensures SparedUnit(mem0, blk0, cover0, mem2, blk2, cover2, u)
    {
      assert SparedUnit(mem0, blk0, cover0, mem1, blk1, cover1, u);
      assert SparedUnit(mem1, blk1, cover1, mem2, blk2, cover2, u);
    }
  }

  /** Unit x is part of no live block, or of block `except`. */
  predicate Aside(cover: map<nat, nat>, live: set<nat>, x: nat, except: nat) {
    x in cover ==> cover[x] !in live || cover[x] == except
  }

  /** Headers on the free list are part of no live block. */
  lemma FreeAside(mem: map<nat, Header>, blk: map<nat, nat>, cover: map<nat, nat>, fl: seq<nat>, live: set<nat>,
                  base: nat,
                  x: nat, except: nat)
    requires Tiled(blk, cover) && Headed(mem, blk, base) && Sorted(blk, fl, live, base) && x in fl
    ensures Aside(cover, live, x, except) && x !in live
  {
    ListMember(mem, blk, fl, live, base, x);
    if x in cover {
      assert UnitOk(blk, cover, x);
      assert x in blk ==> Covers(blk, cover, x, x);
    }
  }

  lemma SparesWrite(mem: map<nat, Header>, blk: map<nat, nat>, cover: map<nat, nat>, live: set<nat>,
                    x: nat, h: Header, except: nat)
    requires Aside(cover, live, x, except)
    ensures Spares(mem, blk, cover, live, mem[x := h], blk, cover, except)
  {
  }

  lemma SparesMerge(mem: map<nat, Header>, blk: map<nat, nat>, cover: map<nat, nat>, live: set<nat>,
                    a: nat, h: Header, b: nat, except: nat)
    requires a in blk && b in blk && Aside(cover, live, a, except) && Aside(cover, live, b, except)
    requires b !in live || b == except
    ensures Spares(mem, blk, cover, live, mem[a := h], Merged(blk, a, b), MergedCover(cover, a, b), except)
  {
  }

  lemma SparesCut(mem: map<nat, Header>, blk: map<nat, nat>, cover: map<nat, nat>, live: set<nat>,
                  p: nat, h: Header, n: nat, t: nat, g: Header, except: nat)
    requires p in blk && n < blk[p] && t == p + blk[p] - n && p !in live
    requires Aside(cover, live, p, except) && Aside(cover, live, t, except)
    ensures Spares(mem, blk, cover, live, mem[p := h][t := g], Cut(blk, p, n), CutCover(cover, p, t), except)
  {
  }

  lemma SparesGrant(mem: map<nat, Header>, blk: map<nat, nat>, cover: map<nat, nat>, live: set<nat>,
                    hp: nat, h: Header, n: nat, except: nat)
    requires 0 < n && forall u :: hp <= u < hp + n ==> u !in cover
    ensures Spares(mem, blk, cover, live, mem[hp := h], blk[hp := n], cover + Region(hp, n), except)
  {
  }
}
