/** Blocks of the user-level heap (user/umalloc.c).  Addresses count headers. */
module HeapModel {
  /** A block's header: next block on the free list, and the block's size, header included. */
  datatype Header = Header(ptr: nat, size: nat)

  // ----- blocks: start to size; cover: every unit of memory to the block it belongs to

  predicate UnitOk(blk: map<nat, nat>, cover: map<nat, nat>, u: nat)
    requires u in cover
  {
    cover[u] in blk && cover[u] <= u < cover[u] + blk[cover[u]]
  }

  predicate Covers(blk: map<nat, nat>, cover: map<nat, nat>, a: nat, u: nat)
    requires a in blk
  {
    a <= u < a + blk[a] ==> u in cover && cover[u] == a
  }

  /** The blocks divide the units obtained from the system: no unit is in two blocks, none
      is in no block. */
  ghost predicate Tiled(blk: map<nat, nat>, cover: map<nat, nat>) {
    && (forall a :: a in blk ==> 0 < a && 0 < blk[a])
    && (forall u {:trigger UnitOk(blk, cover, u)} :: u in cover ==> UnitOk(blk, cover, u))
    && (forall a, u {:trigger Covers(blk, cover, a, u)} :: a in blk ==> Covers(blk, cover, a, u))
  }

  /** Blocks do not overlap. */
  lemma BlocksApart(blk: map<nat, nat>, cover: map<nat, nat>, a: nat, b: nat)
    requires Tiled(blk, cover) && a in blk && b in blk && a < b
    ensures a + blk[a] <= b
  {
    assert Covers(blk, cover, a, b) && Covers(blk, cover, b, b);
  }

  function Merged(blk: map<nat, nat>, a: nat, b: nat): map<nat, nat>
    requires a in blk && b in blk
  {
    (blk - {b})[a := blk[a] + blk[b]]
  }

  ghost function MergedCover(cover: map<nat, nat>, a: nat, b: nat): (r: map<nat, nat>)
    ensures r.Keys == cover.Keys
  {
    map u | u in cover :: if cover[u] == b then a else cover[u]
  }

  /** Two contiguous blocks made one. */
  lemma MergeKeeps(blk: map<nat, nat>, cover: map<nat, nat>, a: nat, b: nat)
    requires Tiled(blk, cover) && a in blk && b in blk && a + blk[a] == b
    ensures Tiled(Merged(blk, a, b), MergedCover(cover, a, b))
  {
    var blk', cover' := Merged(blk, a, b), MergedCover(cover, a, b);
    forall u | u in cover' ensures UnitOk(blk', cover', u) {
      assert UnitOk(blk, cover, u);
    }
    forall c, u | c in blk' ensures Covers(blk', cover', c, u) {
      assert Covers(blk, cover, c, u) && Covers(blk, cover, b, u);
    }
  }

  function Cut(blk: map<nat, nat>, a: nat, n: nat): map<nat, nat>
    requires a in blk && n < blk[a]
  {
    blk[a := blk[a] - n][a + blk[a] - n := n]
  }

  ghost function CutCover(cover: map<nat, nat>, a: nat, t: nat): (r: map<nat, nat>)
    ensures r.Keys == cover.Keys
  {
    map u | u in cover :: if cover[u] == a && t <= u then t else cover[u]
  }

  /** The last n units of a block made a block of their own. */
  lemma CutKeeps(blk: map<nat, nat>, cover: map<nat, nat>, a: nat, n: nat)
    requires Tiled(blk, cover) && a in blk && 0 < n < blk[a]
    ensures a + blk[a] - n !in blk && Tiled(Cut(blk, a, n), CutCover(cover, a, a + blk[a] - n))
  {
    var t := a + blk[a] - n;
    if t in blk {
      BlocksApart(blk, cover, a, t);
    }
    var blk', cover' := Cut(blk, a, n), CutCover(cover, a, t);
    forall u | u in cover' ensures UnitOk(blk', cover', u) {
      assert UnitOk(blk, cover, u);
    }
    forall c, u | c in blk' ensures Covers(blk', cover', c, u) {
      assert Covers(blk, cover, a, u);
      if c != t {
        assert Covers(blk, cover, c, u);
      }
    }
  }

  /** Units r to r + n all in one block. */
  ghost function Region(r: nat, n: nat): (m: map<nat, nat>)
    ensures forall u :: u in m <==> r <= u < r + n
    ensures forall u :: u in m ==> m[u] == r
  {
    if n == 0 then map[] else Region(r, n - 1)[r + n - 1 := r]
  }

  /** Memory from the system as a new block. */
  lemma GrantKeeps(blk: map<nat, nat>, cover: map<nat, nat>, r: nat, n: nat)
    requires Tiled(blk, cover) && 0 < r && 0 < n && forall u :: r <= u < r + n ==> u !in cover
    ensures r !in blk && Tiled(blk[r := n], cover + Region(r, n))
  {
    assert r in blk ==> Covers(blk, cover, r, r);
    var blk', cover' := blk[r := n], cover + Region(r, n);
    forall u | u in cover' ensures UnitOk(blk', cover', u) {
      assert u in cover ==> UnitOk(blk, cover, u);
    }
    forall c, u | c in blk' ensures Covers(blk', cover', c, u) {
      assert c != r ==> Covers(blk, cover, c, u);
    }
  }

  // ----- the free list: addresses in ascending order, the static header base first

  function Next(fl: seq<nat>, i: nat): nat {
    if i + 1 < |fl| then i + 1 else 0
  }

  predicate LinkOk(mem: map<nat, Header>, fl: seq<nat>, i: nat)
    requires i < |fl|
  {
    fl[i] in mem && mem[fl[i]].ptr == fl[Next(fl, i)]
  }

  /** The list is circular; the link of entry skip, if there is one, is left open. */
  ghost predicate Circular(mem: map<nat, Header>, fl: seq<nat>, skip: nat) {
    forall i {:trigger LinkOk(mem, fl, i)} :: 0 <= i < |fl| && i != skip ==> LinkOk(mem, fl, i)
  }

  function SizeOf(blk: map<nat, nat>, a: nat): nat {
    if a in blk then blk[a] else 0
  }

  predicate Before(blk: map<nat, nat>, fl: seq<nat>, i: nat, j: nat)
    requires i < |fl| && j < |fl|
  {
    fl[i] + SizeOf(blk, fl[i]) < fl[j]
  }

  /** Free blocks ascend, and no two of them are contiguous. */
  ghost predicate Ascending(blk: map<nat, nat>, fl: seq<nat>) {
    forall i, j {:trigger Before(blk, fl, i, j)} :: 0 <= i < j < |fl| ==> Before(blk, fl, i, j)
  }

  /** Headers say what the blocks are. */
  ghost predicate Headed(mem: map<nat, Header>, blk: map<nat, nat>, base: nat) {
    && base in mem && mem[base].size == 0 && base !in blk && 0 < base
    && forall a :: a in blk ==> base < a && a in mem && mem[a].size == blk[a]
  }

  /** The list holds base and blocks; live blocks are the others. */
  ghost predicate Sorted(blk: map<nat, nat>, fl: seq<nat>, live: set<nat>, base: nat) {
    && fl != [] && fl[0] == base
    && (forall i :: 1 <= i < |fl| ==> fl[i] in blk)
    && (forall a :: a in live <==> a in blk && a !in fl)
  }

  /** Everything between calls. */
  ghost predicate Heap(mem: map<nat, Header>, blk: map<nat, nat>, cover: map<nat, nat>, fl: seq<nat>, live: set<nat>,
                       base: nat) {
    && Tiled(blk, cover) && Headed(mem, blk, base) && Sorted(blk, fl, live, base)
    && Ascending(blk, fl) && Circular(mem, fl, |fl|)
  }

  /** The place in the list for a live block. */
  predicate Place(fl: seq<nat>, bp: nat, j: nat) {
    j < |fl| && fl[j] < bp && (j + 1 < |fl| ==> bp < fl[j + 1])
  }

  lemma {:induction false} PlaceFrom(blk: map<nat, nat>, fl: seq<nat>, bp: nat, i: nat) returns (j: nat)
    requires Ascending(blk, fl) && i < |fl| && fl[i] < bp && bp !in fl
    ensures Place(fl, bp, j)
    decreases |fl| - i
  {
    if i + 1 < |fl| && fl[i + 1] < bp {
      j := PlaceFrom(blk, fl, bp, i + 1);
    } else {
      j := i;
    }
  }

  /** free's loop condition holds at that place and nowhere else. */
  lemma PlaceTest(mem: map<nat, Header>, blk: map<nat, nat>, fl: seq<nat>, bp: nat, j: nat, i: nat)
    requires Ascending(blk, fl) && Circular(mem, fl, |fl|) && Place(fl, bp, j) && i < |fl| && fl[0] < bp
    ensures fl[i] in mem
    ensures var p, q := fl[i], mem[fl[i]].ptr;
      (p < bp && bp < q) || (p >= q && (bp > p || bp < q)) <==> i == j
  {
    assert LinkOk(mem, fl, i);
    if i < j {
      assert Before(blk, fl, i, j);
      assert i + 1 < j ==> Before(blk, fl, i + 1, j);
    } else if j < i {
      assert j + 1 < i ==> Before(blk, fl, j + 1, i);
    }
    assert i + 1 < |fl| ==> Before(blk, fl, i, i + 1);
    assert 0 < i ==> Before(blk, fl, 0, i);
  }
}
