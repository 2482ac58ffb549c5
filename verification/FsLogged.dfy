/** Which blocks allocation and writing pass to log_write. */
module FsLogged {
  import opened FsFormat
  import opened FsModel
  import opened FsProofs
  import opened FsContent
  import opened Sets

  /** Blocks changed since B0 are logged, but perhaps for one. */
  ghost predicate ChangesLogged(B0: seq<Block>, B: seq<Block>, logged: set<nat>, except: nat) {
    |B| == |B0| && forall b :: 0 <= b < |B0| && b !in logged && b != except ==> B[b] == B0[b]
  }

  /** Block f found its owner between O0 and O. */
  predicate Fresh(O0: map<nat, Slot>, O: map<nat, Slot>, f: nat) {
    f in O && f !in O0
  }

  /** What taking block f logs: itself, since it is zeroed, its block of the free map, and
      the indirect block d if its number is stored there. */
  predicate LogsFor(l: Layout, O: map<nat, Slot>, d: nat, f: nat, b: nat)
    requires f in O
  {
    b == f || b == BBlock(l, f) || (NDIRECT <= O[f].n < MAXFILE && b == d)
  }

  ghost predicate AllocLogs(l: Layout, O0: map<nat, Slot>, O: map<nat, Slot>, d: nat, b: nat) {
    exists f :: Fresh(O0, O, f) && LogsFor(l, O, d, f, b)
  }

  /** Since L0 exactly what the fresh blocks call for was logged. */
  ghost predicate LogsAlloc(l: Layout, L0: set<nat>, L: set<nat>, O0: map<nat, Slot>, O: map<nat, Slot>, d: nat) {
    forall b :: b in L <==> b in L0 || AllocLogs(l, O0, O, d, b)
  }

  /** Blocks lo to hi of a file. */
  datatype Span = Span(inum: nat, lo: nat, hi: nat)

  predicate Inside(sp: Span, w: Slot) {
    w.inum == sp.inum && ((w.n == MAXFILE && NDIRECT < sp.hi) || sp.lo <= w.n < sp.hi)
  }

  /** No block lost its owner. */
  ghost predicate Extends(O0: map<nat, Slot>, O: map<nat, Slot>) {
    forall f :: f in O0 ==> f in O && O[f] == O0[f]
  }

  /** And what was taken was taken for these blocks of a file, or as its indirect block. */
  ghost predicate TakenFor(O0: map<nat, Slot>, O: map<nat, Slot>, sp: Span) {
    Extends(O0, O) && forall f :: Fresh(O0, O, f) ==> Inside(sp, O[f])
  }

  lemma TakenWider(O0: map<nat, Slot>, O: map<nat, Slot>, sp: Span, wide: Span)
    requires TakenFor(O0, O, sp) && wide.inum == sp.inum && wide.lo <= sp.lo && sp.hi <= wide.hi
    ensures TakenFor(O0, O, wide)
  {
  }

  /** Allocation for a file leaves the inode blocks alone, logs what it changed, and
      nothing else. */
  ghost predicate Tidy(l: Layout, B0: seq<Block>, B: seq<Block>, L0: set<nat>, L: set<nat>,
                       O0: map<nat, Slot>, O: map<nat, Slot>, sp: Span, d: nat) {
    && SameInodes(l, B0, B) && ChangesLogged(B0, B, L, |B|) && TakenFor(O0, O, sp)
    && L0 <= L && LogsAlloc(l, L0, L, O0, O, d)
  }

  lemma TidyNothing(l: Layout, B: seq<Block>, L: set<nat>, O: map<nat, Slot>, sp: Span, d: nat)
    ensures Tidy(l, B, B, L, L, O, O, sp, d)
  {
  }

  /** Blocks that taking block r for slot w logs. */
  function LoggedFor(l: Layout, r: nat, w: Slot, d: nat): set<nat> {
    {BBlock(l, r), r} + if NDIRECT <= w.n < MAXFILE then {d} else {}
  }

  /** One fresh block r for slot w. */
  lemma TidyOne(l: Layout, B0: seq<Block>, B: seq<Block>, L: set<nat>, O: map<nat, Slot>, r: nat, w: Slot, sp: Span,
                d: nat)
    requires LayoutOk(l) && |B0| == l.size && l.datastart <= r < l.size && r !in O && Inside(sp, w)
    requires NDIRECT <= w.n < MAXFILE ==> l.datastart <= d < l.size
    requires |B| == |B0| && forall b :: 0 <= b < |B0| && b !in LoggedFor(l, r, w, d) ==> B[b] == B0[b]
    ensures Tidy(l, B0, B, L, L + LoggedFor(l, r, w, d), O, O[r := w], sp, d)
  {
    MapBlockPlace(l, r);
    LogsOne(l, L, O, r, w, d);
  }

  lemma LogsOne(l: Layout, L: set<nat>, O: map<nat, Slot>, r: nat, w: Slot, d: nat)
    requires r !in O
    ensures LogsAlloc(l, L, L + LoggedFor(l, r, w, d), O, O[r := w], d)
  {
    forall b ensures b in LoggedFor(l, r, w, d) <==> AllocLogs(l, O, O[r := w], d, b) {
      assert Fresh(O, O[r := w], r);
    }
  }

  /** Two rounds of allocation; the indirect block may appear in between, but not change. */
  lemma TidyTwice(l: Layout, B0: seq<Block>, B1: seq<Block>, B2: seq<Block>, L0: set<nat>, L1: set<nat>, L2: set<nat>,
                  O0: map<nat, Slot>, O1: map<nat, Slot>, O2: map<nat, Slot>, sp: Span, d1: nat, d2: nat)
    requires Tidy(l, B0, B1, L0, L1, O0, O1, sp, d1) && Tidy(l, B1, B2, L1, L2, O1, O2, sp, d2)
    requires d1 == d2 || forall f :: Fresh(O0, O1, f) ==> !(NDIRECT <= O1[f].n < MAXFILE)
    ensures Tidy(l, B0, B2, L0, L2, O0, O2, sp, d2)
  {
    TakenTwice(O0, O1, O2, sp);
    forall b ensures b in L2 <==> b in L0 || AllocLogs(l, O0, O2, d2, b) {
      LogsTwice(l, O0, O1, O2, d1, d2, b);
    }
  }

  lemma TakenTwice(O0: map<nat, Slot>, O1: map<nat, Slot>, O2: map<nat, Slot>, sp: Span)
    requires TakenFor(O0, O1, sp) && TakenFor(O1, O2, sp)
    ensures TakenFor(O0, O2, sp)
  {
    forall f | Fresh(O0, O2, f) ensures Inside(sp, O2[f]) {
      assert Fresh(O0, O1, f) || Fresh(O1, O2, f);
    }
  }

  lemma LogsTwice(l: Layout, O0: map<nat, Slot>, O1: map<nat, Slot>, O2: map<nat, Slot>,
                  d1: nat, d2: nat, b: nat)
    requires Extends(O0, O1) && Extends(O1, O2)
    requires d1 == d2 || forall f :: Fresh(O0, O1, f) ==> !(NDIRECT <= O1[f].n < MAXFILE)
    ensures AllocLogs(l, O0, O2, d2, b) <==> AllocLogs(l, O0, O1, d1, b) || AllocLogs(l, O1, O2, d2, b)
  {
    if AllocLogs(l, O0, O2, d2, b) {
      var f :| Fresh(O0, O2, f) && LogsFor(l, O2, d2, f, b);
      assert Fresh(O0, O1, f) || Fresh(O1, O2, f);
    }
    if AllocLogs(l, O0, O1, d1, b) {
      var f :| Fresh(O0, O1, f) && LogsFor(l, O1, d1, f, b);
      assert Fresh(O0, O2, f) && LogsFor(l, O2, d2, f, b);
    }
    if AllocLogs(l, O1, O2, d2, b) {
      var f :| Fresh(O1, O2, f) && LogsFor(l, O2, d2, f, b);
      assert Fresh(O0, O2, f);
    }
  }

  /** A file without an indirect block has no block that would be listed there. */
  lemma NoEntries(l: Layout, B: seq<Block>, I: seq<Inode>, O0: map<nat, Slot>, O: map<nat, Slot>, sp: Span)
    requires Owned(l, B, I, O) && sp.inum < |I| && I[sp.inum].addrs[NDIRECT] == 0
    requires TakenFor(O0, O, sp)
    ensures forall f :: Fresh(O0, O, f) ==> !(NDIRECT <= O[f].n < MAXFILE)
  {
    forall f | Fresh(O0, O, f) ensures !(NDIRECT <= O[f].n < MAXFILE) {
      assert BlockOk(l, B, I, O, f);
    }
  }

  // ----- writing

  /** File block n has bytes in [off, off + tot). */
  predicate Covers(off: nat, tot: nat, n: nat) {
    n < MAXFILE && tot > 0 && off / BSIZE <= n <= (off + tot - 1) / BSIZE
  }

  ghost predicate DataLogs(B: seq<Block>, ip: Inode, off: nat, tot: nat, b: nat)
    requires |ip.addrs| == NDIRECT + 1 && ip.addrs[NDIRECT] < |B|
  {
    exists n :: Covers(off, tot, n) && b == Addr(B, ip, n)
  }

  /** A write of tot bytes at off logs b: as a block it took, or for one, or as data. */
  ghost predicate WriteLogs(l: Layout, O0: map<nat, Slot>, B: seq<Block>, ip: Inode, O: map<nat, Slot>,
                            off: nat, tot: nat, b: nat)
    requires |ip.addrs| == NDIRECT + 1 && ip.addrs[NDIRECT] < |B|
  {
    AllocLogs(l, O0, O, ip.addrs[NDIRECT], b) || DataLogs(B, ip, off, tot, b)
  }

  ghost predicate ExactLog(l: Layout, L0: set<nat>, L: set<nat>, O0: map<nat, Slot>,
                           B: seq<Block>, ip: Inode, O: map<nat, Slot>, off: nat, tot: nat)
    requires |ip.addrs| == NDIRECT + 1 && ip.addrs[NDIRECT] < |B|
  {
    forall b :: b in L <==> b in L0 || WriteLogs(l, O0, B, ip, O, off, tot, b)
  }

  lemma ExactNothing(l: Layout, L: set<nat>, B: seq<Block>, ip: Inode, O: map<nat, Slot>, off: nat)
    requires |ip.addrs| == NDIRECT + 1 && ip.addrs[NDIRECT] < |B|
    ensures ExactLog(l, L, L, O, B, ip, O, off, 0)
  {
  }

  /** Blocks already written to are mapped. */
  lemma CoveredMapped(B: seq<Block>, ip: Inode, off: nat, data: seq<Byte>, w: nat, tot: nat, n: nat)
    requires |ip.addrs| == NDIRECT + 1 && ip.addrs[NDIRECT] < |B|
    requires Stored(B, ip, off, data, w) && tot <= w && Covers(off, tot, n)
    ensures Addr(B, ip, n) != 0
  {
    var t := if n * BSIZE < off then 0 else n * BSIZE - off;
    assert StoredAt(B, ip, off + t, data[t]);
  }

  /** What is logged as data stays so when the map only grows elsewhere. */
  lemma DataLogsSame(B: seq<Block>, ip: Inode, B': seq<Block>, ip': Inode, off: nat, tot: nat, b: nat)
    requires |ip.addrs| == NDIRECT + 1 && ip.addrs[NDIRECT] < |B|
    requires |ip'.addrs| == NDIRECT + 1 && ip'.addrs[NDIRECT] < |B'|
    requires forall n :: Covers(off, tot, n) ==> Addr(B', ip', n) == Addr(B, ip, n)
    ensures DataLogs(B', ip', off, tot, b) <==> DataLogs(B, ip, off, tot, b)
  {
  }

  /** Since (B0, L0, O0) a write of tot bytes at off changed no inode block, took blocks
      for this stretch of the file only, and logged what it had to: what it changed, except perhaps
      in block `except`, and nothing more. */
  ghost predicate WriteTidy(l: Layout, B0: seq<Block>, L0: set<nat>, O0: map<nat, Slot>,
                            B: seq<Block>, L: set<nat>, O: map<nat, Slot>, sp: Span, ip: Inode,
                            off: nat, tot: nat, except: nat)
    requires |ip.addrs| == NDIRECT + 1 && ip.addrs[NDIRECT] < |B|
  {
    && SameInodes(l, B0, B) && ChangesLogged(B0, B, L, except) && TakenFor(O0, O, sp)
    && L0 <= L && ExactLog(l, L0, L, O0, B, ip, O, off, tot)
  }

  /** bmap of the next block. */
  lemma TidyGrows(l: Layout, B0: seq<Block>, L0: set<nat>, O0: map<nat, Slot>,
                  B: seq<Block>, L: set<nat>, O: map<nat, Slot>, B': seq<Block>, L': set<nat>, O': map<nat, Slot>,
                  sp: Span, ip: Inode, ip': Inode, off: nat, tot: nat)
    requires |ip.addrs| == NDIRECT + 1 && ip.addrs[NDIRECT] < |B|
    requires |ip'.addrs| == NDIRECT + 1 && ip'.addrs[NDIRECT] < |B'| == |B|
    requires WriteTidy(l, B0, L0, O0, B, L, O, sp, ip, off, tot, |B|)
    requires Tidy(l, B, B', L, L', O, O', sp, ip'.addrs[NDIRECT])
    requires ip.addrs[NDIRECT] == ip'.addrs[NDIRECT] || forall f :: Fresh(O0, O, f) ==> !(NDIRECT <= O[f].n < MAXFILE)
    requires forall n :: Covers(off, tot, n) ==> Addr(B', ip', n) == Addr(B, ip, n)
    ensures WriteTidy(l, B0, L0, O0, B', L', O', sp, ip', off, tot, |B|)
  {
    TakenTwice(O0, O, O', sp);
    forall b ensures b in L' <==> b in L0 || WriteLogs(l, O0, B', ip', O', off, tot, b) {
      LogsTwice(l, O0, O, O', ip.addrs[NDIRECT], ip'.addrs[NDIRECT], b);
      DataLogsSame(B, ip, B', ip', off, tot, b);
    }
  }

  /** The next m bytes lie in one more block. */
  lemma CoversNext(off: nat, tot: nat, m: nat, n: nat)
    requires 0 < m && (off + tot) % BSIZE + m <= BSIZE && (tot == 0 || (off + tot) % BSIZE == 0)
    requires off + tot + m <= MAXFILE * BSIZE
    ensures Covers(off, tot + m, n) <==> Covers(off, tot, n) || n == (off + tot) / BSIZE
  {
    var o := off + tot;
    assert o == o / BSIZE * BSIZE + o % BSIZE;
    assert (o + m - 1) / BSIZE == o / BSIZE by {
      ChunkByte(o, 0, m, o + m - 1);
    }
    if tot > 0 {
      assert (o - 1) / BSIZE == o / BSIZE - 1;
    }
  }

  /** The next block is written and logged. */
  lemma ExactData(l: Layout, L0: set<nat>, L: set<nat>, O0: map<nat, Slot>, O: map<nat, Slot>,
                  B: seq<Block>, B': seq<Block>, ip: Inode, off: nat, tot: nat, m: nat)
    requires |ip.addrs| == NDIRECT + 1 && ip.addrs[NDIRECT] < |B| == |B'|
    requires ExactLog(l, L0, L, O0, B, ip, O, off, tot)
    requires 0 < m && (off + tot) % BSIZE + m <= BSIZE && (tot == 0 || (off + tot) % BSIZE == 0)
    requires off + tot + m <= MAXFILE * BSIZE
    requires forall n :: 0 <= n <= MAXFILE ==> Addr(B', ip, n) == Addr(B, ip, n)
    ensures ExactLog(l, L0, L + {Addr(B, ip, (off + tot) / BSIZE)}, O0, B', ip, O, off, tot + m)
  {
    var bn := (off + tot) / BSIZE;
    var a := Addr(B, ip, bn);
    forall b ensures DataLogs(B', ip, off, tot + m, b) <==> DataLogs(B, ip, off, tot, b) || b == a {
      DataLogsNext(B, B', ip, off, tot, m, b);
    }
    forall b ensures b in L + {a} <==> b in L0 || WriteLogs(l, O0, B', ip, O, off, tot + m, b) {
      assert b in L <==> b in L0 || WriteLogs(l, O0, B, ip, O, off, tot, b);
    }
  }

  lemma DataLogsNext(B: seq<Block>, B': seq<Block>, ip: Inode, off: nat, tot: nat, m: nat, b: nat)
    requires |ip.addrs| == NDIRECT + 1 && ip.addrs[NDIRECT] < |B| == |B'|
    requires 0 < m && (off + tot) % BSIZE + m <= BSIZE && (tot == 0 || (off + tot) % BSIZE == 0)
    requires off + tot + m <= MAXFILE * BSIZE
    requires forall n :: 0 <= n <= MAXFILE ==> Addr(B', ip, n) == Addr(B, ip, n)
    ensures DataLogs(B', ip, off, tot + m, b) <==>
      DataLogs(B, ip, off, tot, b) || b == Addr(B, ip, (off + tot) / BSIZE)
  {
    CoversNext(off, tot, m, (off + tot) / BSIZE);
    if DataLogs(B', ip, off, tot + m, b) {
      var n :| Covers(off, tot + m, n) && b == Addr(B', ip, n);
      CoversNext(off, tot, m, n);
      assert b == Addr(B, ip, n);
    }
    if DataLogs(B, ip, off, tot, b) {
      var n :| Covers(off, tot, n) && b == Addr(B, ip, n);
      CoversNext(off, tot, m, n);
      assert b == Addr(B', ip, n);
    }
    if b == Addr(B, ip, (off + tot) / BSIZE) {
      assert b == Addr(B', ip, (off + tot) / BSIZE);
    }
  }

  /** The copy into the next block: logged if it was complete. */
  lemma TidyPut(l: Layout, B0: seq<Block>, L0: set<nat>, O0: map<nat, Slot>,
                B: seq<Block>, L: set<nat>, O: map<nat, Slot>, B': seq<Block>, sp: Span, ip: Inode,
                off: nat, tot: nat, m: nat, whole: bool)
    requires LayoutOk(l) && |ip.addrs| == NDIRECT + 1 && ip.addrs[NDIRECT] < |B| == |B'|
    requires WriteTidy(l, B0, L0, O0, B, L, O, sp, ip, off, tot, |B|)
    requires 0 < m && (off + tot) % BSIZE + m <= BSIZE && (tot == 0 || (off + tot) % BSIZE == 0)
    requires off + tot + m <= MAXFILE * BSIZE
    requires forall n :: 0 <= n <= MAXFILE ==> Addr(B', ip, n) == Addr(B, ip, n)
    requires var a := Addr(B, ip, (off + tot) / BSIZE);
      l.datastart <= a < |B| && forall b :: 0 <= b < |B| && b != a ==> B'[b] == B[b]
    ensures var a := Addr(B, ip, (off + tot) / BSIZE);
      if whole then WriteTidy(l, B0, L0, O0, B', L + {a}, O, sp, ip, off, tot + m, |B|)
      else WriteTidy(l, B0, L0, O0, B', L, O, sp, ip, off, tot, a)
  {
    if whole {
      ExactData(l, L0, L, O0, O, B, B', ip, off, tot, m);
    } else {
      forall b ensures b in L <==> b in L0 || WriteLogs(l, O0, B', ip, O, off, tot, b) {
        DataLogsSame(B, ip, B', ip, off, tot, b);
      }
    }
  }

  /** bmap of the next block, as a step of a write. */
  lemma TidyBmap(l: Layout, B0: seq<Block>, L0: set<nat>, O0: map<nat, Slot>,
                 B: seq<Block>, L: set<nat>, I: seq<Inode>, O: map<nat, Slot>,
                 B': seq<Block>, L': set<nat>, I': seq<Inode>, O': map<nat, Slot>,
                 sp: Span, off: nat, data: seq<Byte>, tot: nat, bn: nat)
    requires Owned(l, B, I, O) && Grows(l, B, I, O, B', I', O', sp.inum, bn) && Stored(B, I[sp.inum], off, data, tot)
    requires WriteTidy(l, B0, L0, O0, B, L, O, sp, I[sp.inum], off, tot, |B|) && sp.lo <= bn < sp.hi
    requires Tidy(l, B, B', L, L', O, O', Span(sp.inum, bn, bn + 1), I'[sp.inum].addrs[NDIRECT])
    ensures WriteTidy(l, B0, L0, O0, B', L', O', sp, I'[sp.inum], off, tot, |B|)
  {
    var i := sp.inum;
    TakenWider(O, O', Span(i, bn, bn + 1), sp);
    if I[i].addrs[NDIRECT] == 0 {
      NoEntries(l, B, I, O0, O, sp);
    } else {
      assert AddrSame(B, I, B', I', i, MAXFILE);
    }
    forall n | Covers(off, tot, n) ensures Addr(B', I'[i], n) == Addr(B, I[i], n) {
      CoveredMapped(B, I[i], off, data, tot, tot, n);
      assert AddrSame(B, I, B', I', i, n);
    }
    TidyGrows(l, B0, L0, O0, B, L, O, B', L', O', sp, I[i], I'[i], off, tot);
  }

  /** The copy into the next block, as a step of a write. */
  lemma TidyCopy(l: Layout, B0: seq<Block>, L0: set<nat>, O0: map<nat, Slot>,
                 B: seq<Block>, L: set<nat>, I: seq<Inode>, O: map<nat, Slot>,
                 sp: Span, off: nat, tot: nat, m: nat, block: Block, whole: bool)
    requires Owned(l, B, I, O) && sp.inum < |I| && WriteTidy(l, B0, L0, O0, B, L, O, sp, I[sp.inum], off, tot, |B|)
    requires 0 < m && (off + tot) % BSIZE + m <= BSIZE && (tot == 0 || (off + tot) % BSIZE == 0)
    requires off + tot + m <= MAXFILE * BSIZE && Addr(B, I[sp.inum], (off + tot) / BSIZE) != 0
    ensures var i := sp.inum;
      var a := Addr(B, I[i], (off + tot) / BSIZE);
      && a < |B| && Addr(B[a := block], I[i], (off + tot) / BSIZE) == a
      && if whole then WriteTidy(l, B0, L0, O0, B[a := block], L + {a}, O, sp, I[i], off, tot + m, |B|)
         else WriteTidy(l, B0, L0, O0, B[a := block], L, O, sp, I[i], off, tot, a)
  {
    var i := sp.inum;
    var bn := (off + tot) / BSIZE;
    SlotIsOwned(l, B, I, O, i, bn);
    var a := Addr(B, I[i], bn);
    if I[i].addrs[NDIRECT] != 0 {
      IndirectIsOwned(l, B, I, O, i);
    }
    forall n | 0 <= n <= MAXFILE ensures Addr(B[a := block], I[i], n) == Addr(B, I[i], n) {
      AddrStays(B, B[a := block], I[i], n);
    }
    TidyPut(l, B0, L0, O0, B, L, O, B[a := block], sp, I[i], off, tot, m, whole);
  }

  /** iupdate ends the write: the inode's block is logged too. */
  lemma TidyDone(l: Layout, B0: seq<Block>, L0: set<nat>, O0: map<nat, Slot>,
                 B: seq<Block>, L: set<nat>, O: map<nat, Slot>, B': seq<Block>, sp: Span, ip: Inode, size: nat,
                 off: nat, tot: nat, except: nat, m: nat)
    requires |ip.addrs| == NDIRECT + 1 && ip.addrs[NDIRECT] < |B| && m < |B| && m != ip.addrs[NDIRECT]
    requires WriteTidy(l, B0, L0, O0, B, L, O, sp, ip, off, tot, except)
    requires |B'| == |B| && B' == B[m := B'[m]]
    ensures ChangesLogged(B0, B', L + {m}, except)
    ensures forall n :: 0 <= n <= MAXFILE ==> Addr(B', ip.(size := size), n) == Addr(B, ip, n)
    ensures forall b :: b in L + {m} <==> b in L0 || b == m || WriteLogs(l, O0, B', ip.(size := size), O, off, tot, b)
  {
    forall n | 0 <= n <= MAXFILE ensures Addr(B', ip.(size := size), n) == Addr(B, ip, n) {
      AddrStays(B, B', ip, n);
    }
    forall b ensures DataLogs(B', ip.(size := size), off, tot, b) <==> DataLogs(B, ip, off, tot, b) {
      DataLogsSame(B, ip, B', ip.(size := size), off, tot, b);
    }
  }

  // ----- how much that can be

  /** Blocks that a write of n bytes at off touches. */
  function Chunks(off: nat, n: nat): nat {
    if n == 0 then 0 else (off + n - 1) / BSIZE - off / BSIZE + 1
  }

  /** Whether the first of them only gets its tail written, so is mapped already. */
  function Unaligned(off: nat, n: nat): nat {
    if n > 0 && off % BSIZE != 0 then 1 else 0
  }

  /** The stretch of file i that such a write may map. */
  function Touched(i: nat, off: nat, n: nat): Span {
    Span(i, off / BSIZE, off / BSIZE + Chunks(off, n))
  }

  /** The blocks at places lo to hi. */
  function BlocksFrom(B: seq<Block>, ip: Inode, lo: nat, hi: nat): (r: set<nat>)
    requires |ip.addrs| == NDIRECT + 1 && ip.addrs[NDIRECT] < |B| && lo <= hi <= MAXFILE
    ensures |r| <= hi - lo && forall n :: lo <= n < hi ==> Addr(B, ip, n) in r
    decreases hi
  {
    if lo == hi then {} else BlocksFrom(B, ip, lo, hi - 1) + {Addr(B, ip, hi - 1)}
  }

  function MapsOf(l: Layout, s: set<nat>): (r: set<nat>) {
    set f | f in s :: BBlock(l, f)
  }

  lemma {:induction false} MapsSize(l: Layout, s: set<nat>)
    ensures |MapsOf(l, s)| <= |s|
  {
    if f :| f in s {
      MapsSize(l, s - {f});
      assert MapsOf(l, s) == MapsOf(l, s - {f}) + {BBlock(l, f)};
    }
  }

  /** Where the write starts inside a block, that block is not fresh. */
  lemma FreshPlace(l: Layout, B0: seq<Block>, I0: seq<Inode>, O0: map<nat, Slot>,
                   B: seq<Block>, I: seq<Inode>, O: map<nat, Slot>, i: nat, off: nat, n: nat, f: nat)
    requires Owned(l, B0, I0, O0) && Owned(l, B, I, O) && i < |I0| == |I| && NoHoles(B0, I0[i]) && off <= I0[i].size
    requires TakenFor(O0, O, Touched(i, off, n)) && Fresh(O0, O, f)
    ensures InodeOk(l, I[i])
    ensures FreshAt(B, I[i], O, f, off / BSIZE + Unaligned(off, n), off / BSIZE + Chunks(off, n))
  {
    assert BlockOk(l, B, I, O, f) && Inside(Touched(i, off, n), O[f]);
    if n > 0 && off % BSIZE != 0 {
      FirstBlockMapped(l, B0, I0, i, off);
      var a := Addr(B0, I0[i], off / BSIZE);
      SlotIsOwned(l, B0, I0, O0, i, off / BSIZE);
      assert BlockOk(l, B, I, O, a);
    }
  }

  /** Fresh blocks at places mid to hi, or of the indirect block: there are not many. */
  lemma FreshCount(B: seq<Block>, ip: Inode, O0: map<nat, Slot>, O: map<nat, Slot>, lo: nat, mid: nat, hi: nat)
    requires |ip.addrs| == NDIRECT + 1 && ip.addrs[NDIRECT] < |B| && lo <= mid <= hi <= MAXFILE
    requires forall f :: Fresh(O0, O, f) ==> FreshAt(B, ip, O, f, mid, hi)
    ensures forall f :: f in O.Keys - O0.Keys ==> f in BlocksFrom(B, ip, lo, hi) + {ip.addrs[NDIRECT]}
    ensures |O.Keys - O0.Keys| <= hi - mid + 1
  {
    var ind := ip.addrs[NDIRECT];
    forall f | f in O.Keys - O0.Keys
      ensures f in BlocksFrom(B, ip, lo, hi) + {ind} && f in BlocksFrom(B, ip, mid, hi) + {ind}
    {
      assert Fresh(O0, O, f) && FreshAt(B, ip, O, f, mid, hi);
    }
    SubsetSize(O.Keys - O0.Keys, BlocksFrom(B, ip, mid, hi) + {ind});
  }

  predicate FreshAt(B: seq<Block>, ip: Inode, O: map<nat, Slot>, f: nat, lo: nat, hi: nat)
    requires |ip.addrs| == NDIRECT + 1 && ip.addrs[NDIRECT] < |B| && f in O
  {
    O[f].n <= MAXFILE && Addr(B, ip, O[f].n) == f && (O[f].n == MAXFILE || lo <= O[f].n < hi)
  }

  lemma UnionSize(a: set<nat>, x: nat, b: set<nat>)
    ensures |a + {x} + b| <= |a| + 1 + |b|
  {
    assert |a + {x}| <= |a| + 1;
    SubsetSize(a + {x} + b - b, a + {x});
  }

  /** What is logged for blocks lo to hi, of which those from mid on may be fresh. */
  lemma CostWithin(l: Layout, L0: set<nat>, L: set<nat>, O0: map<nat, Slot>, B: seq<Block>, ip: Inode,
                   O: map<nat, Slot>,
                   off: nat, tot: nat, lo: nat, mid: nat, hi: nat) returns (cost: set<nat>)
    requires |ip.addrs| == NDIRECT + 1 && ip.addrs[NDIRECT] < |B| && lo <= mid <= hi <= MAXFILE
    requires forall k: nat :: Covers(off, tot, k) ==> lo <= k < hi
    requires forall f :: Fresh(O0, O, f) ==> FreshAt(B, ip, O, f, mid, hi)
    requires ExactLog(l, L0, L, O0, B, ip, O, off, tot)
    ensures L <= L0 + cost && |cost| <= (hi - lo) + (hi - mid) + 2
  {
    FreshCount(B, ip, O0, O, lo, mid, hi);
    MapsSize(l, O.Keys - O0.Keys);
    var data, maps := BlocksFrom(B, ip, lo, hi), MapsOf(l, O.Keys - O0.Keys);
    cost := data + {ip.addrs[NDIRECT]} + maps;
    UnionSize(data, ip.addrs[NDIRECT], maps);
    forall b | b in L ensures b in L0 + cost {
      LoggedInCost(l, L0, L, O0, B, ip, O, off, tot, lo, hi, b);
    }
  }

  /** A write of n bytes logs at most two blocks for each it touches, and one more, or two. */
  lemma CostBound(l: Layout, B0: seq<Block>, I0: seq<Inode>, O0: map<nat, Slot>, L0: set<nat>,
                  B: seq<Block>, I: seq<Inode>, O: map<nat, Slot>, L: set<nat>, i: nat, off: nat, n: nat, tot: nat)
    returns (cost: set<nat>)
    requires Owned(l, B0, I0, O0) && Owned(l, B, I, O) && i < |I0| == |I| && NoHoles(B0, I0[i]) && off <= I0[i].size
    requires TakenFor(O0, O, Touched(i, off, n)) && tot <= n && off + n <= MAXFILE * BSIZE
    requires InodeOk(l, I[i]) && ExactLog(l, L0, L, O0, B, I[i], O, off, tot)
    ensures L <= L0 + cost && |cost| <= 2 * Chunks(off, n) + 2 - Unaligned(off, n)
  {
    ChunksBound(off, n, tot);
    var lo, mid, hi := off / BSIZE, off / BSIZE + Unaligned(off, n), off / BSIZE + Chunks(off, n);
    forall f | Fresh(O0, O, f) ensures FreshAt(B, I[i], O, f, mid, hi) {
      FreshPlace(l, B0, I0, O0, B, I, O, i, off, n, f);
    }
    cost := CostWithin(l, L0, L, O0, B, I[i], O, off, tot, lo, mid, hi);
  }

  /** The last block that a write touches is a block of the file. */
  lemma ChunksBound(off: nat, n: nat, tot: nat)
    requires off + n <= MAXFILE * BSIZE && tot <= n
    ensures off / BSIZE + Chunks(off, n) <= MAXFILE && Unaligned(off, n) <= Chunks(off, n)
    ensures forall k: nat :: Covers(off, tot, k) ==> off / BSIZE <= k < off / BSIZE + Chunks(off, n)
  {
  }

  lemma LoggedInCost(l: Layout, L0: set<nat>, L: set<nat>, O0: map<nat, Slot>, B: seq<Block>, ip: Inode,
                     O: map<nat, Slot>,
                     off: nat, tot: nat, lo: nat, hi: nat, b: nat)
    requires |ip.addrs| == NDIRECT + 1 && ip.addrs[NDIRECT] < |B| && lo <= hi <= MAXFILE
    requires forall k: nat :: Covers(off, tot, k) ==> lo <= k < hi
    requires ExactLog(l, L0, L, O0, B, ip, O, off, tot) && b in L
    requires forall f :: f in O.Keys - O0.Keys ==> f in BlocksFrom(B, ip, lo, hi) + {ip.addrs[NDIRECT]}
    ensures b in L0 + BlocksFrom(B, ip, lo, hi) + {ip.addrs[NDIRECT]} + MapsOf(l, O.Keys - O0.Keys)
  {
    if b !in L0 {
      if DataLogs(B, ip, off, tot, b) {
        var k :| Covers(off, tot, k) && b == Addr(B, ip, k);
      } else {
        var f :| Fresh(O0, O, f) && LogsFor(l, O, ip.addrs[NDIRECT], f, b);
        assert f in O.Keys - O0.Keys;
      }
    }
  }

  // ----- truncation

  /** Blocks that inode i owns at places below k. */
  ghost function OwnedBelow(O: map<nat, Slot>, i: nat, k: nat): set<nat> {
    set b | b in O && O[b].inum == i && O[b].n < k
  }

  lemma OwnedNext(l: Layout, B: seq<Block>, I: seq<Inode>, O: map<nat, Slot>, i: nat, k: nat)
    requires Owned(l, B, I, O) && i < |I| && k <= MAXFILE
    ensures var a := Addr(B, I[i], k);
      OwnedBelow(O, i, k + 1) == OwnedBelow(O, i, k) + if a == 0 then {} else {a}
  {
    assert SlotOk(B, I[i], O, i, k);
    forall b | b in O ensures O[b] == Slot(i, k) ==> b == Addr(B, I[i], k) && b != 0 {
      assert BlockOk(l, B, I, O, b);
    }
  }

  /** Freeing the blocks at places below k has logged the blocks of the free map that hold their
      bits, and no others. */
  ghost predicate FreesLogged(l: Layout, O: map<nat, Slot>, L0: set<nat>, L: set<nat>, i: nat, k: nat) {
    L == L0 + MapsOf(l, OwnedBelow(O, i, k))
  }

  lemma FreesNext(l: Layout, B: seq<Block>, I: seq<Inode>, O: map<nat, Slot>, L0: set<nat>, L: set<nat>, i: nat, k: nat)
    requires Owned(l, B, I, O) && i < |I| && k <= MAXFILE && FreesLogged(l, O, L0, L, i, k)
    ensures var a := Addr(B, I[i], k);
      FreesLogged(l, O, L0, if a == 0 then L else L + {BBlock(l, a)}, i, k + 1)
  {
    OwnedNext(l, B, I, O, i, k);
  }

  /** Without an indirect block there is nothing at further places. */
  lemma {:induction false} FreesRest(l: Layout, B: seq<Block>, I: seq<Inode>, O: map<nat, Slot>, L0: set<nat>,
                                     L: set<nat>, i: nat, k: nat)
    requires Owned(l, B, I, O) && i < |I| && I[i].addrs[NDIRECT] == 0
    requires NDIRECT <= k <= MAXFILE + 1 && FreesLogged(l, O, L0, L, i, k)
    ensures FreesLogged(l, O, L0, L, i, MAXFILE + 1)
    decreases MAXFILE + 1 - k
  {
    if k <= MAXFILE {
      FreesNext(l, B, I, O, L0, L, i, k);
      FreesRest(l, B, I, O, L0, L, i, k + 1);
    }
  }

  /** What truncation logs: the blocks of the free map with bits of the file's blocks, and the
      inode's block. */
  ghost function TruncLogs(l: Layout, O: map<nat, Slot>, i: nat): set<nat> {
    MapsOf(l, OwnedBelow(O, i, MAXFILE + 1)) + {IBlock(l, i)}
  }

  /** That is one more than the former, and at most one more than the free map has blocks. */
  lemma TruncCost(l: Layout, B: seq<Block>, I: seq<Inode>, O: map<nat, Slot>, i: nat)
    requires Owned(l, B, I, O) && i < |I| && IBlock(l, i) < l.bmapstart
    ensures |TruncLogs(l, O, i)| == |MapsOf(l, OwnedBelow(O, i, MAXFILE + 1))| + 1
    ensures |TruncLogs(l, O, i)| <= l.datastart - l.bmapstart + 1
  {
    var maps := MapsOf(l, OwnedBelow(O, i, MAXFILE + 1));
    forall m | m in maps ensures l.bmapstart <= m < l.datastart {
      var b :| b in OwnedBelow(O, i, MAXFILE + 1) && m == BBlock(l, b);
      MapBlockPlace(l, b);
    }
    assert IBlock(l, i) !in maps;
    SubsetSize(maps, Range(l.bmapstart, l.datastart));
  }
}
