/** filewrite's chunk is as large as the log allows: a write of that many bytes can log
    MAXOPBLOCKS blocks, and any longer one can log more. */
module FileTight {
  import opened FsFormat
  import opened FsModel
  import opened FsProofs
  import opened FsContent
  import opened FsLogged
  import opened FsCode
  import opened FsTight
  import opened FileCode
  import opened Sets

  /** The gaps of the first k blocks of the free map. */
  function Gaps(k: nat): (s: set<nat>)
    requires k <= 5
    ensures |s| == k && forall b: nat :: b in s <==> b / BPB < k && b == Gap(b / BPB)
  {
    if k == 0 then {} else
      GapPlace(k - 1);
      Gaps(k - 1) + {Gap(k - 1)}
  }

  /** What was taken for the file were gaps. */
  lemma FreshIsGap(d: Disk, B: seq<Block>, I: seq<Inode>, O: map<nat, Slot>, f: nat)
    requires Fits(d) && Owned(Lay(d), B, I, O) && Fresh(Owners(d), O, f)
    ensures f in Gaps(d.maps)
  {
    LaySize(d);
    assert BlockOk(Lay(d), B, I, O, f);
    OwnersAt(d, f);
  }

  /** On a full disk every gap has been taken. */
  lemma FullTakesAll(d: Disk, B: seq<Block>, I: seq<Inode>, O: map<nat, Slot>)
    requires Fits(d) && Owned(Lay(d), B, I, O) && DiskFull(Lay(d), B)
    ensures forall f :: f in Gaps(d.maps) ==> Fresh(Owners(d), O, f)
  {
    LaySize(d);
    forall f | f in Gaps(d.maps) ensures Fresh(Owners(d), O, f) {
      GapPlace(f / BPB);
      assert BlockOk(Lay(d), B, I, O, f);
      OwnersAt(d, f);
    }
  }

  /** The place is past the file's old blocks and filled now. */
  ghost predicate NowFilled(d: Disk, B: seq<Block>, ip: Inode, n: nat)
    requires |ip.addrs| == NDIRECT + 1 && ip.addrs[NDIRECT] < |B|
  {
    d.own <= n <= MAXFILE && Addr(B, ip, n) != 0
  }

  /** The blocks at such places. */
  ghost function BlocksAt(d: Disk, B: seq<Block>, ip: Inode, places: seq<nat>): set<nat>
    requires |ip.addrs| == NDIRECT + 1 && ip.addrs[NDIRECT] < |B|
    requires forall k :: 0 <= k < |places| ==> NowFilled(d, B, ip, places[k])
  {
    if places == [] then {} else
      var k := |places| - 1;
      assert NowFilled(d, B, ip, places[k]);
      BlocksAt(d, B, ip, places[..k]) + {Addr(B, ip, places[k])}
  }

  /** Block f was taken for one of these places of the file. */
  ghost predicate TookPlace(d: Disk, O: map<nat, Slot>, f: nat, places: seq<nat>)
    requires Fits(d)
  {
    Fresh(Owners(d), O, f) && O[f].n in places
  }

  lemma TakeOne(d: Disk, B: seq<Block>, I: seq<Inode>, O: map<nat, Slot>, n: nat)
    requires Fits(d) && Owned(Lay(d), B, I, O) && |I| == Large(d) + 1 && Extends(Owners(d), O)
    requires InodeOk(Lay(d), I[Large(d)]) && NowFilled(d, B, I[Large(d)], n)
    ensures var f := Addr(B, I[Large(d)], n); Fresh(Owners(d), O, f) && O[f].n == n
  {
    SlotIsOwned(Lay(d), B, I, O, Large(d), n);
    NewPlace(d, Addr(B, I[Large(d)], n), n);
  }

  /** Filled places past the file's old blocks hold as many fresh blocks. */
  lemma {:induction false} PlacesTake(d: Disk, B: seq<Block>, I: seq<Inode>, O: map<nat, Slot>, places: seq<nat>)
    requires Fits(d) && Owned(Lay(d), B, I, O) && |I| == Large(d) + 1 && Extends(Owners(d), O)
    requires InodeOk(Lay(d), I[Large(d)])
    requires forall k :: 0 <= k < |places| ==> NowFilled(d, B, I[Large(d)], places[k])
    requires forall j, k :: 0 <= j < k < |places| ==> places[j] != places[k]
    ensures var s := BlocksAt(d, B, I[Large(d)], places);
      |s| == |places| && forall f :: f in s ==> TookPlace(d, O, f, places)
  {
    if places != [] {
      var k := |places| - 1;
      PlacesTake(d, B, I, O, places[..k]);
      TakeOne(d, B, I, O, places[k]);
      var s, a := BlocksAt(d, B, I[Large(d)], places[..k]), Addr(B, I[Large(d)], places[k]);
      assert a in s ==> TookPlace(d, O, a, places[..k]);
      forall f | f in s ensures TookPlace(d, O, f, places) {
        assert TookPlace(d, O, f, places[..k]);
      }
    }
  }

  /** Places past the file's old blocks were empty. */
  lemma NewPlace(d: Disk, f: nat, n: nat)
    requires Fits(d) && d.own <= n <= MAXFILE
    ensures !(f in Owners(d) && Owners(d)[f] == Slot(Large(d), n))
  {
    OwnersAt(d, f);
    if f in Owners(d) {
      AtOfPlace(f);
    }
  }

  /** If as many places were filled as there are gaps, all gaps were taken. */
  lemma PlacesTakeAll(d: Disk, B: seq<Block>, I: seq<Inode>, O: map<nat, Slot>, places: seq<nat>)
    requires Fits(d) && Owned(Lay(d), B, I, O) && |I| == Large(d) + 1 && Extends(Owners(d), O)
    requires |places| == d.maps && InodeOk(Lay(d), I[Large(d)])
    requires forall k :: 0 <= k < |places| ==> NowFilled(d, B, I[Large(d)], places[k])
    requires forall j, k :: 0 <= j < k < |places| ==> places[j] != places[k]
    ensures forall f :: f in Gaps(d.maps) ==> Fresh(Owners(d), O, f)
  {
    PlacesTake(d, B, I, O, places);
    var s := BlocksAt(d, B, I[Large(d)], places);
    forall f | f in s ensures f in Gaps(d.maps) {
      assert TookPlace(d, O, f, places);
      FreshIsGap(d, B, I, O, f);
    }
    SubsetSize(s, Gaps(d.maps));
    assert Gaps(d.maps) == s + (Gaps(d.maps) - s);
  }

  /** With all gaps taken, each is logged, with its block of the free map; so is the inode. */
  lemma GapsLogged(d: Disk, O: map<nat, Slot>, ind: nat, L: set<nat>)
    requires Fits(d) && (forall f :: f in Gaps(d.maps) ==> Fresh(Owners(d), O, f))
    requires forall b :: AllocLogs(Lay(d), Owners(d), O, ind, b) ==> b in L
    requires IBlock(Lay(d), Large(d)) in L
    ensures Least(d) <= L && |Least(d)| == 2 * d.maps + 1
    ensures At(Large(d), d.own - 1) !in Least(d)
  {
    forall b | b in Least(d) ensures b in L {
      if b in Gaps(d.maps) {
        assert LogsFor(Lay(d), O, ind, b, b);
      } else if b in Range(48, 48 + d.maps) {
        GapPlace(b - 48);
        assert Gap(b - 48) in Gaps(d.maps) && LogsFor(Lay(d), O, ind, Gap(b - 48), b);
      }
    }
    LeastSize(d);
  }

  function Least(d: Disk): set<nat>
    requires Fits(d)
  {
    Gaps(d.maps) + Range(48, 48 + d.maps) + {IBlock(Lay(d), Large(d))}
  }

  lemma DisjointSize(a: set<nat>, b: set<nat>)
    requires a !! b
    ensures |a + b| == |a| + |b|
  {
  }

  lemma LeastSize(d: Disk)
    requires Fits(d)
    ensures |Least(d)| == 2 * d.maps + 1 && At(Large(d), d.own - 1) !in Least(d)
  {
    var gaps, maps, i := Gaps(d.maps), Range(48, 48 + d.maps), IBlock(Lay(d), Large(d));
    forall b | b in gaps ensures b >= DATA {
      GapPlace(b / BPB);
    }
    assert i < 48;
    DisjointSize(gaps, maps);
    DisjointSize(gaps + maps, {i});
    AtBelow(d, Large(d), d.own - 1);
    GapIs(d, Large(d), d.own - 1);
  }

  /** The file's last old block stays where it was. */
  lemma OldBlockStays(d: Disk, B: seq<Block>, I: seq<Inode>, O: map<nat, Slot>)
    requires Fits(d) && Owned(Lay(d), B, I, O) && |I| == Large(d) + 1 && Extends(Owners(d), O)
    ensures Addr(B, I[Large(d)], d.own - 1) == At(Large(d), d.own - 1)
  {
    var a := At(Large(d), d.own - 1);
    AtBelow(d, Large(d), d.own - 1);
    GapIs(d, Large(d), d.own - 1);
    PlaceOfAt(Large(d), d.own - 1);
    OwnersAt(d, a);
    assert BlockOk(Lay(d), B, I, O, a);
  }

  /** A file system that runs on such a disk. */
  method Mount(d: Disk) returns (fs: FileSys)
    requires Fits(d)
    ensures fresh(fs) && fs.Filled() && fs.l == Lay(d) && fs.owner == Owners(d) && fs.logged == {}
    ensures |fs.inodes| == Large(d) + 1 && fs.inodes[Large(d)].size == d.size
  {
    TightOwned(d);
    TightFilled(d);
    LaySize(d);
    fs := new FileSys.Running(Lay(d), Blocks(d), Nodes(d), Owners(d));
  }

  /** L is what writing tot bytes at the end of the file logs. */
  ghost predicate Logs(d: Disk, B: seq<Block>, I: seq<Inode>, O: map<nat, Slot>, tot: nat, L: set<nat>)
    requires Fits(d) && Shape(Lay(d), B, I) && |I| == Large(d) + 1
  {
    && Extends(Owners(d), O)
    && forall b :: b in L <==> b == IBlock(Lay(d), Large(d))
                               || WriteLogs(Lay(d), Owners(d), B, I[Large(d)], O, d.size, tot, b)
  }

  lemma AsLogs(d: Disk, B: seq<Block>, I: seq<Inode>, O: map<nat, Slot>, tot: nat, L: set<nat>)
    requires Fits(d) && Shape(Lay(d), B, I) && |I| == Large(d) + 1 && Extends(Owners(d), O)
    requires forall b :: b in L <==> (b in {} || b == IBlock(Lay(d), Large(d))
                                      || WriteLogs(Lay(d), Owners(d), B, I[Large(d)], O, d.size, tot, b))
    ensures Logs(d, B, I, O, tot, L)
  {
  }

  /** A write at the end of the file, on such a disk, by an operation of its own. */
  method Append(d: Disk, data: seq<Byte>) returns (fs: FileSys, ret: nat, ghost w: nat, ghost cost: set<nat>)
    requires Fits(d) && d.size + |data| <= MAXFILE * BSIZE
    ensures fs.Filled() && fs.l == Lay(d) && |fs.inodes| == Large(d) + 1
    ensures ret <= |data| && fs.inodes[Large(d)].size == d.size + ret
    ensures ret < |data| ==> fs.MustStop(Large(d), d.size, ret, w, |data|, |data|)
    ensures Logs(d, fs.blocks, fs.inodes, fs.owner, ret, fs.logged)
    ensures TakenFor(Owners(d), fs.owner, Touched(Large(d), d.size, |data|))
    ensures fs.logged <= cost && |cost| <= 2 * Chunks(d.size, |data|) + 3 - Unaligned(d.size, |data|)
  {
    fs := Mount(d);
    var r;
    r, w, cost := fs.Writei(Large(d), d.size, data, |data|);
    ret := r;
    AsLogs(d, fs.blocks, fs.inodes, fs.owner, ret, fs.logged);
  }

  /** A write that ends in file block last or runs out of disk has taken all gaps, if it
      needs that many blocks. */
  lemma TakesAll(d: Disk, B: seq<Block>, I: seq<Inode>, O: map<nat, Slot>, n: nat, ret: nat, places: seq<nat>)
    requires Fits(d) && Owned(Lay(d), B, I, O) && |I| == Large(d) + 1 && Extends(Owners(d), O)
    requires InodeOk(Lay(d), I[Large(d)]) && NoHoles(B, I[Large(d)])
    requires ret <= n && I[Large(d)].size == d.size + ret && (ret < n ==> DiskFull(Lay(d), B))
    requires |places| == d.maps && forall j, k :: 0 <= j < k < |places| ==> places[j] != places[k]
    requires forall k :: 0 <= k < |places| ==>
      d.own <= places[k] && (places[k] < BlockCount(d.size + n) || places[k] == MAXFILE)
    requires NDIRECT < BlockCount(d.size + n)
    ensures forall f :: f in Gaps(d.maps) ==> Fresh(Owners(d), O, f)
  {
    if ret < n {
      FullTakesAll(d, B, I, O);
    } else {
      assert Addr(B, I[Large(d)], NDIRECT) != 0;
      forall k | 0 <= k < |places| ensures NowFilled(d, B, I[Large(d)], places[k]) {
      }
      PlacesTakeAll(d, B, I, O, places);
    }
  }

  /** All gaps taken, and the write starts in an old block: that one is logged too. */
  lemma LoggedInAll(d: Disk, B: seq<Block>, I: seq<Inode>, O: map<nat, Slot>, ret: nat, L: set<nat>)
    requires Fits(d) && Owned(Lay(d), B, I, O) && |I| == Large(d) + 1 && Logs(d, B, I, O, ret, L)
    requires forall f :: f in Gaps(d.maps) ==> Fresh(Owners(d), O, f)
    ensures 2 * d.maps + 1 <= |L|
    ensures Covers(d.size, ret, d.own - 1) ==> 2 * d.maps + 2 <= |L|
  {
    GapsLogged(d, O, I[Large(d)].addrs[NDIRECT], L);
    SubsetSize(Least(d), L);
    if Covers(d.size, ret, d.own - 1) {
      OldBlockLogged(d, B, I, O, ret, L);
      LeastSize(d);
      SubsetSize(Least(d) + {At(Large(d), d.own - 1)}, L);
    }
  }

  lemma OldBlockLogged(d: Disk, B: seq<Block>, I: seq<Inode>, O: map<nat, Slot>, ret: nat, L: set<nat>)
    requires Fits(d) && Owned(Lay(d), B, I, O) && |I| == Large(d) + 1 && Logs(d, B, I, O, ret, L)
    requires Covers(d.size, ret, d.own - 1)
    ensures At(Large(d), d.own - 1) in L
  {
    OldBlockStays(d, B, I, O);
    assert DataLogs(B, I[Large(d)], d.size, ret, At(Large(d), d.own - 1));
  }

  /** A gap that was taken is at one of the places after the file's old blocks, and not at
      an empty one. */
  lemma GapPut(d: Disk, B: seq<Block>, I: seq<Inode>, O: map<nat, Slot>, sp: Span, q: nat, f: nat)
    requires Fits(d) && Owned(Lay(d), B, I, O) && |I| == Large(d) + 1 && TakenFor(Owners(d), O, sp)
    requires sp.inum == Large(d) && d.own - 1 <= sp.lo && InodeOk(Lay(d), I[Large(d)])
    requires q < MAXFILE && Addr(B, I[Large(d)], q) == 0 && Fresh(Owners(d), O, f)
    ensures O[f].n == MAXFILE || d.own <= O[f].n < sp.hi
    ensures O[f].n != q && O[f].n <= MAXFILE && Addr(B, I[Large(d)], O[f].n) == f
  {
    assert BlockOk(Lay(d), B, I, O, f);
    OldBlockStays(d, B, I, O);
    AtBelow(d, Large(d), d.own - 1);
    GapIs(d, Large(d), d.own - 1);
    PlaceOfAt(Large(d), d.own - 1);
    OwnersAt(d, At(Large(d), d.own - 1));
  }

  predicate Among(n: nat, q: nat, x: nat, y: nat) {
    n == q || n == x || n == y
  }

  /** With more gaps than places but one, and all gaps taken, that one is not empty. */
  lemma GapsPut(d: Disk, B: seq<Block>, I: seq<Inode>, O: map<nat, Slot>, sp: Span, q: nat, x: nat, y: nat)
    requires Fits(d) && 3 < d.maps && Owned(Lay(d), B, I, O) && |I| == Large(d) + 1
    requires TakenFor(Owners(d), O, sp) && InodeOk(Lay(d), I[Large(d)]) && sp.inum == Large(d) && d.own - 1 <= sp.lo
    requires forall f :: f in Gaps(d.maps) ==> Fresh(Owners(d), O, f)
    requires x < MAXFILE && y < MAXFILE && q < MAXFILE
    requires forall n: nat {:trigger Among(n, q, x, y)} :: d.own <= n < sp.hi ==> Among(n, q, x, y)
    ensures Addr(B, I[Large(d)], q) != 0
  {
    var ip, g := I[Large(d)], Gaps(d.maps);
    if Addr(B, ip, q) == 0 {
      var s := {Addr(B, ip, x), Addr(B, ip, y), Addr(B, ip, MAXFILE)};
      forall f | f in g ensures f in s {
        GapPut(d, B, I, O, sp, q, f);
        assert O[f].n == MAXFILE || Among(O[f].n, q, x, y);
      }
      SubsetSize(g, s);
      assert false;
    }
  }

  /** Four gaps are enough for the chunk. */
  lemma ChunkHasRoom(d: Disk, B: seq<Block>, I: seq<Inode>, O: map<nat, Slot>, q: nat)
    requires d == Disk(4, 10, 9 * BSIZE + 1) && Owned(Lay(d), B, I, O) && |I| == Large(d) + 1
    requires TakenFor(Owners(d), O, Touched(Large(d), d.size, CHUNK)) && InodeOk(Lay(d), I[Large(d)])
    requires DiskFull(Lay(d), B) && 9 <= q <= 12
    ensures Addr(B, I[Large(d)], q) != 0
  {
    FullTakesAll(d, B, I, O);
    if q == 9 {
      OldBlockStays(d, B, I, O);
      AtBelow(d, Large(d), 9);
    } else {
      var sp := Touched(Large(d), d.size, CHUNK);
      assert sp.lo == 9 && sp.hi == 13;
      GapsPut(d, B, I, O, sp, q, if q == 10 then 11 else 10, if q == 12 then 11 else 12);
    }
  }

  /** A chunk appended to a file of 9 * BSIZE + 1 bytes is written in full and logs MAXOPBLOCKS
      blocks: three fresh data blocks and the indirect block, all under different blocks of
      the free map, those four, the block it starts in, and the inode's. */
  method ChunkFillsLog(d: Disk, data: seq<Byte>) returns (fs: FileSys, ret: nat)
    requires d == Disk(4, 10, 9 * BSIZE + 1) && |data| == CHUNK
    ensures fs.Filled() && fs.l == Lay(d) && |fs.inodes| == Large(d) + 1
    ensures ret == CHUNK && fs.inodes[Large(d)].size == d.size + ret
    ensures Logs(d, fs.blocks, fs.inodes, fs.owner, ret, fs.logged) && |fs.logged| == MAXOPBLOCKS
  {
    ghost var w, cost;
    fs, ret, w, cost := Append(d, data);
    assert BlockCount(d.size + |data|) == 13 && d.size / BSIZE == 9;
    if ret < CHUNK {
      ChunkHasRoom(d, fs.blocks, fs.inodes, fs.owner, (d.size + ret) / BSIZE);
    }
    TakesAll(d, fs.blocks, fs.inodes, fs.owner, |data|, ret, [10, 11, 12, MAXFILE]);
    assert Covers(d.size, ret, 9);
    LoggedInAll(d, fs.blocks, fs.inodes, fs.owner, ret, fs.logged);
    ChunkFits(d.size, |data|);
    SubsetSize(fs.logged, cost);
  }

  /** Any longer write can log more than MAXOPBLOCKS blocks: at the end of a file of
      NDIRECT blocks it needs four fresh data blocks and the indirect block. */
  method LongerOverflowsLog(d: Disk, data: seq<Byte>) returns (fs: FileSys, ret: nat)
    requires d == Disk(5, 12, 12 * BSIZE) && CHUNK < |data| <= NINDIRECT * BSIZE
    ensures fs.Filled() && fs.l == Lay(d) && |fs.inodes| == Large(d) + 1
    ensures ret <= |data| && fs.inodes[Large(d)].size == d.size + ret
    ensures Logs(d, fs.blocks, fs.inodes, fs.owner, ret, fs.logged) && |fs.logged| > MAXOPBLOCKS
  {
    ghost var w, cost;
    fs, ret, w, cost := Append(d, data);
    assert BlockCount(d.size + |data|) >= 16;
    TakesAll(d, fs.blocks, fs.inodes, fs.owner, |data|, ret, [12, 13, 14, 15, MAXFILE]);
    LoggedInAll(d, fs.blocks, fs.inodes, fs.owner, ret, fs.logged);
  }
}
