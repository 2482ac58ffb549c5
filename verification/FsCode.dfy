/** The block allocator and the inode block map of kernel/fs.c. */
module FsCode {
  import opened FsFormat
  import opened FsModel
  import opened FsProofs
  import opened FsInode
  import opened FsContent
  import opened FsLogged
  import LogDisk

  const MAXOPBLOCKS: nat := LogDisk.MAXOPBLOCKS

  /** Blocks that share a block of the free map. */
  lemma SameMapBlock(l: Layout, b: nat, bi: nat)
    requires b % BPB == 0 && bi < BPB
    ensures BBlock(l, b + bi) == BBlock(l, b) && (b + bi) % BPB == bi
  {
    assert b == b / BPB * BPB;
  }

  /** The block numbers of an inode without blocks. */
  function NoAddrs(): (r: seq<nat>)
    ensures |r| == NDIRECT + 1 && forall k :: 0 <= k <= NDIRECT ==> r[k] == 0
  {
    seq(NDIRECT + 1, k => 0)
  }

  /** The block that the next byte after tot belongs to, or one beyond the disk. */
  function TornBlock(B: seq<Block>, ip: Inode, off: nat, tot: nat): nat
    requires |ip.addrs| == NDIRECT + 1 && ip.addrs[NDIRECT] < |B| && off + tot < MAXFILE * BSIZE
  {
    var a := Addr(B, ip, (off + tot) / BSIZE);
    if a == 0 then |B| else a
  }

  /** The source cannot be read further, or the next block is not mapped and the disk is full. */
  ghost predicate StoppedAt(l: Layout, B: seq<Block>, ip: Inode, off: nat, tot: nat, w: nat, readable: nat, n: nat)
    requires |ip.addrs| == NDIRECT + 1 && ip.addrs[NDIRECT] < |B| && off + tot < MAXFILE * BSIZE
    requires LayoutOk(l) && |B| == l.size
  {
    || (w == readable && readable < n)
    || (w == tot && DiskFull(l, B) && Addr(B, ip, (off + tot) / BSIZE) == 0)
  }

  class FileSys {
    const l: Layout
    var blocks: seq<Block>    // contents as seen through the cache
    var inodes: seq<Inode>    // in memory
    ghost var owner: map<nat, Slot>
    ghost var logged: set<nat>  // blocks passed to log_write in this transaction

    ghost predicate Valid()
      reads this
    {
      Owned(l, blocks, inodes, owner) && InodeArea(l, |inodes|)
    }

    /** A freshly formatted disk: just the metadata is marked, and n inodes are empty. */
    constructor (l: Layout, blocks: seq<Block>, n: nat)
      requires LayoutOk(l) && |blocks| == l.size && InodeArea(l, n)
      requires forall b :: 0 <= b < l.size ==> (Used(l, blocks, b) <==> b < l.datastart)
      ensures Filled() && this.l == l && this.blocks == blocks && |inodes| == n && owner == map[] && logged == {}
      ensures forall i :: 0 <= i < n ==> inodes[i] == Inode(NoAddrs(), 0, 0, 0)
    {
      this.l, this.blocks := l, blocks;
      inodes := seq(n, i => Inode(NoAddrs(), 0, 0, 0));
      owner, logged := map[], {};
    }

    /** A file system in use, between transactions. */
    constructor Running(l: Layout, blocks: seq<Block>, inodes: seq<Inode>, ghost owner: map<nat, Slot>)
      requires Owned(l, blocks, inodes, owner) && InodeArea(l, |inodes|) && AllFilled(l, blocks, inodes)
      ensures Filled() && this.l == l && this.blocks == blocks && this.inodes == inodes && this.owner == owner
      ensures logged == {}
    {
      this.l, this.blocks, this.inodes, this.owner, logged := l, blocks, inodes, owner, {};
    }

    /** Inode i on disk. */
    ghost function OnDisk(i: nat): Inode
      requires Valid() && i < |inodes|
      reads this
    {
      InInodeArea(l, |inodes|, i);
      Dinode(l, blocks, i)
    }

    // ----- blocks

    /** balloc's scan of the free map: the first block whose bit is clear, or size. */
    method FirstFree() returns (r: nat)
      requires LayoutOk(l) && |blocks| == l.size
      ensures r <= l.size && (r < l.size ==> !Used(l, blocks, r))
      ensures forall b :: 0 <= b < r ==> Used(l, blocks, b)
    {
      var b := 0;
      while b < l.size
        invariant b % BPB == 0
        invariant forall c :: 0 <= c < b && c < l.size ==> Used(l, blocks, c)
      {
        var bi := FirstIn(b);
        if bi < BPB && b + bi < l.size {
          return b + bi;
        }
        b := b + BPB;
      }
      return l.size;
    }

    /** The inner loop, over the bits of one block of the free map. */
    method FirstIn(b: nat) returns (bi: nat)
      requires LayoutOk(l) && |blocks| == l.size && b % BPB == 0 && b < l.size
      ensures bi <= BPB && (bi < BPB && b + bi < l.size ==> !Used(l, blocks, b + bi))
      ensures forall c :: b <= c < b + bi && c < l.size ==> Used(l, blocks, c)
      ensures bi < BPB && b + bi >= l.size ==> forall c :: b <= c < l.size ==> Used(l, blocks, c)
    {
      bi := 0;
      while bi < BPB && b + bi < l.size
        invariant bi <= BPB
        invariant forall c :: b <= c < b + bi && c < l.size ==> Used(l, blocks, c)
      {
        SameMapBlock(l, b, bi);
        if !BitAt(blocks[BBlock(l, b)], bi) {
          return;
        }
        bi := bi + 1;
      }
    }

    /** Allocates the first free block and zeroes it; 0 when the disk is full. */
    method Balloc() returns (r: nat)
      requires LayoutOk(l) && |blocks| == l.size
      requires forall b :: 0 <= b < l.datastart ==> Used(l, blocks, b)
      modifies this`blocks, this`logged
      ensures r == 0 ==> blocks == old(blocks) && logged == old(logged)
      ensures r == 0 ==> forall b :: 0 <= b < l.size ==> Used(l, blocks, b)
      ensures r != 0 ==> l.datastart <= r < l.size && !Used(l, old(blocks), r)
      ensures r != 0 ==> forall b :: 0 <= b < r ==> Used(l, old(blocks), b)
      ensures r != 0 ==> BitSet(l, old(blocks), blocks, r) && SameData(l, old(blocks), blocks, {r}) && IsZero(blocks[r])
      ensures r != 0 ==> logged == old(logged) + {BBlock(l, r), r}
      ensures r != 0 ==> forall b :: 0 <= b < l.size && b != BBlock(l, r) && b != r ==> blocks[b] == old(blocks)[b]
    {
      r := FirstFree();
      if r == l.size {
        return 0;
      }
      MarkSetsBit(l, blocks, r);
      blocks := blocks[BBlock(l, r) := Marked(blocks[BBlock(l, r)], r % BPB)];
      logged := logged + {BBlock(l, r)};
      Bzero(r);
    }

    method Bzero(b: nat)
      requires LayoutOk(l) && |blocks| == l.size && l.datastart <= b < l.size
      modifies this`blocks, this`logged
      ensures SameBits(l, old(blocks), blocks) && SameData(l, old(blocks), blocks, {b}) && IsZero(blocks[b])
      ensures logged == old(logged) + {b} && blocks == old(blocks)[b := blocks[b]]
    {
      DataWriteKeepsBits(l, blocks, b, seq(BSIZE, i => 0));
      blocks := blocks[b := seq(BSIZE, i => 0)];
      logged := logged + {b};
    }

    /** Frees block b.  The source panics when b is free: callers must rule that out. */
    method Bfree(b: nat)
      requires LayoutOk(l) && |blocks| == l.size && b < l.size && Used(l, blocks, b)
      modifies this`blocks, this`logged
      ensures BitCleared(l, old(blocks), blocks, b) && SameData(l, old(blocks), blocks, {})
      ensures logged == old(logged) + {BBlock(l, b)} && SameInodes(l, old(blocks), blocks)
    {
      ClearClearsBit(l, blocks, b);
      MapBlockPlace(l, b);
      blocks := blocks[BBlock(l, b) := Cleared(blocks[BBlock(l, b)], b % BPB)];
      logged := logged + {BBlock(l, b)};
    }

    // ----- inode content

    /** bmap's allocation into one of the inode's own slots, direct or indirect. */
    method AllocAddr(i: nat, k: nat, ghost bn: nat) returns (addr: nat)
      requires Valid() && i < |inodes| && k <= NDIRECT && inodes[i].addrs[k] == 0 && (k == bn || k == NDIRECT <= bn)
      modifies this`blocks, this`inodes, this`owner, this`logged
      ensures Valid()
      ensures addr == 0 ==>
        blocks == old(blocks) && inodes == old(inodes) && owner == old(owner) && logged == old(logged)
      ensures addr == 0 ==> DiskFull(l, blocks)
      ensures addr != 0 ==>
        && inodes == old(inodes)[i := old(inodes)[i].(addrs := old(inodes)[i].addrs[k := addr])]
        && addr !in old(owner) && owner == old(owner)[addr := Slot(i, if k == NDIRECT then MAXFILE else k)]
        && l.datastart <= addr < l.size && SameData(l, old(blocks), blocks, {addr}) && IsZero(blocks[addr])
        && logged == old(logged) + {BBlock(l, addr), addr}
      ensures Tidy(l, old(blocks), blocks, old(logged), logged, old(owner), owner, Span(i, bn, bn + 1),
                   inodes[i].addrs[NDIRECT])
    {
      TidyNothing(l, blocks, logged, owner, Span(i, bn, bn + 1), inodes[i].addrs[NDIRECT]);
      MetadataUsed(l, blocks, inodes, owner);
      addr := Balloc();
      if addr != 0 {
        UnusedUnowned(l, old(blocks), inodes, owner, addr);
        AllocInInode(l, old(blocks), inodes, owner, blocks, i, k, addr);
        ghost var w := Slot(i, if k == NDIRECT then MAXFILE else k);
        inodes := inodes[i := inodes[i].(addrs := inodes[i].addrs[k := addr])];
        TidyOne(l, old(blocks), blocks, old(logged), owner, addr, w, Span(i, bn, bn + 1), inodes[i].addrs[NDIRECT]);
        owner := owner[addr := w];
      }
    }

    /** bmap's allocation into an entry of the indirect block. */
    method AllocEntry(i: nat, bn: nat) returns (addr: nat)
      requires Valid() && i < |inodes| && NDIRECT <= bn < MAXFILE
      requires inodes[i].addrs[NDIRECT] != 0 && Addr(blocks, inodes[i], bn) == 0
      modifies this`blocks, this`owner, this`logged
      ensures Valid()
      ensures addr == 0 ==> blocks == old(blocks) && owner == old(owner) && logged == old(logged)
      ensures addr == 0 ==> DiskFull(l, blocks)
      ensures addr != 0 ==>
        var d := inodes[i].addrs[NDIRECT];
        && addr !in old(owner) && owner == old(owner)[addr := Slot(i, bn)] && addr <= UINT_MAX
        && l.datastart <= addr < l.size && SameData(l, old(blocks), blocks, {addr, d}) && IsZero(blocks[addr])
        && blocks[d] == WithWord(old(blocks)[d], bn - NDIRECT, addr)
        && logged == old(logged) + {BBlock(l, addr), addr, d}
      ensures Tidy(l, old(blocks), blocks, old(logged), logged, old(owner), owner, Span(i, bn, bn + 1),
                   inodes[i].addrs[NDIRECT])
    {
      TidyNothing(l, blocks, logged, owner, Span(i, bn, bn + 1), inodes[i].addrs[NDIRECT]);
      var d := inodes[i].addrs[NDIRECT];
      MetadataUsed(l, blocks, inodes, owner);
      IndirectIsOwned(l, blocks, inodes, owner, i);
      addr := Balloc();
      if addr != 0 {
        UnusedUnowned(l, old(blocks), inodes, owner, addr);
        DataWriteKeepsBits(l, blocks, d, WithWord(blocks[d], bn - NDIRECT, addr));
        blocks := blocks[d := WithWord(blocks[d], bn - NDIRECT, addr)];
        logged := logged + {d};
        AllocInIndirect(l, old(blocks), inodes, owner, blocks, i, bn, addr);
        TidyOne(l, old(blocks), blocks, old(logged), owner, addr, Slot(i, bn), Span(i, bn, bn + 1), d);
        assert logged == old(logged) + LoggedFor(l, addr, Slot(i, bn), d);
        owner := owner[addr := Slot(i, bn)];
      }
    }

    /** The disk block of the bn-th block of file i, allocated if there is none; 0 when the
        disk is full. */
    method Bmap(i: nat, bn: nat) returns (addr: nat)
      requires Valid() && i < |inodes| && bn < MAXFILE
      modifies this`blocks, this`inodes, this`owner, this`logged
      ensures Valid() && Grows(l, old(blocks), old(inodes), old(owner), blocks, inodes, owner, i, bn)
      ensures addr == Addr(blocks, inodes[i], bn)
      ensures Addr(old(blocks), old(inodes)[i], bn) != 0 ==>
        blocks == old(blocks) && inodes == old(inodes) && owner == old(owner) && logged == old(logged)
      ensures addr == 0 ==> DiskFull(l, blocks)
      ensures addr != 0 ==> l.datastart <= addr < l.size && addr in owner && owner[addr] == Slot(i, bn)
      ensures addr != 0 && Addr(old(blocks), old(inodes)[i], bn) == 0 ==> IsZero(blocks[addr])
      ensures Tidy(l, old(blocks), blocks, old(logged), logged, old(owner), owner, Span(i, bn, bn + 1),
                   inodes[i].addrs[NDIRECT])
    {
      GrowsNot(l, blocks, inodes, owner, i, bn);
      TidyNothing(l, blocks, logged, owner, Span(i, bn, bn + 1), inodes[i].addrs[NDIRECT]);
      if bn < NDIRECT {
        addr := inodes[i].addrs[bn];
        if addr == 0 {
          addr := AllocAddr(i, bn, bn);
          if addr != 0 {
            AddrGrows(l, old(blocks), old(inodes), old(owner), blocks, i, bn, addr, bn);
          }
        }
      } else {
        addr := BmapIndirect(i, bn);
      }
      if addr != 0 {
        SlotIsOwned(l, blocks, inodes, owner, i, bn);
      }
    }

    /** bmap's indirect block, allocated if there is none. */
    method Indirect(i: nat, ghost bn: nat) returns (d: nat)
      requires Valid() && i < |inodes| && NDIRECT <= bn < MAXFILE
      modifies this`blocks, this`inodes, this`owner, this`logged
      ensures Valid() && Grows(l, old(blocks), old(inodes), old(owner), blocks, inodes, owner, i, bn)
      ensures d == inodes[i].addrs[NDIRECT] && (d == 0 ==> DiskFull(l, blocks))
      ensures old(inodes)[i].addrs[NDIRECT] != 0 ==>
        blocks == old(blocks) && inodes == old(inodes) && owner == old(owner) && logged == old(logged)
      ensures Addr(blocks, inodes[i], bn) == Addr(old(blocks), old(inodes)[i], bn)
      ensures Tidy(l, old(blocks), blocks, old(logged), logged, old(owner), owner, Span(i, bn, bn + 1),
                   inodes[i].addrs[NDIRECT])
    {
      GrowsNot(l, blocks, inodes, owner, i, bn);
      TidyNothing(l, blocks, logged, owner, Span(i, bn, bn + 1), inodes[i].addrs[NDIRECT]);
      d := inodes[i].addrs[NDIRECT];
      if d == 0 {
        d := AllocAddr(i, NDIRECT, bn);
        if d != 0 {
          AddrGrows(l, old(blocks), old(inodes), old(owner), blocks, i, NDIRECT, d, bn);
        }
      }
    }

    /** bmap for a block beyond the direct ones. */
    method BmapIndirect(i: nat, bn: nat) returns (addr: nat)
      requires Valid() && i < |inodes| && NDIRECT <= bn < MAXFILE
      modifies this`blocks, this`inodes, this`owner, this`logged
      ensures Valid() && Grows(l, old(blocks), old(inodes), old(owner), blocks, inodes, owner, i, bn)
      ensures addr == Addr(blocks, inodes[i], bn)
      ensures Addr(old(blocks), old(inodes)[i], bn) != 0 ==>
        blocks == old(blocks) && inodes == old(inodes) && owner == old(owner) && logged == old(logged)
      ensures addr == 0 ==> DiskFull(l, blocks)
      ensures addr != 0 && Addr(old(blocks), old(inodes)[i], bn) == 0 ==>
        l.datastart <= addr < l.size && IsZero(blocks[addr])
      ensures Tidy(l, old(blocks), blocks, old(logged), logged, old(owner), owner, Span(i, bn, bn + 1),
                   inodes[i].addrs[NDIRECT])
    {
      var d := Indirect(i, bn);
      if d == 0 {
        return 0;
      }
      ghost var blocks1, inodes1, owner1, logged1 := blocks, inodes, owner, logged;
      addr := Word(blocks[d], bn - NDIRECT);
      if addr == 0 {
        addr := AllocEntry(i, bn);
        if addr != 0 {
          EntryGrows(l, blocks1, inodes1, owner1, blocks, i, bn, addr);
          GrowsTwice(l, old(blocks), old(inodes), old(owner), blocks1, inodes1, owner1, blocks, inodes, owner, i, bn);
          TidyTwice(l, old(blocks), blocks1, blocks, old(logged), logged1, logged, old(owner), owner1, owner,
                    Span(i, bn, bn + 1), d, d);
          WithWordAt(blocks1[d], bn - NDIRECT, addr, bn - NDIRECT);
        }
      }
    }

    /** Copies inode i to its place on disk: it reads back from there, and nothing else on
        the disk reads differently. */
    method Iupdate(i: nat)
      requires Valid() && i < |inodes|
      modifies this`blocks, this`logged
      ensures Valid() && OnDisk(i) == inodes[i]
      ensures forall j :: 0 <= j < |inodes| && j != i ==> OnDisk(j) == old(OnDisk(j))
      ensures SameBits(l, old(blocks), blocks) && SameData(l, old(blocks), blocks, {})
      ensures l.inodestart <= IBlock(l, i) < l.bmapstart && blocks == old(blocks)[IBlock(l, i) := blocks[IBlock(l, i)]]
      ensures logged == old(logged) + {IBlock(l, i)}
    {
      InInodeArea(l, |inodes|, i);
      OwnedStorable(l, blocks, inodes, owner, i);
      var b := PutDinode(blocks[IBlock(l, i)], i % IPB, inodes[i]);
      InodeWriteKeeps(l, blocks, inodes, owner, IBlock(l, i), b);
      InodeReplaced(l, blocks, |inodes|, i, b, inodes[i]);
      blocks := blocks[IBlock(l, i) := b];
      logged := logged + {IBlock(l, i)};
    }

    /** Frees block a, if there is one, which inode i had at place k when truncation began, in
        (start, was) and with L0 logged. */
    method FreeAt(i: nat, ghost k: nat, a: nat, ghost start: seq<Block>, ghost was: seq<Inode>, ghost L0: set<nat>)
      requires Owned(l, start, was, owner) && i < |was| && k <= MAXFILE && a == Addr(start, was[i], k)
      requires FreedBelow(l, start, owner, blocks, i, k) && FreesLogged(l, owner, L0, logged, i, k)
      modifies this`blocks, this`logged
      ensures FreedBelow(l, start, owner, blocks, i, k + 1) && FreesLogged(l, owner, L0, logged, i, k + 1)
      ensures SameInodes(l, old(blocks), blocks)
    {
      FreesNext(l, start, was, owner, L0, logged, i, k);
      if a != 0 {
        FreedNext(l, start, was, owner, blocks, i, k);
        Bfree(a);
      } else {
        FreedSkip(l, start, was, owner, blocks, i, k);
      }
    }

    /** The loop of itrunc over the direct blocks. */
    method FreeDirect(i: nat)
      requires Valid() && i < |inodes|
      modifies this`blocks, this`inodes, this`logged
      ensures FreedBelow(l, old(blocks), owner, blocks, i, NDIRECT) && SameInodes(l, old(blocks), blocks)
      ensures FreesLogged(l, owner, old(logged), logged, i, NDIRECT)
      ensures |inodes| == |old(inodes)| && inodes == old(inodes)[i := inodes[i]]
      ensures |inodes[i].addrs| == NDIRECT + 1 && inodes[i].addrs[NDIRECT] == old(inodes)[i].addrs[NDIRECT]
      ensures inodes[i] == old(inodes)[i].(addrs := inodes[i].addrs)
      ensures forall k :: 0 <= k < NDIRECT ==> inodes[i].addrs[k] == 0
    {
      var k := 0;
      while k < NDIRECT
        invariant k <= NDIRECT && FreedBelow(l, old(blocks), owner, blocks, i, k) && SameInodes(l, old(blocks), blocks)
        invariant FreesLogged(l, owner, old(logged), logged, i, k)
        invariant |inodes| == |old(inodes)| && inodes == old(inodes)[i := inodes[i]]
        invariant |inodes[i].addrs| == NDIRECT + 1
        invariant forall m :: k <= m <= NDIRECT ==> inodes[i].addrs[m] == old(inodes)[i].addrs[m]
        invariant inodes[i] == old(inodes)[i].(addrs := inodes[i].addrs)
        invariant forall m :: 0 <= m < k ==> inodes[i].addrs[m] == 0
      {
        assert inodes[i].addrs[k] == Addr(old(blocks), old(inodes)[i], k);
        FreeAt(i, k, inodes[i].addrs[k], old(blocks), old(inodes), old(logged));
        inodes := inodes[i := inodes[i].(addrs := inodes[i].addrs[k := 0])];
        k := k + 1;
      }
    }

    /** The loop of itrunc over the entries of the indirect block d; start is the state
        before truncation. */
    method FreeEntries(i: nat, d: nat, ghost start: seq<Block>, ghost was: seq<Inode>, ghost L0: set<nat>)
      requires Owned(l, start, was, owner) && i < |was| && d == was[i].addrs[NDIRECT] && d != 0
      requires FreedBelow(l, start, owner, blocks, i, NDIRECT) && FreesLogged(l, owner, L0, logged, i, NDIRECT)
      modifies this`blocks, this`logged
      ensures FreedBelow(l, start, owner, blocks, i, MAXFILE) && SameInodes(l, old(blocks), blocks)
      ensures FreesLogged(l, owner, L0, logged, i, MAXFILE)
    {
      IndirectIsOwned(l, start, was, owner, i);
      var j := 0;
      while j < NINDIRECT
        invariant j <= NINDIRECT && FreedBelow(l, start, owner, blocks, i, NDIRECT + j)
        invariant SameInodes(l, old(blocks), blocks) && FreesLogged(l, owner, L0, logged, i, NDIRECT + j)
      {
        var a := Word(blocks[d], j);
        assert a == Addr(start, was[i], NDIRECT + j);
        FreeAt(i, NDIRECT + j, a, start, was, L0);
        j := j + 1;
      }
    }

    /** itrunc's handling of the indirect block. */
    method FreeIndirect(i: nat, ghost start: seq<Block>, ghost was: seq<Inode>, ghost L0: set<nat>)
      requires Owned(l, start, was, owner) && i < |was| == |inodes| && FreedBelow(l, start, owner, blocks, i, NDIRECT)
      requires |inodes[i].addrs| == NDIRECT + 1 && inodes[i].addrs[NDIRECT] == was[i].addrs[NDIRECT]
      requires FreesLogged(l, owner, L0, logged, i, NDIRECT)
      modifies this`blocks, this`inodes, this`logged
      ensures FreedBelow(l, start, owner, blocks, i, MAXFILE + 1) && SameInodes(l, old(blocks), blocks)
      ensures FreesLogged(l, owner, L0, logged, i, MAXFILE + 1)
      ensures inodes == old(inodes)[i := old(inodes)[i].(addrs := old(inodes)[i].addrs[NDIRECT := 0])]
    {
      var d := inodes[i].addrs[NDIRECT];
      if d != 0 {
        FreeEntries(i, d, start, was, L0);
        FreeAt(i, MAXFILE, d, start, was, L0);
        inodes := inodes[i := inodes[i].(addrs := inodes[i].addrs[NDIRECT := 0])];
      } else {
        FreedSkipRest(l, start, was, owner, blocks, i, NDIRECT);
        FreesRest(l, start, was, owner, L0, logged, i, NDIRECT);
        assert inodes[i].addrs[NDIRECT := 0] == inodes[i].addrs;
      }
    }

    /** With the inode blocks untouched, every inode on disk is as before. */
    ghost method InodesOnDisk(B: seq<Block>, I: seq<Inode>)
      requires Valid() && |I| == |inodes| && SameInodes(l, B, blocks)
      ensures forall j :: 0 <= j < |inodes| ==> IBlock(l, j) < |B| && OnDisk(j) == Dinode(l, B, j)
    {
      forall j | 0 <= j < |inodes| ensures IBlock(l, j) < |B| && OnDisk(j) == Dinode(l, B, j) {
        InInodeArea(l, |inodes|, j);
      }
    }

    /** Discards the contents of file i: frees exactly the blocks it owned. */
    method Itrunc(i: nat)
      requires Valid() && i < |inodes|
      modifies this`blocks, this`inodes, this`owner, this`logged
      ensures Valid() && owner == Disowned(old(owner), i)
      ensures FreedBelow(l, old(blocks), old(owner), blocks, i, MAXFILE + 1)
      ensures logged == old(logged) + TruncLogs(l, old(owner), i)
      ensures inodes == old(inodes)[i := old(inodes)[i].(addrs := NoAddrs(), size := 0)]
      ensures OnDisk(i) == inodes[i] && forall j :: 0 <= j < |inodes| && j != i ==> OnDisk(j) == old(OnDisk(j))
      ensures old(Filled()) ==> Filled() && Data(i) == []
      ensures old(Filled()) ==> forall j :: 0 <= j < |inodes| && j != i ==> Data(j) == old(Data(j))
    {
      FreeDirect(i);
      FreeIndirect(i, old(blocks), old(inodes), old(logged));
      inodes := inodes[i := inodes[i].(size := 0)];
      TruncatedKeeps(l, old(blocks), old(inodes), owner, blocks, i, inodes[i]);
      owner := Disowned(owner, i);
      assert inodes[i].addrs == NoAddrs();
      assert inodes == old(inodes)[i := inodes[i]];
      InodesOnDisk(old(blocks), old(inodes));
      Iupdate(i);
      if old(Filled()) {
        OthersAfterItrunc(i, old(blocks), old(inodes), old(owner));
      }
    }

    /** Other files after a truncation of file i. */
    ghost method OthersAfterItrunc(i: nat, B: seq<Block>, I: seq<Inode>, O: map<nat, Slot>)
      requires Valid() && Owned(l, B, I, O) && AllFilled(l, B, I) && SameData(l, B, blocks, {}) && i < |I| == |inodes|
      requires inodes == I[i := inodes[i]] && inodes[i].size == 0
      ensures Filled() && Data(i) == []
      ensures forall j :: 0 <= j < |inodes| && j != i ==> Data(j) == Content(B, I[j])
    {
      forall j | 0 <= j < |inodes| ensures NoHoles(blocks, inodes[j]) && (j != i ==> Data(j) == Content(B, I[j])) {
        if j != i {
          MetadataContent(l, B, I, O, blocks, j);
        }
      }
    }

    /** A valid file system in which every file is mapped up to its size. */
    ghost predicate Filled()
      reads this
    {
      Valid() && AllFilled(l, blocks, inodes)
    }

    ghost function Data(i: nat): seq<Byte>
      requires Valid() && i < |inodes|
      reads this
    {
      Content(blocks, inodes[i])
    }

    /** Every inode is on disk as it is in memory, as it must be between operations. */
    ghost predicate InSync()
      requires Valid()
      reads this
    {
      Synced(l, blocks, inodes)
    }

    /** One pass of readi's loop: bytes [o, o + m) of the file, all in one block. */
    method ReadChunk(i: nat, o: nat, m: nat) returns (bytes: seq<Byte>)
      requires Filled() && i < |inodes| && o < inodes[i].size && o + m <= inodes[i].size && o % BSIZE + m <= BSIZE
      modifies this`blocks, this`inodes, this`owner, this`logged
      ensures blocks == old(blocks) && inodes == old(inodes) && owner == old(owner) && logged == old(logged)
      ensures Filled() && bytes == Data(i)[o..o + m]
    {
      assert o / BSIZE < BlockCount(inodes[i].size);
      var addr := Bmap(i, o / BSIZE);
      BytesOfBlock(l, blocks, inodes, owner, i, o, m);
      bytes := blocks[addr][o % BSIZE..o % BSIZE + m];
    }

    /** One pass of readi's loop: m bytes belong to the next block, of which bytes could be
        copied out. */
    method ReadPass(i: nat, off: nat, tot: nat, want: nat, writable: nat) returns (m: nat, bytes: seq<Byte>)
      requires Filled() && i < |inodes| && tot < want && tot <= writable && off + want <= inodes[i].size
      modifies this`blocks, this`inodes, this`owner, this`logged
      ensures blocks == old(blocks) && inodes == old(inodes) && owner == old(owner) && logged == old(logged) && Filled()
      ensures 0 < m <= want - tot && |bytes| == Min(m, writable - tot)
      ensures bytes == Data(i)[off + tot..off + tot + |bytes|]
    {
      var o := off + tot;
      m := Min(want - tot, BSIZE - o % BSIZE);
      bytes := ReadChunk(i, o, Min(m, writable - tot));
    }

    /** Reads up to n bytes at off into a buffer whose first `writable` bytes can be
        written; -1 when the copy out fails. */
    method Readi(i: nat, off: nat, n: nat, writable: nat) returns (ret: int, out: seq<Byte>)
      requires Filled() && i < |inodes| && off <= UINT_MAX && n <= UINT_MAX
      modifies this`blocks, this`inodes, this`owner, this`logged
      ensures blocks == old(blocks) && inodes == old(inodes) && owner == old(owner) && logged == old(logged)
      ensures off > inodes[i].size || off + n > UINT_MAX ==> ret == 0 && out == []
      ensures off <= inodes[i].size && off + n <= UINT_MAX ==>
        var m := Min(n, inodes[i].size - off);
        if m <= writable then ret == m && out == Data(i)[off..off + m]
        else ret == -1 && out == Data(i)[off..off + writable]
    {
      out := [];
      if off > inodes[i].size || off + n > UINT_MAX {
        return 0, out;
      }
      var want := Min(n, inodes[i].size - off);
      var tot := 0;
      while tot < want
        invariant blocks == old(blocks) && inodes == old(inodes) && owner == old(owner) && logged == old(logged)
        invariant tot <= want && tot <= writable && off + want <= inodes[i].size && Filled()
        invariant out == Data(i)[off..off + tot]
      {
        var m, bytes := ReadPass(i, off, tot, want, writable);
        SlicesJoin(Data(i), off, off + tot, off + tot + |bytes|);
        out := out + bytes;
        if |bytes| < m {
          return -1, out;
        }
        tot := tot + m;
      }
      ret := tot;
    }

    /** The block of a write that stopped after tot bytes, if it has one: its copy failed. */
    ghost function Torn(i: nat, off: nat, tot: nat): nat
      requires Valid() && i < |inodes| && off + tot < MAXFILE * BSIZE
      reads this
    {
      TornBlock(blocks, inodes[i], off, tot)
    }

    /** One pass of writei's loop: block for the next m bytes, of which got can be copied;
        (B0, I0, O0, start) is the state before the write, sp the stretch it is for. */
    method WriteChunk(i: nat, off: nat, data: seq<Byte>, tot: nat, m: nat, got: nat, ghost sp: Span,
                      ghost B0: seq<Block>, ghost I0: seq<Inode>, ghost O0: map<nat, Slot>, ghost start: set<nat>)
      returns (addr: nat)
      requires Valid() && Owned(l, B0, I0, O0) && i < |I0| && NoHoles(B0, I0[i])
      requires sp.inum == i && sp.lo <= (off + tot) / BSIZE < sp.hi
      requires Written(l, B0, I0, O0, blocks, inodes, owner, i, off, data, tot)
      requires WriteTidy(l, B0, start, O0, blocks, logged, owner, sp, inodes[i], off, tot, |blocks|)
      requires got <= m && 0 < m && (off + tot) % BSIZE + m <= BSIZE && (tot == 0 || (off + tot) % BSIZE == 0)
      requires tot + m <= |data| && off + tot + m <= MAXFILE * BSIZE
      modifies this`blocks, this`inodes, this`owner, this`logged
      ensures Valid() && |inodes| == |I0| && addr == Addr(blocks, inodes[i], (off + tot) / BSIZE)
      ensures addr == 0 ==> DiskFull(l, blocks)
      ensures Written(l, B0, I0, O0, blocks, inodes, owner, i, off, data, if addr == 0 then tot else tot + got)
      ensures addr != 0 && got == m ==>
        WriteTidy(l, B0, start, O0, blocks, logged, owner, sp, inodes[i], off, tot + m, |blocks|)
      ensures addr == 0 || got < m ==>
        WriteTidy(l, B0, start, O0, blocks, logged, owner, sp, inodes[i], off, tot, Torn(i, off, tot))
    {
      var bn := (off + tot) / BSIZE;
      addr := Bmap(i, bn);
      WrittenGrows(l, B0, I0, O0, old(blocks), old(inodes), old(owner), blocks, inodes, owner, i, off, data, tot, bn);
      TidyBmap(l, B0, start, O0, old(blocks), old(logged), old(inodes), old(owner), blocks, logged, inodes, owner,
               sp, off, data, tot, bn);
      if addr != 0 {
        CopyChunk(i, off, data, tot, m, got, addr, sp, B0, I0, O0, start);
      }
    }

    /** either_copyin of got bytes into the block for the next m, logged if it succeeds. */
    method CopyChunk(i: nat, off: nat, data: seq<Byte>, tot: nat, m: nat, got: nat, addr: nat, ghost sp: Span,
                     ghost B0: seq<Block>, ghost I0: seq<Inode>, ghost O0: map<nat, Slot>, ghost start: set<nat>)
      requires Valid() && Owned(l, B0, I0, O0) && i < |I0| && NoHoles(B0, I0[i]) && sp.inum == i
      requires Written(l, B0, I0, O0, blocks, inodes, owner, i, off, data, tot)
      requires WriteTidy(l, B0, start, O0, blocks, logged, owner, sp, inodes[i], off, tot, |blocks|)
      requires got <= m && 0 < m && (off + tot) % BSIZE + m <= BSIZE && (tot == 0 || (off + tot) % BSIZE == 0)
      requires tot + m <= |data| && off + tot + m <= MAXFILE * BSIZE
      requires addr == Addr(blocks, inodes[i], (off + tot) / BSIZE) && addr != 0
      modifies this`blocks, this`logged
      ensures Valid() && addr == Addr(blocks, inodes[i], (off + tot) / BSIZE) && addr < |blocks| == |old(blocks)|
      ensures Written(l, B0, I0, O0, blocks, inodes, owner, i, off, data, tot + got)
      ensures got == m ==> WriteTidy(l, B0, start, O0, blocks, logged, owner, sp, inodes[i], off, tot + m, |blocks|)
      ensures got < m ==> WriteTidy(l, B0, start, O0, blocks, logged, owner, sp, inodes[i], off, tot, addr)
    {
      WrittenChunk(l, B0, I0, O0, blocks, inodes, owner, i, off, data, tot, got);
      var b := Put(blocks[addr], (off + tot) % BSIZE, data[tot..tot + got]);
      TidyCopy(l, B0, start, O0, blocks, logged, inodes, owner, sp, off, tot, m, b, got == m);
      blocks := blocks[addr := b];
      if got == m {
        logged := logged + {addr};
      }
    }

    /** writei's loop.  tot bytes were written and logged; w >= tot bytes reached the cache,
        more than tot only when the copy from the source failed part way. */
    method WriteLoop(i: nat, off: nat, data: seq<Byte>, readable: nat) returns (tot: nat, ghost w: nat)
      requires Filled() && i < |inodes| && off <= inodes[i].size && off + |data| <= MAXFILE * BSIZE
      modifies this`blocks, this`inodes, this`owner, this`logged
      ensures Valid() && |inodes| == |old(inodes)|
      ensures tot <= w <= |data| && w <= readable && (w == tot || (w == readable && readable < |data|))
      ensures tot < |data| ==> MustStop(i, off, tot, w, readable, |data|)
      ensures tot == 0 || tot == |data| || (off + tot) % BSIZE == 0
      ensures Written(l, old(blocks), old(inodes), old(owner), blocks, inodes, owner, i, off, data, w)
      ensures WriteTidy(l, old(blocks), old(logged), old(owner), blocks, logged, owner, Touched(i, off, |data|),
                        inodes[i], off, tot, if tot < |data| then Torn(i, off, tot) else |blocks|)
    {
      tot, w := 0, 0;
      WrittenNothing(l, blocks, inodes, owner, i, off, data);
      ExactNothing(l, logged, blocks, inodes[i], owner, off);
      var stop := false;
      while tot < |data| && !stop
        invariant Valid() && |inodes| == |old(inodes)| && tot <= w <= |data| && w <= readable
        invariant tot == 0 || tot == |data| || (off + tot) % BSIZE == 0
        invariant Written(l, old(blocks), old(inodes), old(owner), blocks, inodes, owner, i, off, data, w)
        invariant !stop ==> w == tot
        invariant stop ==> tot < |data| && MustStop(i, off, tot, w, readable, |data|)
        invariant WriteTidy(l, old(blocks), old(logged), old(owner), blocks, logged, owner, Touched(i, off, |data|),
                            inodes[i], off, tot, if stop then Torn(i, off, tot) else |blocks|)
        decreases |data| - tot, !stop
      {
        stop, tot, w := WriteStep(i, off, data, readable, tot, old(blocks), old(inodes), old(owner), old(logged));
      }
    }

    /** Why a write ends early. */
    ghost predicate MustStop(i: nat, off: nat, tot: nat, w: nat, readable: nat, n: nat)
      requires Valid() && i < |inodes| && off + tot < MAXFILE * BSIZE
      reads this
    {
      StoppedAt(l, blocks, inodes[i], off, tot, w, readable, n)
    }

    /** One pass of writei's loop, with its ways out. */
    method WriteStep(i: nat, off: nat, data: seq<Byte>, readable: nat, tot0: nat,
                     ghost B0: seq<Block>, ghost I0: seq<Inode>, ghost O0: map<nat, Slot>, ghost start: set<nat>)
      returns (stop: bool, tot: nat, ghost w: nat)
      requires Valid() && Owned(l, B0, I0, O0) && i < |I0| && NoHoles(B0, I0[i])
      requires Written(l, B0, I0, O0, blocks, inodes, owner, i, off, data, tot0)
      requires tot0 < |data| && tot0 <= readable && (tot0 == 0 || (off + tot0) % BSIZE == 0)
      requires off + |data| <= MAXFILE * BSIZE
      requires WriteTidy(l, B0, start, O0, blocks, logged, owner, Touched(i, off, |data|), inodes[i], off, tot0,
                         |blocks|)
      modifies this`blocks, this`inodes, this`owner, this`logged
      ensures Valid() && |inodes| == |I0| && tot0 <= tot <= w <= |data| && w <= readable
      ensures tot == 0 || tot == |data| || (off + tot) % BSIZE == 0
      ensures Written(l, B0, I0, O0, blocks, inodes, owner, i, off, data, w)
      ensures !stop ==> tot0 < tot == w
      ensures stop ==> tot == tot0 && MustStop(i, off, tot, w, readable, |data|)
      ensures WriteTidy(l, B0, start, O0, blocks, logged, owner, Touched(i, off, |data|), inodes[i], off, tot,
                        if stop then Torn(i, off, tot) else |blocks|)
    {
      var m := NextChunk(i, off, tot0, |data|);
      var got := Min(m, readable - tot0);
      var addr := WriteChunk(i, off, data, tot0, m, got, Touched(i, off, |data|), B0, I0, O0, start);
      stop := addr == 0 || got < m;
      tot := if stop then tot0 else tot0 + m;
      w := if addr == 0 then tot0 else tot0 + got;
    }

    /** How much of the data goes into the next block. */
    static method NextChunk(ghost i: nat, off: nat, tot: nat, n: nat) returns (m: nat)
      requires tot < n && (tot == 0 || (off + tot) % BSIZE == 0)
      ensures m == Min(n - tot, BSIZE - (off + tot) % BSIZE) && 0 < m <= n - tot
      ensures tot + m == n || (off + (tot + m)) % BSIZE == 0
      ensures var sp := Touched(i, off, n); sp.lo <= (off + tot) / BSIZE < sp.hi
    {
      m := Min(n - tot, BSIZE - (off + tot) % BSIZE);
    }

    /** What a write of data at off did to its file since (B0, I0): tot bytes were written,
        w reached the cache. */
    ghost predicate WroteFile(i: nat, off: nat, data: seq<Byte>, tot: nat, w: nat, B0: seq<Block>, I0: seq<Inode>)
      requires Valid() && i < |I0| == |inodes| && Shape(l, B0, I0) && off <= I0[i].size
      reads this
    {
      && tot <= w <= |data| && (tot == 0 || tot == |data| || (off + tot) % BSIZE == 0)
      && inodes[i] == I0[i].(addrs := inodes[i].addrs, size := Max(I0[i].size, off + tot))
      && Data(i) == Spliced(Content(B0, I0[i]), off, data[..w])[..inodes[i].size]
      && OnDisk(i) == inodes[i]
    }

    /** All other files are as in (B0, I0), in memory and on disk. */
    ghost predicate OthersUntouched(i: nat, B0: seq<Block>, I0: seq<Inode>)
      requires Valid() && |I0| == |inodes| && Shape(l, B0, I0)
      reads this
    {
      && (forall j :: 0 <= j < |inodes| && j != i ==>
            inodes[j] == I0[j] && Data(j) == Content(B0, I0[j]) && SameDinode(l, B0, blocks, j))
      && (Synced(l, B0, I0) ==> InSync())
    }

    /** What a write of n bytes, of which tot were written, logged since (B0, O0, L0): its
        blocks, those that taking blocks calls for, the inode's, and no others; and no block
        changed that was not logged, but for the one whose copy failed. */
    ghost predicate LoggedWrite(i: nat, off: nat, n: nat, tot: nat, B0: seq<Block>, O0: map<nat, Slot>, L0: set<nat>)
      requires Valid() && i < |inodes| && off + n <= MAXFILE * BSIZE && tot <= n
      reads this
    {
      && LogsExactly(i, off, tot, O0, L0) && TakenFor(O0, owner, Touched(i, off, n))
      && ChangesLogged(B0, blocks, logged, if tot < n then Torn(i, off, tot) else |blocks|)
    }

    /** Writes data at off, of which the first `readable` bytes can be read from the source.
        Returns the number of bytes written, or -1 when the range is out of bounds. */
    method Writei(i: nat, off: nat, data: seq<Byte>, readable: nat)
      returns (ret: int, ghost w: nat, ghost cost: set<nat>)
      requires Filled() && i < |inodes| && off <= UINT_MAX && |data| <= UINT_MAX
      modifies this`blocks, this`inodes, this`owner, this`logged
      ensures Filled() && |inodes| == |old(inodes)|
      ensures ret == -1 <==> off > old(inodes)[i].size || off + |data| > MAXFILE * BSIZE
      ensures ret == -1 ==>
        blocks == old(blocks) && inodes == old(inodes) && owner == old(owner) && logged == old(logged) && w == 0
      ensures ret != -1 ==> 0 <= ret <= |data| && WroteFile(i, off, data, ret, w, old(blocks), old(inodes))
      ensures ret != -1 ==> w <= readable && (w == ret || (w == readable && readable < |data|))
      ensures ret != -1 && ret < |data| ==> MustStop(i, off, ret, w, readable, |data|)
      ensures ret != -1 ==> LoggedWrite(i, off, |data|, ret, old(blocks), old(owner), old(logged))
      ensures OthersUntouched(i, old(blocks), old(inodes))
      ensures logged <= old(logged) + cost && |cost| <= 2 * Chunks(off, |data|) + 3 - Unaligned(off, |data|)
    {
      w, cost := 0, {};
      if off > inodes[i].size || off + |data| > UINT_MAX {
        SameInodesStay();
        return -1, w, cost;
      }
      if off + |data| > MAXFILE * BSIZE {
        SameInodesStay();
        return -1, w, cost;
      }
      ret, w, cost := WriteInRange(i, off, data, readable);
    }

    ghost method SameInodesStay()
      requires Valid()
      ensures forall j :: 0 <= j < |inodes| ==> SameDinode(l, blocks, blocks, j)
    {
      forall j | 0 <= j < |inodes| ensures SameDinode(l, blocks, blocks, j) {
        InInodeArea(l, |inodes|, j);
      }
    }

    /** Since (O0, L0) a write of tot bytes at off to file i logged its blocks, those that
        taking blocks calls for, the inode's, and no others. */
    ghost predicate LogsExactly(i: nat, off: nat, tot: nat, O0: map<nat, Slot>, L0: set<nat>)
      requires Valid() && i < |inodes|
      reads this
    {
      forall b :: b in logged <==>
        (b in L0 || b == IBlock(l, i) || WriteLogs(l, O0, blocks, inodes[i], owner, off, tot, b))
    }

    /** writei past its range checks. */
    method WriteInRange(i: nat, off: nat, data: seq<Byte>, readable: nat)
      returns (tot: nat, ghost w: nat, ghost cost: set<nat>)
      requires Filled() && i < |inodes| && off <= inodes[i].size && off + |data| <= MAXFILE * BSIZE
      modifies this`blocks, this`inodes, this`owner, this`logged
      ensures Filled() && |inodes| == |old(inodes)|
      ensures tot <= |data| && WroteFile(i, off, data, tot, w, old(blocks), old(inodes))
      ensures w <= readable && (w == tot || (w == readable && readable < |data|))
      ensures tot < |data| ==> MustStop(i, off, tot, w, readable, |data|)
      ensures LoggedWrite(i, off, |data|, tot, old(blocks), old(owner), old(logged))
      ensures OthersUntouched(i, old(blocks), old(inodes))
      ensures logged <= old(logged) + cost && |cost| <= 2 * Chunks(off, |data|) + 3 - Unaligned(off, |data|)
    {
      tot, w := WriteLoop(i, off, data, readable);
      cost := CostBound(l, old(blocks), old(inodes), old(owner), old(logged), blocks, inodes, owner, logged,
                        i, off, |data|, tot);
      EndWrite(i, off, data, tot, w, readable, old(blocks), old(inodes), old(owner), old(logged));
      cost := cost + {IBlock(l, i)};
    }

    /** Why a write stopped and what it logged are not changed by the inode's own write. */
    ghost method LogSettled(i: nat, off: nat, n: nat, tot: nat, w: nat, readable: nat, ip: Inode, B: seq<Block>,
                            L: set<nat>, B0: seq<Block>, O0: map<nat, Slot>, start: set<nat>)
      requires Valid() && i < |inodes| && inodes[i] == ip.(size := inodes[i].size) && ip.addrs[NDIRECT] < |B|
      requires off + n <= MAXFILE * BSIZE && tot <= n && IBlock(l, i) < |B| == |blocks| && SameBits(l, B, blocks)
      requires WriteTidy(l, B0, start, O0, B, L, owner, Touched(i, off, n), ip, off, tot,
                         if tot < n then TornBlock(B, ip, off, tot) else |B|)
      requires blocks == B[IBlock(l, i) := blocks[IBlock(l, i)]]
      requires IBlock(l, i) < l.datastart && logged == L + {IBlock(l, i)}
      requires tot < n ==> StoppedAt(l, B, ip, off, tot, w, readable, n)
      ensures LoggedWrite(i, off, n, tot, B0, O0, start)
      ensures tot < n ==> MustStop(i, off, tot, w, readable, n)
    {
      ghost var except := if tot < n then TornBlock(B, ip, off, tot) else |B|;
      LogDone(i, off, tot, Touched(i, off, n), except, ip, B, L, B0, O0, start);
    }

    /** writei after its loop. */
    method EndWrite(i: nat, off: nat, ghost data: seq<Byte>, tot: nat, ghost w: nat, ghost readable: nat,
                    ghost B0: seq<Block>, ghost I0: seq<Inode>, ghost O0: map<nat, Slot>, ghost L0: set<nat>)
      requires Valid() && Owned(l, B0, I0, O0) && AllFilled(l, B0, I0) && i < |I0| == |inodes|
      requires Written(l, B0, I0, O0, blocks, inodes, owner, i, off, data, w)
      requires tot <= w <= |data| && off <= I0[i].size && off + |data| <= MAXFILE * BSIZE
      requires tot == 0 || tot == |data| || (off + tot) % BSIZE == 0
      requires tot < |data| ==> MustStop(i, off, tot, w, readable, |data|)
      requires WriteTidy(l, B0, L0, O0, blocks, logged, owner, Touched(i, off, |data|), inodes[i], off, tot,
                         if tot < |data| then Torn(i, off, tot) else |blocks|)
      modifies this`blocks, this`inodes, this`logged
      ensures Filled() && |inodes| == |I0| && logged == old(logged) + {IBlock(l, i)}
      ensures WroteFile(i, off, data, tot, w, B0, I0) && OthersUntouched(i, B0, I0)
      ensures tot < |data| ==> MustStop(i, off, tot, w, readable, |data|)
      ensures LoggedWrite(i, off, |data|, tot, B0, O0, L0)
    {
      ghost var B, L, ip := blocks, logged, inodes[i];
      assert tot < |data| ==> StoppedAt(l, B, ip, off, tot, w, readable, |data|);
      PutSize(i, off, data, tot, w, B0, I0, O0);
      LogSettled(i, off, |data|, tot, w, readable, ip, B, L, B0, O0, L0);
    }

    /** The new size, in memory and on disk. */
    method PutSize(i: nat, off: nat, ghost data: seq<Byte>, tot: nat, ghost w: nat,
                   ghost B0: seq<Block>, ghost I0: seq<Inode>, ghost O0: map<nat, Slot>)
      requires Valid() && Owned(l, B0, I0, O0) && AllFilled(l, B0, I0) && i < |I0| == |inodes|
      requires SameInodes(l, B0, blocks)
      requires Written(l, B0, I0, O0, blocks, inodes, owner, i, off, data, w)
      requires tot <= w <= |data| && off <= I0[i].size && off + w <= MAXFILE * BSIZE
      requires tot == 0 || tot == |data| || (off + tot) % BSIZE == 0
      modifies this`blocks, this`inodes, this`logged
      ensures Filled() && |inodes| == |I0| && SameBits(l, old(blocks), blocks)
      ensures inodes[i] == old(inodes)[i].(size := inodes[i].size)
      ensures WroteFile(i, off, data, tot, w, B0, I0) && OthersUntouched(i, B0, I0)
      ensures IBlock(l, i) < |blocks| == |old(blocks)| && blocks == old(blocks)[IBlock(l, i) := blocks[IBlock(l, i)]]
      ensures IBlock(l, i) < l.datastart && logged == old(logged) + {IBlock(l, i)}
    {
      GrowSize(i, off, data, tot, w, B0, I0, O0);
      SettleInode(i, B0, I0);
    }

    /** writei's update of the size. */
    method GrowSize(i: nat, off: nat, ghost data: seq<Byte>, tot: nat, ghost w: nat,
                    ghost B0: seq<Block>, ghost I0: seq<Inode>, ghost O0: map<nat, Slot>)
      requires Valid() && Owned(l, B0, I0, O0) && AllFilled(l, B0, I0) && i < |I0| == |inodes|
      requires Written(l, B0, I0, O0, blocks, inodes, owner, i, off, data, w)
      requires tot <= w && off <= I0[i].size && off + w <= MAXFILE * BSIZE
      modifies this`inodes
      ensures Filled() && |inodes| == |old(inodes)|
      ensures inodes[i] == old(inodes)[i].(size := Max(I0[i].size, off + tot))
      ensures Data(i) == Spliced(Content(B0, I0[i]), off, data[..w])[..inodes[i].size]
      ensures forall j :: 0 <= j < |inodes| && j != i ==> inodes[j] == I0[j] && Data(j) == Content(B0, I0[j])
    {
      WrittenContent(l, B0, I0, O0, blocks, inodes, owner, i, off, data, w, tot);
      if off + tot > inodes[i].size {
        inodes := inodes[i := inodes[i].(size := off + tot)];
      }
      assert inodes[i].size == Max(I0[i].size, off + tot);
    }

    /** iupdate of inode i, where the inode blocks are still those of B0. */
    method SettleInode(i: nat, ghost B0: seq<Block>, ghost I0: seq<Inode>)
      requires Filled() && i < |inodes| == |I0| && SameInodes(l, B0, blocks)
      requires forall j :: 0 <= j < |inodes| && j != i ==> inodes[j] == I0[j]
      modifies this`blocks, this`logged
      ensures Filled() && SameBits(l, old(blocks), blocks) && OnDisk(i) == inodes[i]
      ensures forall j :: 0 <= j < |inodes| ==> Data(j) == old(Data(j))
      ensures forall j :: 0 <= j < |inodes| && j != i ==> SameDinode(l, B0, blocks, j)
      ensures Synced(l, B0, I0) ==> InSync()
      ensures IBlock(l, i) < |blocks| == |old(blocks)| && blocks == old(blocks)[IBlock(l, i) := blocks[IBlock(l, i)]]
      ensures IBlock(l, i) < l.datastart && logged == old(logged) + {IBlock(l, i)}
    {
      InodesOnDisk(B0, inodes);
      Iupdate(i);
      ContentAfterIupdate(old(blocks));
      SyncedAgain(l, B0, I0, blocks, inodes, i);
    }

    /** What a write that ends after tot bytes has logged, once iupdate is done. */
    ghost method LogDone(i: nat, off: nat, tot: nat, sp: Span, except: nat, ip: Inode, B: seq<Block>, L: set<nat>,
                         B0: seq<Block>, O0: map<nat, Slot>, start: set<nat>)
      requires Valid() && i < |inodes| && inodes[i] == ip.(size := inodes[i].size) && ip.addrs[NDIRECT] < |B|
      requires WriteTidy(l, B0, start, O0, B, L, owner, sp, ip, off, tot, except)
      requires IBlock(l, i) < |B| == |blocks| && blocks == B[IBlock(l, i) := blocks[IBlock(l, i)]]
      requires IBlock(l, i) < l.datastart && logged == L + {IBlock(l, i)}
      ensures forall k :: 0 <= k <= MAXFILE ==> Addr(blocks, inodes[i], k) == Addr(B, ip, k)
      ensures LogsExactly(i, off, tot, O0, start)
      ensures ChangesLogged(B0, blocks, logged, except)
    {
      if inodes[i].addrs[NDIRECT] != 0 {
        IndirectIsOwned(l, blocks, inodes, owner, i);
      }
      InInodeArea(l, |inodes|, i);
      TidyDone(l, B0, start, O0, B, L, owner, blocks, sp, ip, inodes[i].size, off, tot, except, IBlock(l, i));
    }

    ghost method ContentAfterIupdate(B: seq<Block>)
      requires Valid() && Owned(l, B, inodes, owner) && AllFilled(l, B, inodes) && SameData(l, B, blocks, {})
      ensures Filled() && forall j :: 0 <= j < |inodes| ==> Data(j) == Content(B, inodes[j])
    {
      forall j | 0 <= j < |inodes| ensures NoHoles(blocks, inodes[j]) && Data(j) == Content(B, inodes[j]) {
        MetadataContent(l, B, inodes, owner, blocks, j);
      }
    }
  }
}
