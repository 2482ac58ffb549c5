/** filewrite of kernel/file.c: a long write as a series of transactions that each fit the log. */
module FileCode {
  import opened FsFormat
  import opened FsModel
  import FsProofs
  import opened FsContent
  import opened FsLogged
  import opened FsCode
  import opened Sets

  /** The most bytes filewrite puts into one transaction. */
  const CHUNK: nat := (MAXOPBLOCKS - 1 - 1 - 2) / 2 * BSIZE

  /** One chunk logs at most MAXOPBLOCKS blocks, wherever it starts. */
  lemma ChunkFits(off: nat, n: nat)
    requires n <= CHUNK
    ensures 2 * Chunks(off, n) + 3 - Unaligned(off, n) <= MAXOPBLOCKS
  {
    assert off == off / BSIZE * BSIZE + off % BSIZE;
    if n > 0 {
      assert (off + n - 1) / BSIZE <= off / BSIZE + (if off % BSIZE == 0 then 2 else 3);
    }
  }

  /** No larger chunk fits at every offset. */
  lemma LargestChunk(n: nat)
    ensures (forall off: nat :: 2 * Chunks(off, n) + 3 - Unaligned(off, n) <= MAXOPBLOCKS) <==> n <= CHUNK
  {
    if n <= CHUNK {
      forall off: nat ensures 2 * Chunks(off, n) + 3 - Unaligned(off, n) <= MAXOPBLOCKS {
        ChunkFits(off, n);
      }
    } else {
      assert (0 + n - 1) / BSIZE >= 3;
      assert 2 * Chunks(0, n) + 3 - Unaligned(0, n) > MAXOPBLOCKS;
    }
  }

  /** now is c with the first w bytes of data written at off, in a file grown by tot of them. */
  ghost predicate Wrote(c: seq<Byte>, off: nat, data: seq<Byte>, tot: nat, w: nat, now: seq<Byte>) {
    if off <= |c| then
      tot <= w <= |data| && |now| == Max(|c|, off + tot) && now == Spliced(c, off, data[..w])[..|now|]
    else tot == 0 && w == 0 && now == c
  }

  /** A negative result counts as no bytes. */
  function Max0(n: int): nat {
    if n < 0 then 0 else n
  }

  lemma WroteNothing(c: seq<Byte>, off: nat, data: seq<Byte>)
    ensures Wrote(c, off, data, 0, 0, c)
  {
    if off <= |c| {
      assert Spliced(c, off, data[..0]) == c;
    }
  }

  /** One more transaction extends what was written. */
  lemma WroteMore(c: seq<Byte>, off: nat, data: seq<Byte>, i: nat, d: seq<Byte>, r: nat, w: nat, prev: seq<Byte>,
                  now: seq<Byte>, all: nat)
    requires Wrote(c, off, data, i, i, prev) && i + |d| <= |data| && d == data[i..i + |d|]
    requires Wrote(prev, off + i, d, r, w, now) && all == i + w
    ensures Wrote(c, off, data, i + r, all, now)
  {
    if off <= |c| {
      assert prev == Spliced(c, off, data[..i]);
      SplicedTwice(c, off, data[..i], d[..w]);
      assert data[..i] + d[..w] == data[..i + w];
    }
  }

  class File {
    const fs: FileSys
    const ip: nat
    var off: nat

    constructor (fs: FileSys, ip: nat)
      ensures this.fs == fs && this.ip == ip && off == 0
    {
      this.fs, this.ip, off := fs, ip, 0;
    }

    /** Every other file is as in (B0, I0). */
    ghost predicate OthersAre(B0: seq<Block>, I0: seq<Inode>)
      reads this, fs
    {
      && fs.Filled() && Shape(fs.l, B0, I0) && |fs.inodes| == |I0| && ip < |I0| && SameFields(I0[ip], fs.inodes[ip])
      && forall j :: 0 <= j < |I0| && j != ip ==> fs.inodes[j] == I0[j] && fs.Data(j) == Content(B0, I0[j])
    }

    /** One transaction of filewrite: begin_op, writei, end_op. */
    method WriteSome(d: seq<Byte>, readable: nat, ghost B0: seq<Block>, ghost I0: seq<Inode>)
      returns (r: int, ghost w: nat, ghost blocks: nat)
      requires ip < |fs.inodes| && off <= UINT_MAX && |d| <= CHUNK && OthersAre(B0, I0)
      modifies this`off, fs
      ensures OthersAre(B0, I0) && |fs.inodes| == |old(fs.inodes)| && off <= UINT_MAX
      ensures blocks <= MAXOPBLOCKS
      ensures r == -1 <==> old(off) > old(fs.inodes)[ip].size || old(off) + |d| > MAXFILE * BSIZE
      ensures r == -1 ==> w == 0 && fs.inodes == old(fs.inodes)
      ensures -1 <= r <= |d| && off == old(off) + Max0(r)
      ensures Wrote(old(fs.Data(ip)), old(off), d, Max0(r), w, fs.Data(ip))
      ensures r != -1 ==> r <= w <= readable && (w == r || (w == readable && readable < |d|))
      ensures 0 <= r < |d| && readable >= |d| ==> FsProofs.DiskFull(fs.l, fs.blocks)
    {
      fs.logged := {};
      ghost var cost;
      r, w, cost := fs.Writei(ip, off, d, readable);
      ChunkFits(off, |d|);
      blocks := |fs.logged|;
      SubsetSize(fs.logged, cost);
      if r == -1 {
        WroteNothing(fs.Data(ip), off, d);
      } else if r > 0 {
        off := off + r;
      }
    }

    /** Whether a write that stopped with n bytes left had to. */
    ghost predicate MustStop(n: nat, short: bool)
      requires fs.Valid() && ip < |fs.inodes|
      reads this, fs
    {
      || short || off > fs.inodes[ip].size || off + Min(n, CHUNK) > MAXFILE * BSIZE
      || FsProofs.DiskFull(fs.l, fs.blocks)
    }

    /** The next n1 bytes in a transaction, after i bytes written at off0 into content c. */
    method WriteMore(data: seq<Byte>, i: nat, n1: nat, readable: nat, ghost c: seq<Byte>, ghost off0: nat,
                     ghost B0: seq<Block>, ghost I0: seq<Inode>)
      returns (ret: int, ghost w: nat, ghost blocks: nat)
      requires OthersAre(B0, I0) && ip < |fs.inodes| && i + n1 <= |data| && n1 <= CHUNK && i <= readable
      requires off == off0 + i <= UINT_MAX && Wrote(c, off0, data, i, i, fs.Data(ip))
      modifies this`off, fs
      ensures OthersAre(B0, I0) && |fs.inodes| == |old(fs.inodes)| && blocks <= MAXOPBLOCKS && off <= UINT_MAX
      ensures -1 <= ret <= n1 && off == off0 + i + Max0(ret) && i + Max0(ret) <= w <= i + n1
      ensures Wrote(c, off0, data, i + Max0(ret), w, fs.Data(ip))
      ensures ret == n1 ==> w == i + n1 <= readable
      ensures ret == -1 ==> off > fs.inodes[ip].size || off + n1 > MAXFILE * BSIZE
      ensures 0 <= ret < n1 ==> readable < i + n1 || FsProofs.DiskFull(fs.l, fs.blocks)
    {
      ghost var prev := fs.Data(ip);
      ghost var w1;
      var d := data[i..i + n1];
      assert |d| == n1;
      ret, w1, blocks := WriteSome(d, readable - i, B0, I0);
      w := i + w1;
      WroteMore(c, off0, data, i, d, Max0(ret), w1, prev, fs.Data(ip), w);
    }

    /** One pass of filewrite's loop, after i bytes written at off0 into content c. */
    method WriteNext(data: seq<Byte>, i: nat, readable: nat, ghost c: seq<Byte>, ghost off0: nat,
                     ghost B0: seq<Block>, ghost I0: seq<Inode>)
      returns (more: bool, r: nat, ghost w: nat, ghost blocks: nat)
      requires OthersAre(B0, I0) && ip < |fs.inodes| && i < |data| && i <= readable
      requires off == off0 + i <= UINT_MAX && Wrote(c, off0, data, i, i, fs.Data(ip))
      modifies this`off, fs
      ensures OthersAre(B0, I0) && |fs.inodes| == |old(fs.inodes)| && blocks <= MAXOPBLOCKS && off <= UINT_MAX
      ensures off == off0 + i + r && i + r <= |data| && Wrote(c, off0, data, i + r, w, fs.Data(ip))
      ensures i + r <= w <= |data| && (more ==> w == i + r <= readable && r > 0)
      ensures !more ==> i + r < |data| && MustStop(|data| - i - r, readable < |data|)
    {
      var n1 := Min(|data| - i, CHUNK);
      var ret;
      ret, w, blocks := WriteMore(data, i, n1, readable, c, off0, B0, I0);
      more := ret == n1;
      r := Max0(ret);
    }

    /** Writes data at the file's offset.  done bytes were written, w >= done reached the
        cache; worst is the largest number of blocks that one of the transactions logged. */
    method FileWrite(data: seq<Byte>, readable: nat) returns (ret: int, ghost done: nat, ghost w: nat, ghost worst: nat)
      requires fs.Filled() && ip < |fs.inodes| && off <= UINT_MAX
      modifies this`off, fs
      ensures fs.Filled() && |fs.inodes| == |old(fs.inodes)|
      ensures worst <= MAXOPBLOCKS
      ensures ret == if done == |data| then |data| else -1
      ensures done <= w <= |data| && off == old(off) + done
      ensures old(off) <= old(fs.inodes)[ip].size ==>
        && fs.inodes[ip].size == Max(old(fs.inodes)[ip].size, off)
        && fs.Data(ip) == Spliced(old(fs.Data(ip)), old(off), data[..w])[..fs.inodes[ip].size]
      ensures old(off) > old(fs.inodes)[ip].size ==> w == 0 && fs.Data(ip) == old(fs.Data(ip))
      ensures done < |data| ==> MustStop(|data| - done, readable < |data|)
      ensures SameFields(old(fs.inodes)[ip], fs.inodes[ip])
      ensures forall j :: 0 <= j < |fs.inodes| && j != ip ==>
        fs.inodes[j] == old(fs.inodes)[j] && fs.Data(j) == old(fs.Data(j))
    {
      done, w, worst := 0, 0, 0;
      var i := 0;
      var more := true;
      WroteNothing(fs.Data(ip), off, data);
      while i < |data| && more
        invariant OthersAre(old(fs.blocks), old(fs.inodes)) && worst <= MAXOPBLOCKS
        invariant i <= w <= |data| && off == old(off) + i <= UINT_MAX && (more ==> w == i <= readable)
        invariant Wrote(old(fs.Data(ip)), old(off), data, i, w, fs.Data(ip))
        invariant !more ==> i < |data| && MustStop(|data| - i, readable < |data|)
        decreases |data| - i, more
      {
        var r;
        ghost var blocks;
        more, r, w, blocks := WriteNext(data, i, readable, old(fs.Data(ip)), old(off), old(fs.blocks), old(fs.inodes));
        worst := Max(worst, blocks);
        i := i + r;
      }
      done := i;
      ret := if i == |data| then |data| else -1;
    }
  }
}
