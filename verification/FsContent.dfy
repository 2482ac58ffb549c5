/** A file as a plain byte sequence, and how block writes act on it. */
module FsContent {
  import opened FsFormat
  import opened FsModel
  import opened FsProofs

  /** Blocks that a file of this size occupies. */
  function BlockCount(size: nat): nat {
    (size + BSIZE - 1) / BSIZE
  }

  /** Every block below the file's size is mapped. */
  ghost predicate NoHoles(blocks: seq<Block>, ip: Inode)
    requires |ip.addrs| == NDIRECT + 1 && ip.addrs[NDIRECT] < |blocks| && ip.size <= MAXFILE * BSIZE
  {
    forall n :: 0 <= n < BlockCount(ip.size) ==> Addr(blocks, ip, n) != 0
  }

  /** Byte k of a file, where it is mapped. */
  function ByteAt(blocks: seq<Block>, ip: Inode, k: nat): Byte
    requires |ip.addrs| == NDIRECT + 1 && ip.addrs[NDIRECT] < |blocks| && k < MAXFILE * BSIZE
  {
    var a := Addr(blocks, ip, k / BSIZE);
    if a < |blocks| then blocks[a][k % BSIZE] else 0
  }

  /** The first n bytes of a file. */
  ghost function Prefix(blocks: seq<Block>, ip: Inode, n: nat): (c: seq<Byte>)
    requires |ip.addrs| == NDIRECT + 1 && ip.addrs[NDIRECT] < |blocks| && n <= MAXFILE * BSIZE
    ensures |c| == n
  {
    if n == 0 then [] else Prefix(blocks, ip, n - 1) + [ByteAt(blocks, ip, n - 1)]
  }

  ghost function Content(blocks: seq<Block>, ip: Inode): (c: seq<Byte>)
    requires |ip.addrs| == NDIRECT + 1 && ip.addrs[NDIRECT] < |blocks| && ip.size <= MAXFILE * BSIZE
    ensures |c| == ip.size
  {
    Prefix(blocks, ip, ip.size)
  }

  lemma {:induction false} PrefixAt(blocks: seq<Block>, ip: Inode, n: nat)
    requires |ip.addrs| == NDIRECT + 1 && ip.addrs[NDIRECT] < |blocks| && n <= MAXFILE * BSIZE
    ensures forall k :: 0 <= k < n ==> Prefix(blocks, ip, n)[k] == ByteAt(blocks, ip, k)
  {
    if n > 0 {
      PrefixAt(blocks, ip, n - 1);
    }
  }

  /** The content, byte by byte. */
  lemma ContentAt(blocks: seq<Block>, ip: Inode)
    requires |ip.addrs| == NDIRECT + 1 && ip.addrs[NDIRECT] < |blocks| && ip.size <= MAXFILE * BSIZE
    ensures forall k :: 0 <= k < ip.size ==> Content(blocks, ip)[k] == ByteAt(blocks, ip, k)
  {
    PrefixAt(blocks, ip, ip.size);
  }

  /** Equal bytes make equal contents. */
  lemma SameContent(blocks: seq<Block>, ip: Inode, blocks': seq<Block>, ip': Inode)
    requires |ip.addrs| == NDIRECT + 1 && ip.addrs[NDIRECT] < |blocks| && ip.size <= MAXFILE * BSIZE
    requires |ip'.addrs| == NDIRECT + 1 && ip'.addrs[NDIRECT] < |blocks'| && ip'.size == ip.size
    requires forall k :: 0 <= k < ip.size ==> ByteAt(blocks', ip', k) == ByteAt(blocks, ip, k)
    ensures Content(blocks', ip') == Content(blocks, ip)
  {
    ContentAt(blocks, ip);
    ContentAt(blocks', ip');
  }

  /** c with d written over it from off on, and longer if need be. */
  function Spliced(c: seq<Byte>, off: nat, d: seq<Byte>): seq<Byte>
    requires off <= |c|
  {
    c[..off] + d + if off + |d| <= |c| then c[off + |d|..] else []
  }

  /** A block with d written into it at position at. */
  function Put(b: Block, at: nat, d: seq<Byte>): Block
    requires at + |d| <= BSIZE
  {
    b[..at] + d + b[at + |d|..]
  }

  predicate StoredAt(blocks: seq<Block>, ip: Inode, k: nat, x: Byte)
    requires |ip.addrs| == NDIRECT + 1 && ip.addrs[NDIRECT] < |blocks|
  {
    k < MAXFILE * BSIZE && Addr(blocks, ip, k / BSIZE) != 0 && ByteAt(blocks, ip, k) == x
  }

  /** data[..w] stands in the file from off on. */
  ghost predicate Stored(B: seq<Block>, ip: Inode, off: nat, data: seq<Byte>, w: nat)
    requires |ip.addrs| == NDIRECT + 1 && ip.addrs[NDIRECT] < |B|
  {
    w <= |data| && forall t :: 0 <= t < w ==> StoredAt(B, ip, off + t, data[t])
  }

  /** The file's old bytes outside [off, off + w) are as before. */
  ghost predicate RestKept(B0: seq<Block>, ip0: Inode, B: seq<Block>, ip: Inode, off: nat, w: nat)
    requires |ip0.addrs| == NDIRECT + 1 && ip0.addrs[NDIRECT] < |B0| && ip0.size <= MAXFILE * BSIZE
    requires |ip.addrs| == NDIRECT + 1 && ip.addrs[NDIRECT] < |B|
  {
    forall k :: 0 <= k < ip0.size && !(off <= k < off + w) ==> ByteAt(B, ip, k) == ByteAt(B0, ip0, k)
  }

  /** Other files are as before, and no mapping or ownership was lost. */
  ghost predicate OthersKept(l: Layout, B0: seq<Block>, I0: seq<Inode>, O0: map<nat, Slot>,
                             B: seq<Block>, I: seq<Inode>, O: map<nat, Slot>, i: nat)
    requires Shape(l, B0, I0) && Shape(l, B, I)
  {
    && |I| == |I0| && i < |I| && (forall j :: 0 <= j < |I| && j != i ==> I[j] == I0[j])
    && I[i] == I0[i].(addrs := I[i].addrs)
    && (forall j, n :: 0 <= j < |I| && 0 <= n <= MAXFILE ==> Addr(B0, I0[j], n) == 0 || AddrSame(B0, I0, B, I, j, n))
    && (forall b :: b in O0 ==> OwnerKept(B0, O0, B, O, i, b))
  }

  predicate OwnerKept(B0: seq<Block>, O0: map<nat, Slot>, B: seq<Block>, O: map<nat, Slot>, i: nat, b: nat)
    requires b in O0
  {
    b in O && O[b] == O0[b] && (O0[b].inum != i && O0[b].n < MAXFILE && b < |B| && b < |B0| ==> B[b] == B0[b])
  }

  /** A write to file i has stored data[..w] from off on, and nothing else, since (B0, I0, O0). */
  ghost predicate Written(l: Layout, B0: seq<Block>, I0: seq<Inode>, O0: map<nat, Slot>,
                          B: seq<Block>, I: seq<Inode>, O: map<nat, Slot>,
                          i: nat, off: nat, data: seq<Byte>, w: nat)
    requires Shape(l, B0, I0) && Shape(l, B, I)
  {
    && OthersKept(l, B0, I0, O0, B, I, O, i)
    && Stored(B, I[i], off, data, w)
    && RestKept(B0, I0[i], B, I[i], off, w)
  }

  lemma WrittenNothing(l: Layout, B: seq<Block>, I: seq<Inode>, O: map<nat, Slot>, i: nat, off: nat, data: seq<Byte>)
    requires Owned(l, B, I, O) && i < |I|
    ensures Written(l, B, I, O, B, I, O, i, off, data, 0)
  {
  }

  /** bmap does not disturb what was written. */
  lemma WrittenGrows(l: Layout, B0: seq<Block>, I0: seq<Inode>, O0: map<nat, Slot>,
                     B: seq<Block>, I: seq<Inode>, O: map<nat, Slot>,
                     B': seq<Block>, I': seq<Inode>, O': map<nat, Slot>,
                     i: nat, off: nat, data: seq<Byte>, w: nat, bn: nat)
    requires Owned(l, B0, I0, O0) && Owned(l, B, I, O) && Owned(l, B', I', O')
    requires i < |I0| && NoHoles(B0, I0[i])
    requires Written(l, B0, I0, O0, B, I, O, i, off, data, w) && Grows(l, B, I, O, B', I', O', i, bn)
    ensures Written(l, B0, I0, O0, B', I', O', i, off, data, w)
  {
    forall j, n | 0 <= j < |I| && 0 <= n <= MAXFILE
      ensures Addr(B0, I0[j], n) == 0 || AddrSame(B0, I0, B', I', j, n)
    {
      if Addr(B0, I0[j], n) != 0 {
        assert AddrSame(B0, I0, B, I, j, n) && AddrSame(B, I, B', I', j, n);
      }
    }
    forall b | b in O0 ensures OwnerKept(B0, O0, B', O', i, b) {
      assert OwnerKept(B0, O0, B, O, i, b);
    }
    forall k | 0 <= k < MAXFILE * BSIZE && Addr(B, I[i], k / BSIZE) != 0
      ensures Addr(B', I'[i], k / BSIZE) == Addr(B, I[i], k / BSIZE) && ByteAt(B', I'[i], k) == ByteAt(B, I[i], k)
    {
      assert AddrSame(B, I, B', I', i, k / BSIZE);
      SlotIsOwned(l, B, I, O, i, k / BSIZE);
    }
    forall t | 0 <= t < w ensures StoredAt(B', I'[i], off + t, data[t]) {
      assert StoredAt(B, I[i], off + t, data[t]);
    }
    forall k | 0 <= k < I0[i].size ensures Addr(B, I[i], k / BSIZE) != 0 {
      assert AddrSame(B0, I0, B, I, i, k / BSIZE);
    }
  }

  /** Writing into one block of file i changes just those bytes, and no stored number. */
  lemma PutBytes(l: Layout, B: seq<Block>, I: seq<Inode>, O: map<nat, Slot>, i: nat, bn: nat, at: nat, d: seq<Byte>)
    requires Owned(l, B, I, O) && i < |I| && bn < MAXFILE && Addr(B, I[i], bn) != 0 && at + |d| <= BSIZE
    ensures var a := Addr(B, I[i], bn);
      && l.datastart <= a < l.size && a in O && O[a] == Slot(i, bn)
      && var B' := B[a := Put(B[a], at, d)];
      && Owned(l, B', I, O)
      && (forall j, n :: 0 <= j < |I| && 0 <= n <= MAXFILE ==> AddrSame(B, I, B', I, j, n))
      && (forall k :: 0 <= k < MAXFILE * BSIZE && Addr(B, I[i], k / BSIZE) != 0 ==>
            ByteAt(B', I[i], k) ==
            if k / BSIZE == bn && at <= k % BSIZE < at + |d| then d[k % BSIZE - at] else ByteAt(B, I[i], k))
  {
    SlotIsOwned(l, B, I, O, i, bn);
    var a := Addr(B, I[i], bn);
    var B' := B[a := Put(B[a], at, d)];
    DataWriteKeeps(l, B, I, O, a, Put(B[a], at, d));
    forall j, n | 0 <= j < |I| && 0 <= n <= MAXFILE ensures AddrSame(B, I, B', I, j, n) {
      if I[j].addrs[NDIRECT] != 0 {
        IndirectIsOwned(l, B, I, O, j);
      }
      AddrStays(B, B', I[j], n);
    }
    forall k | 0 <= k < MAXFILE * BSIZE && Addr(B, I[i], k / BSIZE) != 0
      ensures ByteAt(B', I[i], k) ==
        if k / BSIZE == bn && at <= k % BSIZE < at + |d| then d[k % BSIZE - at] else ByteAt(B, I[i], k)
    {
      assert AddrSame(B, I, B', I, i, k / BSIZE);
      SlotIsOwned(l, B, I, O, i, k / BSIZE);
    }
  }

  /** Copying the next bytes into the block they belong to writes just those bytes. */
  lemma WrittenChunk(l: Layout, B0: seq<Block>, I0: seq<Inode>, O0: map<nat, Slot>,
                     B: seq<Block>, I: seq<Inode>, O: map<nat, Slot>,
                     i: nat, off: nat, data: seq<Byte>, w: nat, m: nat)
    requires Owned(l, B0, I0, O0) && Owned(l, B, I, O) && Written(l, B0, I0, O0, B, I, O, i, off, data, w)
    requires NoHoles(B0, I0[i])
    requires off + w < MAXFILE * BSIZE && (off + w) % BSIZE + m <= BSIZE && w + m <= |data|
    requires Addr(B, I[i], (off + w) / BSIZE) != 0
    ensures var a := Addr(B, I[i], (off + w) / BSIZE);
      && l.datastart <= a < l.size
      && var B' := B[a := Put(B[a], (off + w) % BSIZE, data[w..w + m])];
      Owned(l, B', I, O) && Written(l, B0, I0, O0, B', I, O, i, off, data, w + m)
  {
    var o, d := off + w, data[w..w + m];
    var bn := o / BSIZE;
    PutBytes(l, B, I, O, i, bn, o % BSIZE, d);
    var a := Addr(B, I[i], bn);
    var B' := B[a := Put(B[a], o % BSIZE, d)];
    forall j, n | 0 <= j < |I| && 0 <= n <= MAXFILE
      ensures Addr(B0, I0[j], n) == 0 || AddrSame(B0, I0, B', I, j, n)
    {
      if Addr(B0, I0[j], n) != 0 {
        assert AddrSame(B0, I0, B, I, j, n) && AddrSame(B, I, B', I, j, n);
      }
    }
    forall b | b in O0 ensures OwnerKept(B0, O0, B', O, i, b) {
      assert OwnerKept(B0, O0, B, O, i, b);
    }
    forall t | 0 <= t < w + m ensures StoredAt(B', I[i], off + t, data[t]) {
      ChunkByte(off, w, m, off + t);
      if t < w {
        assert StoredAt(B, I[i], off + t, data[t]);
      }
      assert AddrSame(B, I, B', I, i, (off + t) / BSIZE);
    }
    forall k | 0 <= k < I0[i].size && !(off <= k < off + w + m)
      ensures ByteAt(B', I[i], k) == ByteAt(B0, I0[i], k)
    {
      ChunkByte(off, w, m, k);
      assert AddrSame(B0, I0, B, I, i, k / BSIZE);
    }
  }

  /** Which positions a chunk that stays within one block covers. */
  lemma ChunkByte(off: nat, w: nat, m: nat, k: nat)
    requires (off + w) % BSIZE + m <= BSIZE
    ensures var o := off + w;
      (k / BSIZE == o / BSIZE && o % BSIZE <= k % BSIZE < o % BSIZE + m) <==> o <= k < o + m
    ensures var o := off + w; o <= k < o + m ==> k % BSIZE - o % BSIZE == k - o
  {
    var o := off + w;
    assert o == o / BSIZE * BSIZE + o % BSIZE && k == k / BSIZE * BSIZE + k % BSIZE;
  }

  ghost predicate AllFilled(l: Layout, B: seq<Block>, I: seq<Inode>)
    requires Shape(l, B, I)
  {
    forall j :: 0 <= j < |I| ==> NoHoles(B, I[j])
  }

  function Max(a: nat, b: nat): nat {
    if a < b then b else a
  }

  /** A file whose map and blocks are untouched has its contents untouched. */
  lemma UntouchedContent(l: Layout, B0: seq<Block>, I0: seq<Inode>, O0: map<nat, Slot>,
                         B: seq<Block>, I: seq<Inode>, O: map<nat, Slot>, i: nat, j: nat)
    requires Owned(l, B0, I0, O0) && Shape(l, B, I) && OthersKept(l, B0, I0, O0, B, I, O, i)
    requires j < |I| && j != i && NoHoles(B0, I0[j])
    ensures NoHoles(B, I[j]) && Content(B, I[j]) == Content(B0, I0[j])
  {
    forall n | 0 <= n < BlockCount(I0[j].size) ensures Addr(B, I[j], n) == Addr(B0, I0[j], n) != 0 {
      assert AddrSame(B0, I0, B, I, j, n);
    }
    forall k | 0 <= k < I0[j].size ensures ByteAt(B, I[j], k) == ByteAt(B0, I0[j], k) {
      var n := k / BSIZE;
      assert n < BlockCount(I0[j].size);
      SlotIsOwned(l, B0, I0, O0, j, n);
      assert OwnerKept(B0, O0, B, O, i, Addr(B0, I0[j], n));
    }
    SameContent(B0, I0[j], B, I[j]);
  }

  /** A mapped byte below the size means its block is mapped. */
  lemma FilledTo(l: Layout, B0: seq<Block>, I0: seq<Inode>, O0: map<nat, Slot>,
                 B: seq<Block>, I: seq<Inode>, O: map<nat, Slot>, i: nat, off: nat, data: seq<Byte>, w: nat, n: nat)
    requires Owned(l, B0, I0, O0) && Shape(l, B, I) && Written(l, B0, I0, O0, B, I, O, i, off, data, w)
    requires NoHoles(B0, I0[i]) && off <= I0[i].size && n < BlockCount(Max(I0[i].size, off + w)) && n < MAXFILE
    ensures Addr(B, I[i], n) != 0
  {
    if n < BlockCount(I0[i].size) {
      assert AddrSame(B0, I0, B, I, i, n);
    } else {
      assert off <= n * BSIZE < off + w && n * BSIZE / BSIZE == n;
      assert StoredAt(B, I[i], off + (n * BSIZE - off), data[n * BSIZE - off]);
    }
  }

  /** The bytes of the file after a write. */
  lemma WrittenBytes(B0: seq<Block>, ip0: Inode, B: seq<Block>, ip: Inode, off: nat, data: seq<Byte>, w: nat, size: nat)
    requires |ip0.addrs| == NDIRECT + 1 && ip0.addrs[NDIRECT] < |B0| && off <= ip0.size <= MAXFILE * BSIZE
    requires |ip.addrs| == NDIRECT + 1 && ip.addrs[NDIRECT] < |B| && ip.size == size <= MAXFILE * BSIZE
    requires Stored(B, ip, off, data, w) && RestKept(B0, ip0, B, ip, off, w)
    requires ip0.size <= size <= Max(ip0.size, off + w)
    ensures Content(B, ip) == Spliced(Content(B0, ip0), off, data[..w])[..size]
  {
    var c := Spliced(Content(B0, ip0), off, data[..w]);
    ContentAt(B0, ip0);
    ContentAt(B, ip);
    forall k | 0 <= k < size ensures Content(B, ip)[k] == c[k] {
      if off <= k < off + w {
        assert StoredAt(B, ip, off + (k - off), data[k - off]);
      }
    }
  }

  /** The size is not part of what places and bytes depend on. */
  lemma SizeApart(B0: seq<Block>, ip0: Inode, B: seq<Block>, ip: Inode, off: nat, data: seq<Byte>, w: nat, size: nat)
    requires |ip0.addrs| == NDIRECT + 1 && ip0.addrs[NDIRECT] < |B0| && ip0.size <= MAXFILE * BSIZE
    requires |ip.addrs| == NDIRECT + 1 && ip.addrs[NDIRECT] < |B|
    requires Stored(B, ip, off, data, w) && RestKept(B0, ip0, B, ip, off, w)
    ensures Stored(B, ip.(size := size), off, data, w) && RestKept(B0, ip0, B, ip.(size := size), off, w)
  {
    forall t | 0 <= t < w ensures StoredAt(B, ip.(size := size), off + t, data[t]) {
      assert StoredAt(B, ip, off + t, data[t]);
    }
  }

  lemma WrittenFilled(l: Layout, B0: seq<Block>, I0: seq<Inode>, O0: map<nat, Slot>,
                      B: seq<Block>, I: seq<Inode>, O: map<nat, Slot>,
                      i: nat, off: nat, data: seq<Byte>, w: nat, size: nat)
    requires Owned(l, B0, I0, O0) && Shape(l, B, I) && Written(l, B0, I0, O0, B, I, O, i, off, data, w)
    requires NoHoles(B0, I0[i]) && off <= I0[i].size && size <= Max(I0[i].size, off + w) && size <= MAXFILE * BSIZE
    ensures NoHoles(B, I[i].(size := size))
  {
    forall n | 0 <= n < BlockCount(size) ensures Addr(B, I[i].(size := size), n) != 0 {
      FilledTo(l, B0, I0, O0, B, I, O, i, off, data, w, n);
    }
  }

  /** The finished write as a change of byte sequences. */
  lemma WrittenContent(l: Layout, B0: seq<Block>, I0: seq<Inode>, O0: map<nat, Slot>,
                       B: seq<Block>, I: seq<Inode>, O: map<nat, Slot>,
                       i: nat, off: nat, data: seq<Byte>, w: nat, tot: nat)
    requires Owned(l, B0, I0, O0) && Owned(l, B, I, O) && AllFilled(l, B0, I0)
    requires Written(l, B0, I0, O0, B, I, O, i, off, data, w)
    requires tot <= w && off <= I0[i].size && off + w <= MAXFILE * BSIZE
    ensures var I' := I[i := I[i].(size := Max(I0[i].size, off + tot))];
      && Owned(l, B, I', O) && AllFilled(l, B, I')
      && Content(B, I'[i]) == Spliced(Content(B0, I0[i]), off, data[..w])[..I'[i].size]
      && forall j :: 0 <= j < |I| && j != i ==> Content(B, I'[j]) == Content(B0, I0[j])
  {
    var size := Max(I0[i].size, off + tot);
    var I' := I[i := I[i].(size := size)];
    OwnedSame(l, B, I, O, B, I');
    forall j | 0 <= j < |I| && j != i ensures NoHoles(B, I'[j]) && Content(B, I'[j]) == Content(B0, I0[j]) {
      UntouchedContent(l, B0, I0, O0, B, I, O, i, j);
    }
    WrittenFilled(l, B0, I0, O0, B, I, O, i, off, data, w, size);
    SizeApart(B0, I0[i], B, I[i], off, data, w, size);
    WrittenBytes(B0, I0[i], B, I'[i], off, data, w, size);
  }

  function Min(a: nat, b: nat): nat {
    if a < b then a else b
  }

  lemma SlicesJoin(c: seq<Byte>, a: nat, b: nat, e: nat)
    requires a <= b <= e <= |c|
    ensures c[a..b] + c[b..e] == c[a..e]
  {
  }

  lemma SlicesAgree(s: seq<Byte>, i: nat, t: seq<Byte>, j: nat, m: nat)
    requires i + m <= |s| && j + m <= |t| && forall k :: i <= k < i + m ==> s[k] == t[k - i + j]
    ensures s[i..i + m] == t[j..j + m]
  {
  }

  /** A stretch within one block is a stretch of the file. */
  lemma BytesOfBlock(l: Layout, B: seq<Block>, I: seq<Inode>, O: map<nat, Slot>, i: nat, o: nat, m: nat)
    requires Owned(l, B, I, O) && i < |I| && NoHoles(B, I[i]) && o < I[i].size && o + m <= I[i].size
    requires o % BSIZE + m <= BSIZE
    ensures var a := Addr(B, I[i], o / BSIZE);
      a < |B| && B[a][o % BSIZE..o % BSIZE + m] == Content(B, I[i])[o..o + m]
  {
    assert o / BSIZE < BlockCount(I[i].size);
    SlotIsOwned(l, B, I, O, i, o / BSIZE);
    var a, x, c := Addr(B, I[i], o / BSIZE), o % BSIZE, Content(B, I[i]);
    forall k | x <= k < x + m ensures B[a][k] == c[k - x + o] {
      ByteOfBlock(B, I[i], o, m, k - x);
    }
    SlicesAgree(B[a], x, c, o, m);
  }

  lemma ByteOfBlock(B: seq<Block>, ip: Inode, o: nat, m: nat, k: nat)
    requires |ip.addrs| == NDIRECT + 1 && ip.addrs[NDIRECT] < |B| && o + m <= ip.size <= MAXFILE * BSIZE
    requires k < m && o % BSIZE + m <= BSIZE && Addr(B, ip, o / BSIZE) < |B|
    ensures B[Addr(B, ip, o / BSIZE)][o % BSIZE + k] == Content(B, ip)[o + k]
  {
    ContentAt(B, ip);
    ChunkByte(o, 0, m, o + k);
  }

  /** A write that starts inside a block starts in a mapped one. */
  lemma FirstBlockMapped(l: Layout, B: seq<Block>, I: seq<Inode>, i: nat, off: nat)
    requires Shape(l, B, I) && i < |I| && NoHoles(B, I[i]) && off <= I[i].size && off % BSIZE != 0
    ensures off / BSIZE < MAXFILE && Addr(B, I[i], off / BSIZE) != 0
  {
    assert off / BSIZE < BlockCount(I[i].size);
  }

  /** Writing two stretches one after the other is writing them together. */
  lemma SplicedTwice(c: seq<Byte>, off: nat, a: seq<Byte>, b: seq<Byte>)
    requires off <= |c|
    ensures off + |a| <= |Spliced(c, off, a)|
    ensures Spliced(Spliced(c, off, a), off + |a|, b) == Spliced(c, off, a + b)
  {
  }

  /** Reading back the stretch that was written, and any stretch before or after it. */
  lemma SplicedReads(c: seq<Byte>, off: nat, d: seq<Byte>)
    requires off <= |c|
    ensures var s := Spliced(c, off, d);
      && |s| == Max(|c|, off + |d|) && s[..off] == c[..off] && s[off..off + |d|] == d
      && (off + |d| <= |c| ==> s[off + |d|..] == c[off + |d|..])
  {
  }

  /** A change of metadata alone, as in truncation or iupdate, changes no file's contents. */
  lemma MetadataContent(l: Layout, B: seq<Block>, I: seq<Inode>, O: map<nat, Slot>, B': seq<Block>, j: nat)
    requires Owned(l, B, I, O) && SameData(l, B, B', {}) && j < |I| && NoHoles(B, I[j])
    ensures NoHoles(B', I[j]) && Content(B', I[j]) == Content(B, I[j])
  {
    if I[j].addrs[NDIRECT] != 0 {
      IndirectIsOwned(l, B, I, O, j);
    }
    forall n | 0 <= n <= MAXFILE ensures Addr(B', I[j], n) == Addr(B, I[j], n) {
      AddrStays(B, B', I[j], n);
    }
    forall k | 0 <= k < I[j].size ensures ByteAt(B', I[j], k) == ByteAt(B, I[j], k) {
      assert k / BSIZE < BlockCount(I[j].size);
      SlotIsOwned(l, B, I, O, j, k / BSIZE);
    }
    SameContent(B, I[j], B', I[j]);
  }
}
