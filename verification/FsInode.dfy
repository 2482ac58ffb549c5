/** Inodes on disk (struct dinode of kernel/fs.h): sixteen words each, sixteen to a block. */
module FsInode {
  import opened FsFormat
  import opened FsModel
  import opened FsProofs

  /** Words at, at + 1, ... of a block. */
  function Words(b: Block, at: nat, n: nat): (r: seq<nat>)
    requires at + n <= NINDIRECT
    ensures |r| == n && forall j :: 0 <= j < n ==> r[j] == Word(b, at + j)
  {
    if n == 0 then [] else Words(b, at, n - 1) + [Word(b, at + n - 1)]
  }

  /** The k-th inode of a block. */
  function DinodeAt(b: Block, k: nat): Inode
    requires k < IPB
  {
    Inode(Words(b, 16 * k + 3, NDIRECT + 1), Word(b, 16 * k + 2), Word(b, 16 * k), Word(b, 16 * k + 1))
  }

  ghost predicate Storable(ip: Inode) {
    && |ip.addrs| == NDIRECT + 1 && (forall j :: 0 <= j <= NDIRECT ==> ip.addrs[j] <= UINT_MAX)
    && ip.size <= UINT_MAX && ip.typeMajor <= UINT_MAX && ip.minorNlink <= UINT_MAX
  }

  /** Two blocks agree on an inode when they agree on its words. */
  lemma SameWords(b: Block, c: Block, k: nat)
    requires k < IPB && forall w :: 16 * k <= w < 16 * k + 16 ==> Word(b, w) == Word(c, w)
    ensures DinodeAt(b, k) == DinodeAt(c, k)
  {
    assert Words(b, 16 * k + 3, NDIRECT + 1) == Words(c, 16 * k + 3, NDIRECT + 1);
  }

  /** n inodes fit between the start of the inode blocks and the free map. */
  predicate InodeArea(l: Layout, n: nat) {
    l.inodestart <= l.bmapstart && n <= (l.bmapstart - l.inodestart) * IPB
  }

  lemma InInodeArea(l: Layout, n: nat, i: nat)
    requires InodeArea(l, n) && i < n
    ensures l.inodestart <= IBlock(l, i) < l.bmapstart
  {
  }

  /** Inode i as the disk has it. */
  function Dinode(l: Layout, blocks: seq<Block>, i: nat): Inode
    requires IBlock(l, i) < |blocks|
  {
    DinodeAt(blocks[IBlock(l, i)], i % IPB)
  }

  /** Every inode in memory is on disk. */
  ghost predicate Synced(l: Layout, blocks: seq<Block>, inodes: seq<Inode>)
    requires InodeArea(l, |inodes|) && l.bmapstart < |blocks|
  {
    forall i :: 0 <= i < |inodes| ==> OnDisk(l, blocks, inodes, i)
  }

  ghost predicate OnDisk(l: Layout, blocks: seq<Block>, inodes: seq<Inode>, i: nat)
    requires i < |inodes| && InodeArea(l, |inodes|) && l.bmapstart < |blocks|
  {
    InInodeArea(l, |inodes|, i);
    Dinode(l, blocks, i) == inodes[i]
  }

  /** With inode i written and the others as before, all are in sync again if they were. */
  lemma SyncedAgain(l: Layout, B: seq<Block>, I: seq<Inode>, B': seq<Block>, I': seq<Inode>, i: nat)
    requires InodeArea(l, |I|) && |I'| == |I| && i < |I| && l.bmapstart < |B| == |B'|
    requires IBlock(l, i) < |B'| && Dinode(l, B', i) == I'[i]
    requires forall j :: 0 <= j < |I| && j != i ==> I'[j] == I[j] && SameDinode(l, B, B', j)
    ensures Synced(l, B, I) ==> Synced(l, B', I')
  {
    if Synced(l, B, I) {
      forall j | 0 <= j < |I| ensures OnDisk(l, B', I', j) {
        assert OnDisk(l, B, I, j);
        assert j != i ==> SameDinode(l, B, B', j);
      }
    }
  }

  ghost predicate SameDinode(l: Layout, B: seq<Block>, B': seq<Block>, j: nat) {
    IBlock(l, j) < |B| == |B'| && Dinode(l, B', j) == Dinode(l, B, j)
  }

  /** The inodes of a consistent file system fit their fields on disk. */
  lemma OwnedStorable(l: Layout, blocks: seq<Block>, inodes: seq<Inode>, owner: map<nat, Slot>, i: nat)
    requires Owned(l, blocks, inodes, owner) && i < |inodes|
    ensures Storable(inodes[i])
  {
    forall j | 0 <= j <= NDIRECT ensures inodes[i].addrs[j] <= UINT_MAX {
      var n := if j == NDIRECT then MAXFILE else j;
      if Addr(blocks, inodes[i], n) != 0 {
        SlotIsOwned(l, blocks, inodes, owner, i, n);
      }
    }
  }

  /** Writing an inode block changes no bit of the free map, no stored block number and no
      file's contents. */
  lemma InodeWriteKeeps(l: Layout, blocks: seq<Block>, inodes: seq<Inode>, owner: map<nat, Slot>, m: nat, data: Block)
    requires Owned(l, blocks, inodes, owner) && l.inodestart <= m < l.bmapstart
    ensures m < |blocks| && SameBits(l, blocks, blocks[m := data]) && SameData(l, blocks, blocks[m := data], {})
    ensures Owned(l, blocks[m := data], inodes, owner)
  {
    forall i, n | 0 <= i < |inodes| && 0 <= n <= MAXFILE
      ensures Addr(blocks[m := data], inodes[i], n) == Addr(blocks, inodes[i], n)
    {
      if inodes[i].addrs[NDIRECT] != 0 {
        IndirectIsOwned(l, blocks, inodes, owner, i);
      }
      AddrStays(blocks, blocks[m := data], inodes[i], n);
    }
    OwnedSame(l, blocks, inodes, owner, blocks[m := data], inodes);
  }

  /** One inode of a block is replaced: all others of the disk stay. */
  lemma OtherDinodes(l: Layout, blocks: seq<Block>, i: nat, b: Block, j: nat)
    requires IBlock(l, i) < |blocks| && IBlock(l, j) < |blocks| && j != i
    requires forall k :: 0 <= k < IPB && k != i % IPB ==> DinodeAt(b, k) == DinodeAt(blocks[IBlock(l, i)], k)
    ensures Dinode(l, blocks[IBlock(l, i) := b], j) == Dinode(l, blocks, j)
  {
    assert i == i / IPB * IPB + i % IPB && j == j / IPB * IPB + j % IPB;
  }

  lemma InodeReplaced(l: Layout, blocks: seq<Block>, n: nat, i: nat, b: Block, ip: Inode)
    requires InodeArea(l, n) && i < n && l.bmapstart < |blocks| && IBlock(l, i) < l.bmapstart
    requires DinodeAt(b, i % IPB) == ip
    requires forall k :: 0 <= k < IPB && k != i % IPB ==> DinodeAt(b, k) == DinodeAt(blocks[IBlock(l, i)], k)
    ensures forall j :: 0 <= j < n ==> IBlock(l, j) < |blocks|
    ensures forall j :: 0 <= j < n ==>
      Dinode(l, blocks[IBlock(l, i) := b], j) == if j == i then ip else Dinode(l, blocks, j)
  {
    forall j | 0 <= j < n
      ensures IBlock(l, j) < |blocks|
      ensures Dinode(l, blocks[IBlock(l, i) := b], j) == if j == i then ip else Dinode(l, blocks, j)
    {
      InInodeArea(l, n, j);
      if j != i {
        OtherDinodes(l, blocks, i, b, j);
      }
    }
  }

  /** iupdate's stores into the block: the inode reads back as it was, the other fifteen
      as before. */
  method PutDinode(b: Block, k: nat, ip: Inode) returns (r: Block)
    requires k < IPB && Storable(ip)
    ensures DinodeAt(r, k) == ip
    ensures forall o :: 0 <= o < IPB && o != k ==> DinodeAt(r, o) == DinodeAt(b, o)
  {
    r := PutHead(b, k, ip);
    for j := 0 to NDIRECT + 1
      invariant Word(r, 16 * k) == ip.typeMajor && Word(r, 16 * k + 1) == ip.minorNlink
      invariant Word(r, 16 * k + 2) == ip.size
      invariant forall m :: 0 <= m < j ==> Word(r, 16 * k + 3 + m) == ip.addrs[m]
      invariant forall w :: 0 <= w < NINDIRECT && !(16 * k <= w < 16 * k + 16) ==> Word(r, w) == Word(b, w)
    {
      var was := r;
      r := WithWord(r, 16 * k + 3 + j, ip.addrs[j]);
      forall w | 0 <= w < NINDIRECT ensures Word(r, w) == if w == 16 * k + 3 + j then ip.addrs[j] else Word(was, w) {
        WithWordAt(was, 16 * k + 3 + j, ip.addrs[j], w);
      }
    }
    assert Words(r, 16 * k + 3, NDIRECT + 1) == ip.addrs;
    forall o | 0 <= o < IPB && o != k ensures DinodeAt(r, o) == DinodeAt(b, o) {
      SameWords(r, b, o);
    }
  }

  /** The stores of type, major, minor, nlink and size. */
  method PutHead(b: Block, k: nat, ip: Inode) returns (r: Block)
    requires k < IPB && Storable(ip)
    ensures Word(r, 16 * k) == ip.typeMajor && Word(r, 16 * k + 1) == ip.minorNlink && Word(r, 16 * k + 2) == ip.size
    ensures forall w :: 0 <= w < NINDIRECT && !(16 * k <= w < 16 * k + 3) ==> Word(r, w) == Word(b, w)
  {
    var b1 := WithWord(b, 16 * k, ip.typeMajor);
    var b2 := WithWord(b1, 16 * k + 1, ip.minorNlink);
    r := WithWord(b2, 16 * k + 2, ip.size);
    forall w | 0 <= w < NINDIRECT
      ensures Word(r, w) == if w == 16 * k then ip.typeMajor else if w == 16 * k + 1 then ip.minorNlink
        else if w == 16 * k + 2 then ip.size else Word(b, w)
    {
      WithWordAt(b, 16 * k, ip.typeMajor, w);
      WithWordAt(b1, 16 * k + 1, ip.minorNlink, w);
      WithWordAt(b2, 16 * k + 2, ip.size, w);
    }
  }
}
