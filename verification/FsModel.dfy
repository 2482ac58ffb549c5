/** What the blocks of a file system mean: which are in use, which inode owns each, and
    at which place. */
module FsModel {
  import opened FsFormat

  /** The part of the superblock that places things. */
  datatype Layout = Layout(size: nat, inodestart: nat, bmapstart: nat, datastart: nat)

  predicate LayoutOk(l: Layout) {
    && 0 < l.inodestart <= l.bmapstart < l.datastart < l.size <= UINT_MAX
    && l.size <= (l.datastart - l.bmapstart) * BPB
  }

  /** An inode's fields; the 16-bit ones by the word that two of them fill. */
  datatype Inode = Inode(addrs: seq<nat>, size: nat, typeMajor: nat, minorNlink: nat)

  /** The same but for what is stored in the file. */
  predicate SameFields(ip: Inode, ip': Inode) {
    ip' == ip.(addrs := ip'.addrs, size := ip'.size)
  }

  /** A place that can hold a block number: block n of a file for n < MAXFILE, or at
      n == MAXFILE the inode's indirect block. */
  datatype Slot = Slot(inum: nat, n: nat)

  /** Block of the free map that holds b's bit. */
  function BBlock(l: Layout, b: nat): nat {
    b / BPB + l.bmapstart
  }

  /** Block that holds inode i. */
  function IBlock(l: Layout, i: nat): nat {
    i / IPB + l.inodestart
  }

  predicate Shape(l: Layout, blocks: seq<Block>, inodes: seq<Inode>) {
    && LayoutOk(l) && |blocks| == l.size
    && forall i :: 0 <= i < |inodes| ==> InodeOk(l, inodes[i])
  }

  predicate InodeOk(l: Layout, ip: Inode) {
    && |ip.addrs| == NDIRECT + 1 && ip.addrs[NDIRECT] < l.size && ip.size <= MAXFILE * BSIZE
    && ip.typeMajor <= UINT_MAX && ip.minorNlink <= UINT_MAX
  }

  predicate Used(l: Layout, blocks: seq<Block>, b: nat)
    requires LayoutOk(l) && |blocks| == l.size && b < l.size
  {
    BitAt(blocks[BBlock(l, b)], b % BPB)
  }

  /** The block number stored in place n of an inode; 0 when there is none. */
  function Addr(blocks: seq<Block>, ip: Inode, n: nat): nat
    requires |ip.addrs| == NDIRECT + 1 && ip.addrs[NDIRECT] < |blocks| && n <= MAXFILE
  {
    if n < NDIRECT then ip.addrs[n]
    else if n == MAXFILE then ip.addrs[NDIRECT]
    else if ip.addrs[NDIRECT] == 0 then 0
    else Word(blocks[ip.addrs[NDIRECT]], n - NDIRECT)
  }

  /** A stored block number is an owned block, owned from this very place. */
  predicate SlotOk(blocks: seq<Block>, ip: Inode, owner: map<nat, Slot>, i: nat, n: nat)
    requires |ip.addrs| == NDIRECT + 1 && ip.addrs[NDIRECT] < |blocks| && n <= MAXFILE
  {
    var a := Addr(blocks, ip, n);
    a != 0 ==> a in owner && owner[a] == Slot(i, n)
  }

  /** A block is owned exactly when its bit is set, and its owner stores its number. */
  predicate BlockOk(l: Layout, blocks: seq<Block>, inodes: seq<Inode>, owner: map<nat, Slot>, b: nat)
    requires Shape(l, blocks, inodes) && b < l.size
  {
    if b < l.datastart then Used(l, blocks, b) && b !in owner
    else
      && (Used(l, blocks, b) <==> b in owner)
      && (b in owner ==> owner[b].inum < |inodes| && owner[b].n <= MAXFILE
                         && Addr(blocks, inodes[owner[b].inum], owner[b].n) == b)
  }

  /** Every block in use has one owner, and every stored number names a block in use:
      owned blocks, metadata and free blocks divide the disk. */
  ghost predicate Owned(l: Layout, blocks: seq<Block>, inodes: seq<Inode>, owner: map<nat, Slot>) {
    && Shape(l, blocks, inodes)
    && (forall b :: b in owner ==> b < l.size)
    && (forall b :: 0 <= b < l.size ==> BlockOk(l, blocks, inodes, owner, b))
    && (forall i, n :: 0 <= i < |inodes| && 0 <= n <= MAXFILE ==> SlotOk(blocks, inodes[i], owner, i, n))
  }

  /** Blocks reachable from all inodes are pairwise distinct and in use. */
  lemma OwnedApart(l: Layout, blocks: seq<Block>, inodes: seq<Inode>, owner: map<nat, Slot>,
                   i: nat, n: nat, j: nat, m: nat)
    requires Owned(l, blocks, inodes, owner)
    requires i < |inodes| && j < |inodes| && n <= MAXFILE && m <= MAXFILE && Slot(i, n) != Slot(j, m)
    requires Addr(blocks, inodes[i], n) != 0
    ensures Addr(blocks, inodes[i], n) != Addr(blocks, inodes[j], m)
    ensures var a := Addr(blocks, inodes[i], n); l.datastart <= a < l.size && Used(l, blocks, a)
  {
    assert SlotOk(blocks, inodes[i], owner, i, n) && SlotOk(blocks, inodes[j], owner, j, m);
    assert BlockOk(l, blocks, inodes, owner, Addr(blocks, inodes[i], n));
  }
}
