/** How allocation, freeing and data writes keep block ownership. */
module FsProofs {
  import opened FsFormat
  import opened FsModel
  import opened Sets

  /** Outside the metadata, only blocks in s differ. */
  ghost predicate SameData(l: Layout, blocks: seq<Block>, blocks': seq<Block>, s: set<nat>) {
    && |blocks'| == |blocks| == l.size
    && forall b :: l.datastart <= b < l.size && b !in s ==> blocks'[b] == blocks[b]
  }

  /** The inode blocks are as before. */
  ghost predicate SameInodes(l: Layout, blocks: seq<Block>, blocks': seq<Block>) {
    && |blocks'| == |blocks|
    && forall m :: l.inodestart <= m < l.bmapstart && m < |blocks| ==> blocks'[m] == blocks[m]
  }

  /** Bits differ in r alone: now set, or now clear. */
  ghost predicate BitSet(l: Layout, blocks: seq<Block>, blocks': seq<Block>, r: nat)
    requires LayoutOk(l)
  {
    && |blocks'| == |blocks| == l.size
    && forall b :: 0 <= b < l.size ==> (Used(l, blocks', b) <==> b == r || Used(l, blocks, b))
  }

  ghost predicate BitCleared(l: Layout, blocks: seq<Block>, blocks': seq<Block>, r: nat)
    requires LayoutOk(l)
  {
    && |blocks'| == |blocks| == l.size
    && forall b :: 0 <= b < l.size ==> (Used(l, blocks', b) <==> b != r && Used(l, blocks, b))
  }

  ghost predicate SameBits(l: Layout, blocks: seq<Block>, blocks': seq<Block>)
    requires LayoutOk(l)
  {
    && |blocks'| == |blocks| == l.size
    && forall b :: 0 <= b < l.size ==> (Used(l, blocks', b) <==> Used(l, blocks, b))
  }

  ghost predicate IsZero(b: Block) {
    forall i :: 0 <= i < BSIZE ==> b[i] == 0
  }

  /** The free map lies between the inodes and the data. */
  lemma MapBlockPlace(l: Layout, b: nat)
    requires LayoutOk(l) && b < l.size
    ensures l.bmapstart <= BBlock(l, b) < l.datastart
  {
  }

  /** Two blocks' bits lie in the same place of the free map only if they are the same block. */
  lemma MarkSetsBit(l: Layout, blocks: seq<Block>, r: nat)
    requires LayoutOk(l) && |blocks| == l.size && r < l.size && !Used(l, blocks, r)
    ensures BBlock(l, r) < l.datastart
    ensures var blocks' := blocks[BBlock(l, r) := Marked(blocks[BBlock(l, r)], r % BPB)];
      BitSet(l, blocks, blocks', r) && SameData(l, blocks, blocks', {})
  {
    var blocks' := blocks[BBlock(l, r) := Marked(blocks[BBlock(l, r)], r % BPB)];
    forall b | 0 <= b < l.size ensures Used(l, blocks', b) <==> b == r || Used(l, blocks, b) {
      assert b == b / BPB * BPB + b % BPB && r == r / BPB * BPB + r % BPB;
    }
  }

  lemma ClearClearsBit(l: Layout, blocks: seq<Block>, r: nat)
    requires LayoutOk(l) && |blocks| == l.size && r < l.size && Used(l, blocks, r)
    ensures BBlock(l, r) < l.datastart
    ensures var blocks' := blocks[BBlock(l, r) := Cleared(blocks[BBlock(l, r)], r % BPB)];
      BitCleared(l, blocks, blocks', r) && SameData(l, blocks, blocks', {})
  {
    var blocks' := blocks[BBlock(l, r) := Cleared(blocks[BBlock(l, r)], r % BPB)];
    forall b | 0 <= b < l.size ensures Used(l, blocks', b) <==> b != r && Used(l, blocks, b) {
      assert b == b / BPB * BPB + b % BPB && r == r / BPB * BPB + r % BPB;
    }
  }

  /** Writing a data block leaves the free map alone. */
  lemma DataWriteKeepsBits(l: Layout, blocks: seq<Block>, b: nat, data: Block)
    requires LayoutOk(l) && |blocks| == l.size && l.datastart <= b < l.size
    ensures SameBits(l, blocks, blocks[b := data])
  {
    forall c | 0 <= c < l.size ensures BBlock(l, c) < l.datastart {
    }
  }

  ghost predicate DiskFull(l: Layout, blocks: seq<Block>)
    requires LayoutOk(l) && |blocks| == l.size
  {
    forall b :: 0 <= b < l.size ==> Used(l, blocks, b)
  }

  lemma MetadataUsed(l: Layout, blocks: seq<Block>, inodes: seq<Inode>, owner: map<nat, Slot>)
    requires Owned(l, blocks, inodes, owner)
    ensures forall b :: 0 <= b < l.datastart ==> Used(l, blocks, b)
  {
    forall b | 0 <= b < l.datastart ensures Used(l, blocks, b) {
      assert BlockOk(l, blocks, inodes, owner, b);
    }
  }

  lemma UnusedUnowned(l: Layout, blocks: seq<Block>, inodes: seq<Inode>, owner: map<nat, Slot>, b: nat)
    requires Owned(l, blocks, inodes, owner) && b < l.size && !Used(l, blocks, b)
    ensures b !in owner
  {
    assert BlockOk(l, blocks, inodes, owner, b);
  }

  /** An owned indirect block is a data block, and no file block. */
  lemma IndirectIsOwned(l: Layout, blocks: seq<Block>, inodes: seq<Inode>, owner: map<nat, Slot>, i: nat)
    requires Owned(l, blocks, inodes, owner) && i < |inodes| && inodes[i].addrs[NDIRECT] != 0
    ensures var a := inodes[i].addrs[NDIRECT]; a in owner && owner[a] == Slot(i, MAXFILE) && l.datastart <= a < l.size
  {
    assert SlotOk(blocks, inodes[i], owner, i, MAXFILE);
    assert BlockOk(l, blocks, inodes, owner, inodes[i].addrs[NDIRECT]);
  }

  lemma SlotIsOwned(l: Layout, blocks: seq<Block>, inodes: seq<Inode>, owner: map<nat, Slot>, i: nat, n: nat)
    requires Owned(l, blocks, inodes, owner) && i < |inodes| && n <= MAXFILE && Addr(blocks, inodes[i], n) != 0
    ensures var a := Addr(blocks, inodes[i], n); a in owner && owner[a] == Slot(i, n) && l.datastart <= a < l.size
  {
    assert SlotOk(blocks, inodes[i], owner, i, n);
    assert BlockOk(l, blocks, inodes, owner, Addr(blocks, inodes[i], n));
  }

  /** Storing numbers survives a change of blocks that spares the indirect block. */
  lemma AddrStays(blocks: seq<Block>, blocks': seq<Block>, ip: Inode, n: nat)
    requires |ip.addrs| == NDIRECT + 1 && ip.addrs[NDIRECT] < |blocks| == |blocks'| && n <= MAXFILE
    requires ip.addrs[NDIRECT] != 0 ==> blocks'[ip.addrs[NDIRECT]] == blocks[ip.addrs[NDIRECT]]
    ensures Addr(blocks', ip, n) == Addr(blocks, ip, n)
  {
  }

  /** Ownership carries over when bits and stored numbers do, but for one block r newly
      owned from slot w. */
  lemma OwnedPlus(l: Layout, blocks: seq<Block>, inodes: seq<Inode>, owner: map<nat, Slot>,
                  blocks': seq<Block>, inodes': seq<Inode>, r: nat, w: Slot)
    requires Owned(l, blocks, inodes, owner) && Shape(l, blocks', inodes') && |inodes'| == |inodes|
    requires l.datastart <= r < l.size && !Used(l, blocks, r) && BitSet(l, blocks, blocks', r)
    requires w.inum < |inodes| && w.n <= MAXFILE && Addr(blocks, inodes[w.inum], w.n) == 0
    requires forall i, n :: 0 <= i < |inodes| && 0 <= n <= MAXFILE ==>
      Addr(blocks', inodes'[i], n) == if Slot(i, n) == w then r else Addr(blocks, inodes[i], n)
    ensures Owned(l, blocks', inodes', owner[r := w])
  {
    var owner' := owner[r := w];
    assert BlockOk(l, blocks, inodes, owner, r);
    forall b | 0 <= b < l.size ensures BlockOk(l, blocks', inodes', owner', b) {
      assert BlockOk(l, blocks, inodes, owner, b);
    }
    forall i, n | 0 <= i < |inodes'| && 0 <= n <= MAXFILE ensures SlotOk(blocks', inodes'[i], owner', i, n) {
      assert SlotOk(blocks, inodes[i], owner, i, n);
    }
  }

  /** Ownership carries over when bits and stored numbers do. */
  lemma OwnedSame(l: Layout, blocks: seq<Block>, inodes: seq<Inode>, owner: map<nat, Slot>,
                  blocks': seq<Block>, inodes': seq<Inode>)
    requires Owned(l, blocks, inodes, owner) && Shape(l, blocks', inodes') && |inodes'| == |inodes|
    requires SameBits(l, blocks, blocks')
    requires forall i, n :: 0 <= i < |inodes| && 0 <= n <= MAXFILE ==>
      Addr(blocks', inodes'[i], n) == Addr(blocks, inodes[i], n)
    ensures Owned(l, blocks', inodes', owner)
  {
    forall b | 0 <= b < l.size ensures BlockOk(l, blocks', inodes', owner, b) {
      assert BlockOk(l, blocks, inodes, owner, b);
    }
    forall i, n | 0 <= i < |inodes'| && 0 <= n <= MAXFILE ensures SlotOk(blocks', inodes'[i], owner, i, n) {
      assert SlotOk(blocks, inodes[i], owner, i, n);
    }
  }

  /** Storing a fresh zeroed block in an inode's own slot, direct or indirect. */
  lemma AllocInInode(l: Layout, blocks: seq<Block>, inodes: seq<Inode>, owner: map<nat, Slot>,
                     blocks': seq<Block>, i: nat, k: nat, r: nat)
    requires Owned(l, blocks, inodes, owner) && i < |inodes| && k <= NDIRECT && inodes[i].addrs[k] == 0
    requires l.datastart <= r < l.size && !Used(l, blocks, r) && BitSet(l, blocks, blocks', r)
    requires SameData(l, blocks, blocks', {r}) && IsZero(blocks'[r])
    ensures Owned(l, blocks', inodes[i := inodes[i].(addrs := inodes[i].addrs[k := r])],
                  owner[r := Slot(i, if k == NDIRECT then MAXFILE else k)])
  {
    var inodes' := inodes[i := inodes[i].(addrs := inodes[i].addrs[k := r])];
    var w := Slot(i, if k == NDIRECT then MAXFILE else k);
    assert BlockOk(l, blocks, inodes, owner, r);
    forall j, n | 0 <= j < |inodes| && 0 <= n <= MAXFILE
      ensures Addr(blocks', inodes'[j], n) == if Slot(j, n) == w then r else Addr(blocks, inodes[j], n)
    {
      if inodes[j].addrs[NDIRECT] != 0 {
        IndirectIsOwned(l, blocks, inodes, owner, j);
        AddrStays(blocks, blocks', inodes[j], n);
      }
    }
    OwnedPlus(l, blocks, inodes, owner, blocks', inodes', r, w);
  }

  /** Storing a fresh block in an indirect block's entry. */
  lemma AllocInIndirect(l: Layout, blocks: seq<Block>, inodes: seq<Inode>, owner: map<nat, Slot>,
                        blocks': seq<Block>, i: nat, n: nat, r: nat)
    requires Owned(l, blocks, inodes, owner) && i < |inodes| && NDIRECT <= n < MAXFILE
    requires var d := inodes[i].addrs[NDIRECT];
      && d != 0 && Word(blocks[d], n - NDIRECT) == 0 && r <= UINT_MAX
      && l.datastart <= r < l.size && !Used(l, blocks, r) && BitSet(l, blocks, blocks', r)
      && SameData(l, blocks, blocks', {r, d}) && blocks'[d] == WithWord(blocks[d], n - NDIRECT, r)
    ensures Owned(l, blocks', inodes, owner[r := Slot(i, n)])
  {
    var d := inodes[i].addrs[NDIRECT];
    assert BlockOk(l, blocks, inodes, owner, r);
    IndirectIsOwned(l, blocks, inodes, owner, i);
    forall j, m | 0 <= j < |inodes| && 0 <= m <= MAXFILE
      ensures Addr(blocks', inodes[j], m) == if Slot(j, m) == Slot(i, n) then r else Addr(blocks, inodes[j], m)
    {
      if inodes[j].addrs[NDIRECT] != 0 {
        IndirectIsOwned(l, blocks, inodes, owner, j);
        if j != i {
          AddrStays(blocks, blocks', inodes[j], m);
        } else if NDIRECT <= m < MAXFILE {
          WithWordAt(blocks[d], n - NDIRECT, r, m - NDIRECT);
        }
      }
    }
    OwnedPlus(l, blocks, inodes, owner, blocks', inodes, r, Slot(i, n));
  }

  /** Writing file data into an owned file block. */
  lemma DataWriteKeeps(l: Layout, blocks: seq<Block>, inodes: seq<Inode>, owner: map<nat, Slot>, b: nat, data: Block)
    requires Owned(l, blocks, inodes, owner) && b in owner && owner[b].n < MAXFILE
    ensures l.datastart <= b < l.size && Owned(l, blocks[b := data], inodes, owner)
  {
    assert BlockOk(l, blocks, inodes, owner, b);
    DataWriteKeepsBits(l, blocks, b, data);
    forall j, m | 0 <= j < |inodes| && 0 <= m <= MAXFILE
      ensures Addr(blocks[b := data], inodes[j], m) == Addr(blocks, inodes[j], m)
    {
      if inodes[j].addrs[NDIRECT] != 0 {
        IndirectIsOwned(l, blocks, inodes, owner, j);
        AddrStays(blocks, blocks[b := data], inodes[j], m);
      }
    }
    OwnedSame(l, blocks, inodes, owner, blocks[b := data], inodes);
  }

  // ----- growth of one file's map

  ghost predicate AddrSame(blocks: seq<Block>, inodes: seq<Inode>, blocks': seq<Block>, inodes': seq<Inode>, j: nat,
                           n: nat)
    requires j < |inodes| && j < |inodes'| && n <= MAXFILE
    requires |inodes[j].addrs| == NDIRECT + 1 && inodes[j].addrs[NDIRECT] < |blocks|
    requires |inodes'[j].addrs| == NDIRECT + 1 && inodes'[j].addrs[NDIRECT] < |blocks'|
  {
    Addr(blocks', inodes'[j], n) == Addr(blocks, inodes[j], n)
  }

  /** Owned blocks keep their owner, and file blocks their contents. */
  ghost predicate OwnersKept(blocks: seq<Block>, owner: map<nat, Slot>, blocks': seq<Block>, owner': map<nat, Slot>) {
    |blocks'| == |blocks| &&
    forall b :: b in owner ==>
      b in owner' && owner'[b] == owner[b] && (owner[b].n < MAXFILE && b < |blocks| ==> blocks'[b] == blocks[b])
  }

  /** Place n of inode i may be filled in where it was empty. */
  predicate MayGrow(i: nat, bn: nat, j: nat, n: nat) {
    j == i && (n == bn || (n == MAXFILE && NDIRECT <= bn))
  }

  /** From one state to the next, file i may have gained block bn and an indirect block;
      nothing else changed in any file's map or contents. */
  ghost predicate Grows(l: Layout, blocks: seq<Block>, inodes: seq<Inode>, owner: map<nat, Slot>,
                        blocks': seq<Block>, inodes': seq<Inode>, owner': map<nat, Slot>, i: nat, bn: nat) {
    && Shape(l, blocks, inodes) && Shape(l, blocks', inodes') && |inodes'| == |inodes| && i < |inodes|
    && (forall j :: 0 <= j < |inodes| && j != i ==> inodes'[j] == inodes[j])
    && inodes'[i] == inodes[i].(addrs := inodes'[i].addrs)
    && (forall j, n :: 0 <= j < |inodes| && 0 <= n <= MAXFILE ==>
          (MayGrow(i, bn, j, n) && Addr(blocks, inodes[j], n) == 0) || AddrSame(blocks, inodes, blocks', inodes', j, n))
    && OwnersKept(blocks, owner, blocks', owner')
  }

  lemma GrowsTwice(l: Layout, blocks: seq<Block>, inodes: seq<Inode>, owner: map<nat, Slot>,
                   blocks1: seq<Block>, inodes1: seq<Inode>, owner1: map<nat, Slot>,
                   blocks2: seq<Block>, inodes2: seq<Inode>, owner2: map<nat, Slot>, i: nat, bn: nat)
    requires Grows(l, blocks, inodes, owner, blocks1, inodes1, owner1, i, bn)
    requires Grows(l, blocks1, inodes1, owner1, blocks2, inodes2, owner2, i, bn)
    ensures Grows(l, blocks, inodes, owner, blocks2, inodes2, owner2, i, bn)
  {
    forall j, n | 0 <= j < |inodes| && 0 <= n <= MAXFILE
      ensures (MayGrow(i, bn, j, n) && Addr(blocks, inodes[j], n) == 0)
        || AddrSame(blocks, inodes, blocks2, inodes2, j, n)
    {
      assert (MayGrow(i, bn, j, n) && Addr(blocks, inodes[j], n) == 0)
        || AddrSame(blocks, inodes, blocks1, inodes1, j, n);
      assert (MayGrow(i, bn, j, n) && Addr(blocks1, inodes1[j], n) == 0)
        || AddrSame(blocks1, inodes1, blocks2, inodes2, j, n);
    }
  }

  lemma GrowsNot(l: Layout, blocks: seq<Block>, inodes: seq<Inode>, owner: map<nat, Slot>, i: nat, bn: nat)
    requires Owned(l, blocks, inodes, owner) && i < |inodes|
    ensures Grows(l, blocks, inodes, owner, blocks, inodes, owner, i, bn)
  {
  }

  /** Filling an inode's own slot is such a growth. */
  lemma AddrGrows(l: Layout, blocks: seq<Block>, inodes: seq<Inode>, owner: map<nat, Slot>,
                  blocks': seq<Block>, i: nat, k: nat, r: nat, bn: nat)
    requires Owned(l, blocks, inodes, owner) && i < |inodes| && k <= NDIRECT && inodes[i].addrs[k] == 0
    requires (k == bn || (k == NDIRECT <= bn)) && r !in owner && r < l.size
    requires SameData(l, blocks, blocks', {r}) && IsZero(blocks'[r])
    ensures Grows(l, blocks, inodes, owner, blocks', inodes[i := inodes[i].(addrs := inodes[i].addrs[k := r])],
                  owner[r := Slot(i, if k == NDIRECT then MAXFILE else k)], i, bn)
  {
    var inodes' := inodes[i := inodes[i].(addrs := inodes[i].addrs[k := r])];
    forall j, n | 0 <= j < |inodes| && 0 <= n <= MAXFILE
      ensures (MayGrow(i, bn, j, n) && Addr(blocks, inodes[j], n) == 0)
        || AddrSame(blocks, inodes, blocks', inodes', j, n)
    {
      if inodes[j].addrs[NDIRECT] != 0 {
        IndirectIsOwned(l, blocks, inodes, owner, j);
        AddrStays(blocks, blocks', inodes[j], n);
      }
    }
    forall b | b in owner ensures l.datastart <= b < l.size {
      assert BlockOk(l, blocks, inodes, owner, b);
    }
  }

  /** Filling an entry of the indirect block is one too. */
  lemma EntryGrows(l: Layout, blocks: seq<Block>, inodes: seq<Inode>, owner: map<nat, Slot>,
                   blocks': seq<Block>, i: nat, n: nat, r: nat)
    requires Owned(l, blocks, inodes, owner) && i < |inodes| && NDIRECT <= n < MAXFILE && r <= UINT_MAX
    requires var d := inodes[i].addrs[NDIRECT];
      && d != 0 && Word(blocks[d], n - NDIRECT) == 0 && r !in owner
      && SameData(l, blocks, blocks', {r, d}) && blocks'[d] == WithWord(blocks[d], n - NDIRECT, r)
    ensures Grows(l, blocks, inodes, owner, blocks', inodes, owner[r := Slot(i, n)], i, n)
  {
    var d := inodes[i].addrs[NDIRECT];
    IndirectIsOwned(l, blocks, inodes, owner, i);
    forall j, m | 0 <= j < |inodes| && 0 <= m <= MAXFILE
      ensures (MayGrow(i, n, j, m) && Addr(blocks, inodes[j], m) == 0)
        || AddrSame(blocks, inodes, blocks', inodes, j, m)
    {
      if inodes[j].addrs[NDIRECT] != 0 {
        IndirectIsOwned(l, blocks, inodes, owner, j);
        if j != i {
          AddrStays(blocks, blocks', inodes[j], m);
        } else if NDIRECT <= m < MAXFILE {
          WithWordAt(blocks[d], n - NDIRECT, r, m - NDIRECT);
        }
      }
    }
    forall b | b in owner ensures l.datastart <= b < l.size {
      assert BlockOk(l, blocks, inodes, owner, b);
    }
  }

  // ----- truncation

  /** The blocks that inode i owns at places below k are free; all else is as before. */
  ghost predicate FreedBelow(l: Layout, blocks: seq<Block>, owner: map<nat, Slot>, blocks': seq<Block>, i: nat, k: nat)
    requires LayoutOk(l)
  {
    && |blocks'| == |blocks| == l.size && SameData(l, blocks, blocks', {})
    && forall b :: 0 <= b < l.size ==>
         (Used(l, blocks', b) <==> Used(l, blocks, b) && !(b in owner && owner[b].inum == i && owner[b].n < k))
  }

  /** The next place holds nothing. */
  lemma FreedSkip(l: Layout, blocks: seq<Block>, inodes: seq<Inode>, owner: map<nat, Slot>,
                  blocks': seq<Block>, i: nat, k: nat)
    requires Owned(l, blocks, inodes, owner) && i < |inodes| && k <= MAXFILE
    requires FreedBelow(l, blocks, owner, blocks', i, k) && Addr(blocks, inodes[i], k) == 0
    ensures FreedBelow(l, blocks, owner, blocks', i, k + 1)
  {
    forall b | 0 <= b < l.size ensures b in owner && owner[b].inum == i ==> owner[b].n != k {
      assert BlockOk(l, blocks, inodes, owner, b);
    }
  }

  /** The next place holds a block: it is in use, and freeing it is the next step. */
  lemma FreedNext(l: Layout, blocks: seq<Block>, inodes: seq<Inode>, owner: map<nat, Slot>,
                  blocks': seq<Block>, i: nat, k: nat)
    requires Owned(l, blocks, inodes, owner) && i < |inodes| && k <= MAXFILE
    requires FreedBelow(l, blocks, owner, blocks', i, k) && Addr(blocks, inodes[i], k) != 0
    ensures var a := Addr(blocks, inodes[i], k); l.datastart <= a < l.size && Used(l, blocks', a)
    ensures forall blocks'' | BitCleared(l, blocks', blocks'', Addr(blocks, inodes[i], k)) :: (
      SameData(l, blocks', blocks'', {}) ==> FreedBelow(l, blocks, owner, blocks'', i, k + 1))
  {
    var a := Addr(blocks, inodes[i], k);
    assert SlotOk(blocks, inodes[i], owner, i, k) && BlockOk(l, blocks, inodes, owner, a);
    forall b | 0 <= b < l.size ensures b in owner && owner[b] == Slot(i, k) ==> b == a {
      assert BlockOk(l, blocks, inodes, owner, b);
    }
  }

  /** Without an indirect block, all further places are empty. */
  lemma {:induction false} FreedSkipRest(l: Layout, blocks: seq<Block>, inodes: seq<Inode>, owner: map<nat, Slot>,
                                         blocks': seq<Block>, i: nat, k: nat)
    requires Owned(l, blocks, inodes, owner) && i < |inodes| && NDIRECT <= k <= MAXFILE + 1
    requires FreedBelow(l, blocks, owner, blocks', i, k) && inodes[i].addrs[NDIRECT] == 0
    ensures FreedBelow(l, blocks, owner, blocks', i, MAXFILE + 1)
    decreases MAXFILE + 1 - k
  {
    if k <= MAXFILE {
      FreedSkip(l, blocks, inodes, owner, blocks', i, k);
      FreedSkipRest(l, blocks, inodes, owner, blocks', i, k + 1);
    }
  }

  /** owner without the blocks of inode i. */
  ghost function Disowned(owner: map<nat, Slot>, i: nat): map<nat, Slot> {
    map b | b in owner && owner[b].inum != i :: owner[b]
  }

  lemma TruncatedKeeps(l: Layout, blocks: seq<Block>, inodes: seq<Inode>, owner: map<nat, Slot>,
                       blocks': seq<Block>, i: nat, ip': Inode)
    requires Owned(l, blocks, inodes, owner) && i < |inodes| && InodeOk(l, ip')
    requires FreedBelow(l, blocks, owner, blocks', i, MAXFILE + 1)
    requires forall k :: 0 <= k <= NDIRECT ==> ip'.addrs[k] == 0
    ensures Owned(l, blocks', inodes[i := ip'], Disowned(owner, i))
  {
    var inodes', owner' := inodes[i := ip'], Disowned(owner, i);
    forall j, m | 0 <= j < |inodes| && j != i && 0 <= m <= MAXFILE
      ensures Addr(blocks', inodes[j], m) == Addr(blocks, inodes[j], m)
    {
      if inodes[j].addrs[NDIRECT] != 0 {
        IndirectIsOwned(l, blocks, inodes, owner, j);
      }
      AddrStays(blocks, blocks', inodes[j], m);
    }
    forall b | 0 <= b < l.size ensures BlockOk(l, blocks', inodes', owner', b) {
      assert BlockOk(l, blocks, inodes, owner, b);
    }
    forall j, m | 0 <= j < |inodes'| && 0 <= m <= MAXFILE ensures SlotOk(blocks', inodes'[j], owner', j, m) {
      assert SlotOk(blocks, inodes[j], owner, j, m);
    }
  }

  // ----- conservation

  ghost function FreeBlocks(l: Layout, blocks: seq<Block>): set<nat>
    requires LayoutOk(l) && |blocks| == l.size
  {
    set b | b in Range(l.datastart, l.size) && !Used(l, blocks, b)
  }

  /** Free blocks, owned blocks and metadata add up to the disk. */
  lemma Conservation(l: Layout, blocks: seq<Block>, inodes: seq<Inode>, owner: map<nat, Slot>)
    requires Owned(l, blocks, inodes, owner)
    ensures |FreeBlocks(l, blocks)| + |owner| + l.datastart == l.size
  {
    var free, all := FreeBlocks(l, blocks), Range(l.datastart, l.size);
    forall b | b in all ensures b in free <==> b !in owner {
      assert BlockOk(l, blocks, inodes, owner, b);
    }
    forall b | b in owner ensures b in all {
      assert BlockOk(l, blocks, inodes, owner, b);
    }
    assert free == all - owner.Keys;
  }
}
