/** Truncating a file whose blocks are spread over the disk can log more blocks than one
    operation may: one for each block of the free map that holds a bit of them. */
module FsTrunc {
  import opened FsFormat
  import opened FsModel
  import opened FsProofs
  import opened FsInode
  import opened FsContent
  import opened FsLogged
  import opened FsCode
  import opened Sets

  const MAPS: nat := 10
  const DATA: nat := 43

  /** One block of inodes, ten of the free map. */
  function Lay(): Layout {
    Layout(MAPS * BPB, 32, 33, DATA)
  }

  /** The file has ten blocks, the q-th the first one whose bit is in the q-th block of the map. */
  function At(q: nat): nat {
    if q == 0 then DATA else q * BPB
  }

  function Numbers(): (r: seq<nat>)
    ensures |r| == NDIRECT + 1 && forall k :: 0 <= k <= NDIRECT ==> r[k] == if k < MAPS then At(k) else 0
  {
    seq(NDIRECT + 1, k requires 0 <= k => if k < MAPS then At(k) else 0)
  }

  function Node(): Inode {
    Inode(Numbers(), MAPS * BSIZE, 0, 0)
  }

  function Owners(): map<nat, Slot> {
    map b: nat | DATA <= b < MAPS * BPB && b == At(b / BPB) :: Slot(0, b / BPB)
  }

  /** A block of the free map with its first n bits set. */
  function FirstBits(n: nat): (b: Block)
    requires n <= BPB
    ensures forall j :: 0 <= j < BPB ==> (BitAt(b, j) <==> j < n)
  {
    if n == 0 then
      NoBits();
      seq(BSIZE, i => 0)
    else Marked(FirstBits(n - 1), n - 1)
  }

  lemma {:induction false} ZeroBit(k: nat)
    ensures !Bit(0, k)
  {
    if k > 0 {
      ZeroBit(k - 1);
    }
  }

  lemma NoBits()
    ensures var b: Block := seq(BSIZE, i => 0); forall j :: 0 <= j < BPB ==> !BitAt(b, j)
  {
    var b: Block := seq(BSIZE, i => 0);
    forall j | 0 <= j < BPB ensures !BitAt(b, j) {
      ZeroBit(j % 8);
    }
  }

  function BlockAt(b: nat): Block {
    if b == 33 then FirstBits(DATA + 1) else if 33 < b < DATA then FirstBits(1) else seq(BSIZE, i => 0)
  }

  function Blocks(): (r: seq<Block>)
    ensures |r| == MAPS * BPB && forall b :: 0 <= b < |r| ==> r[b] == BlockAt(b)
  {
    seq(MAPS * BPB, b requires 0 <= b => BlockAt(b))
  }

  lemma UsedIs(b: nat)
    requires b < MAPS * BPB
    ensures LayoutOk(Lay()) && (Used(Lay(), Blocks(), b) <==> b < DATA || b == At(b / BPB))
  {
    var q := b / BPB;
    assert BBlock(Lay(), b) == 33 + q && Blocks()[33 + q] == BlockAt(33 + q);
    assert b == q * BPB + b % BPB;
  }

  lemma AddrIs(n: nat)
    requires n <= MAXFILE
    ensures Addr(Blocks(), Node(), n) == if n < MAPS then At(n) else 0
  {
  }

  lemma AtIn(q: nat)
    requires q < MAPS
    ensures DATA <= At(q) < MAPS * BPB && At(q) / BPB == q
  {
  }

  lemma SpreadOwned()
    ensures Owned(Lay(), Blocks(), [Node()], Owners()) && AllFilled(Lay(), Blocks(), [Node()])
    ensures InodeArea(Lay(), 1)
  {
    var l, B, I, O := Lay(), Blocks(), [Node()], Owners();
    assert InodeOk(l, Node());
    forall b | 0 <= b < l.size ensures BlockOk(l, B, I, O, b) {
      UsedIs(b);
      assert b / BPB < MAPS;
      AddrIs(b / BPB);
    }
    forall i, n | 0 <= i < |I| && 0 <= n <= MAXFILE ensures SlotOk(B, I[i], O, i, n) {
      AddrIs(n);
      if n < MAPS {
        AtIn(n);
      }
    }
    forall n | 0 <= n < BlockCount(Node().size) ensures Addr(B, Node(), n) != 0 {
      AddrIs(n);
    }
  }

  /** Every block of the free map holds one of the file's bits. */
  lemma MapHit(m: nat)
    requires Lay().bmapstart <= m < Lay().datastart
    ensures m in MapsOf(Lay(), OwnedBelow(Owners(), 0, MAXFILE + 1))
  {
    var b := At(m - 33);
    AtIn(m - 33);
    assert b in Owners() && Owners()[b] == Slot(0, m - 33);
    assert b in OwnedBelow(Owners(), 0, MAXFILE + 1) && BBlock(Lay(), b) == m;
  }

  lemma SpreadCost(l: Layout)
    requires l == Lay()
    ensures |TruncLogs(l, Owners(), 0)| > l.datastart - l.bmapstart
  {
    SpreadOwned();
    TruncCost(l, Blocks(), [Node()], Owners(), 0);
    var maps := MapsOf(l, OwnedBelow(Owners(), 0, MAXFILE + 1));
    forall m | m in Range(l.bmapstart, l.datastart) ensures m in maps {
      MapHit(m);
    }
    SubsetSize(Range(l.bmapstart, l.datastart), maps);
  }

  /** itrunc of that file logs more than MAXOPBLOCKS blocks. */
  method TruncOverflowsLog() returns (fs: FileSys)
    ensures fs.Valid() && fs.l == Lay() && fs.owner == Disowned(Owners(), 0)
    ensures fs.logged == TruncLogs(Lay(), Owners(), 0) && |fs.logged| > MAXOPBLOCKS
  {
    SpreadOwned();
    fs := new FileSys.Running(Lay(), Blocks(), [Node()], Owners());
    fs.Itrunc(0);
    SpreadCost(Lay());
  }
}
