/** Disks on which one write logs as much as it can: all files but one are as large as they
    get, and every block of the free map has a single bit left to set. */
module FsTight {
  import opened FsFormat
  import opened FsModel
  import opened FsInode
  import opened FsContent

  /** MAXFILE + 1 places of a file, the indirect block's among them. */
  const PLACES: nat := 269
  const DATA: nat := 70

  /** Such a disk: blocks of the free map, and blocks and size of the file to be written. */
  datatype Disk = Disk(maps: nat, own: nat, size: nat)

  predicate Fits(d: Disk) {
    1 <= d.maps <= 5 && 1 <= d.own <= NDIRECT && BlockCount(d.size) == d.own
  }

  /** Large files; every 31st of them lacks its last block. */
  function Large(d: Disk): nat
    requires Fits(d)
  {
    31 * (d.maps - 1) + 1
  }

  /** File g keeps its block n at the n-th place of its own stretch of the disk. */
  function At(g: nat, n: nat): nat {
    DATA + PLACES * g + n
  }

  function Lay(d: Disk): Layout
    requires Fits(d)
  {
    Layout(At(Large(d), d.own), 32, 48, DATA)
  }

  /** The block that belongs to the last place of file 31 * q, which does not have it. */
  function Gap(q: nat): nat {
    At(31 * q, MAXFILE - 1)
  }

  predicate IsGap(d: Disk, b: nat) {
    b / BPB < d.maps && b == Gap(b / BPB)
  }

  /** Each gap has its own block of the free map. */
  lemma GapPlace(q: nat)
    requires q < 5
    ensures Gap(q) / BPB == q && Gap(q) >= DATA
  {
    assert Gap(q) == 337 + 8339 * q;
  }

  lemma LaySize(d: Disk)
    requires Fits(d)
    ensures LayoutOk(Lay(d)) && (Lay(d).size - 1) / BPB < d.maps && InodeArea(Lay(d), Large(d) + 1)
    ensures forall q :: 0 <= q < d.maps ==> Gap(q) < Lay(d).size
    ensures forall b :: 0 <= b < Lay(d).size ==> b / BPB < d.maps
  {
    assert Lay(d).size == 339 + 8339 * (d.maps - 1) + d.own;
    assert forall q :: 0 <= q < d.maps ==> Gap(q) == 337 + 8339 * q;
  }

  /** The file and place that a block belongs to. */
  function Place(b: nat): Slot
    requires b >= DATA
  {
    Slot((b - DATA) / PLACES, (b - DATA) % PLACES)
  }

  lemma PlaceOfAt(g: nat, n: nat)
    requires n <= MAXFILE
    ensures Place(At(g, n)) == Slot(g, n)
  {
    assert (PLACES * g + n) / PLACES == g && (PLACES * g + n) % PLACES == n by {
      DivMul(g, n);
    }
  }

  lemma DivMul(g: nat, n: nat)
    requires n < 269
    ensures (269 * g + n) / 269 == g && (269 * g + n) % 269 == n
  {
  }

  lemma AtOfPlace(b: nat)
    requires b >= DATA
    ensures At(Place(b).inum, Place(b).n) == b && Place(b).n <= MAXFILE
  {
  }

  /** Which places are gaps. */
  lemma GapIs(d: Disk, g: nat, n: nat)
    requires Fits(d) && n <= MAXFILE && At(g, n) < Lay(d).size
    ensures IsGap(d, At(g, n)) <==> g < Large(d) && g % 31 == 0 && n == MAXFILE - 1
  {
    LaySize(d);
    if g < Large(d) && g % 31 == 0 && n == MAXFILE - 1 {
      assert At(g, n) == Gap(g / 31) && g / 31 < d.maps;
      GapPlace(g / 31);
    }
    if IsGap(d, At(g, n)) {
      var q := At(g, n) / BPB;
      PlaceOfAt(g, n);
      PlaceOfAt(31 * q, MAXFILE - 1);
    }
  }

  // ----- contents

  function Zero(): (b: Block)
    ensures forall j :: 0 <= j < NINDIRECT ==> Word(b, j) == 0
  {
    seq(BSIZE, i => 0)
  }

  function Ones(): (b: Block)
    ensures forall k :: 0 <= k < BPB ==> BitAt(b, k)
  {
    var b: Block := seq(BSIZE, i => 255);
    OnesBits();
    assert forall k :: 0 <= k < BPB ==> b[k / 8] == 255;
    b
  }

  lemma OnesBits()
    ensures forall k :: 0 <= k < 8 ==> Bit(255, k)
  {
    assert Bit(255, 0) && Bit(255, 1) && Bit(255, 2) && Bit(255, 3);
    assert Bit(15, 0) && Bit(15, 1) && Bit(15, 2) && Bit(15, 3);
    forall k | 4 <= k < 8 ensures Bit(255, k) {
      HighBits(k);
    }
  }

  lemma HighBits(k: nat)
    requires 4 <= k < 8
    ensures Bit(255, k)
  {
    assert Bit(255, k) == Bit(127, k - 1) == Bit(63, k - 2) == Bit(31, k - 3) == Bit(15, k - 4);
    assert Bit(15, k - 4);
  }

  /** An indirect block that lists first, first + 1, ... in its first k entries. */
  function Listing(first: nat, k: nat): (b: Block)
    requires k <= NINDIRECT && first + k <= UINT_MAX
    ensures forall j :: 0 <= j < NINDIRECT ==> Word(b, j) == if j < k then first + j else 0
  {
    if k == 0 then Zero() else
      var b := Listing(first, k - 1);
      ListingGrows(b, k - 1, first + k - 1);
      WithWord(b, k - 1, first + k - 1)
  }

  lemma ListingGrows(b: Block, k: nat, v: nat)
    requires k < NINDIRECT && v <= UINT_MAX
    ensures forall j :: 0 <= j < NINDIRECT ==> Word(WithWord(b, k, v), j) == if j == k then v else Word(b, j)
  {
    forall j | 0 <= j < NINDIRECT ensures Word(WithWord(b, k, v), j) == if j == k then v else Word(b, j) {
      WithWordAt(b, k, v, j);
    }
  }

  function BlockAt(d: Disk, b: nat): Block
    requires Fits(d) && b < Lay(d).size
  {
    LaySize(d);
    if 48 <= b < 48 + d.maps then
      GapPlace(b - 48);
      Cleared(Ones(), Gap(b - 48) % BPB)
    else if b >= DATA && Place(b).n == MAXFILE then
      Listing(b - NINDIRECT, if Place(b).inum % 31 == 0 then NINDIRECT - 1 else NINDIRECT)
    else Zero()
  }

  function Blocks(d: Disk): (r: seq<Block>)
    requires Fits(d)
    ensures |r| == Lay(d).size && forall b :: 0 <= b < |r| ==> r[b] == BlockAt(d, b)
  {
    seq(Lay(d).size, b requires 0 <= b < Lay(d).size => BlockAt(d, b))
  }

  /** The block numbers in the inode of a file that has its first `own` blocks, and an
      indirect block if it is large. */
  function Numbers(g: nat, own: nat, large: bool): (r: seq<nat>)
    ensures |r| == NDIRECT + 1 && r[NDIRECT] == (if large then At(g, MAXFILE) else 0)
    ensures forall j :: 0 <= j < NDIRECT ==> r[j] == if j < own then At(g, j) else 0
  {
    seq(NDIRECT, j requires 0 <= j < NDIRECT => if j < own then At(g, j) else 0) + [if large then At(g, MAXFILE) else 0]
  }

  function Node(d: Disk, g: nat): Inode
    requires Fits(d)
  {
    if g < Large(d) then
      Inode(Numbers(g, NDIRECT, true), (if g % 31 == 0 then MAXFILE - 1 else MAXFILE) * BSIZE, 0, 0)
    else Inode(Numbers(g, d.own, false), d.size, 0, 0)
  }

  function Nodes(d: Disk): (r: seq<Inode>)
    requires Fits(d)
    ensures |r| == Large(d) + 1 && forall g :: 0 <= g <= Large(d) ==> r[g] == Node(d, g)
  {
    seq(Large(d) + 1, g requires 0 <= g <= Large(d) => Node(d, g))
  }

  function Owners(d: Disk): map<nat, Slot>
    requires Fits(d)
  {
    map b: nat | DATA <= b < Lay(d).size && !IsGap(d, b) :: Place(b)
  }

  // ----- the disk is consistent

  /** All blocks but the gaps are in use. */
  lemma GapsAreFree(d: Disk, b: nat)
    requires Fits(d) && b < Lay(d).size
    ensures LayoutOk(Lay(d)) && (Used(Lay(d), Blocks(d), b) <==> !IsGap(d, b))
  {
    LaySize(d);
    var q := b / BPB;
    GapPlace(q);
    assert BBlock(Lay(d), b) == 48 + q && Blocks(d)[48 + q] == BlockAt(d, 48 + q);
    assert BlockAt(d, 48 + q) == Cleared(Ones(), Gap(q) % BPB);
    SameBlockSameBit(b, Gap(q));
  }

  lemma SameBlockSameBit(a: nat, b: nat)
    requires a / BPB == b / BPB
    ensures a % BPB == b % BPB <==> a == b
  {
    assert a == a / BPB * BPB + a % BPB && b == b / BPB * BPB + b % BPB;
  }

  lemma NodesOk(d: Disk)
    requires Fits(d)
    ensures Shape(Lay(d), Blocks(d), Nodes(d))
  {
    LaySize(d);
    forall g | 0 <= g < |Nodes(d)| ensures InodeOk(Lay(d), Nodes(d)[g]) {
      assert Nodes(d)[g] == Node(d, g);
      if g < Large(d) {
        AtBelow(d, g, MAXFILE);
      }
    }
  }

  /** The stretches of large files lie before the last file's. */
  lemma AtBelow(d: Disk, g: nat, n: nat)
    requires Fits(d) && n <= MAXFILE && (g < Large(d) || (g == Large(d) && n < d.own))
    ensures At(g, n) < Lay(d).size
  {
    if g < Large(d) {
      assert PLACES * (g + 1) <= PLACES * Large(d);
    }
  }

  /** Each place stores its block's number, unless it is a gap or past the end of the file. */
  lemma StoredNumbers(d: Disk, g: nat, n: nat)
    requires Fits(d) && g <= Large(d) && n <= MAXFILE
    ensures Shape(Lay(d), Blocks(d), Nodes(d))
    ensures Addr(Blocks(d), Nodes(d)[g], n) ==
      if At(g, n) < Lay(d).size && !IsGap(d, At(g, n)) then At(g, n) else 0
  {
    NodesOk(d);
    assert Nodes(d)[g] == Node(d, g);
    if g < Large(d) {
      AtBelow(d, g, n);
      AtBelow(d, g, MAXFILE);
      GapIs(d, g, n);
      PlaceOfAt(g, MAXFILE);
      assert Blocks(d)[At(g, MAXFILE)] == BlockAt(d, At(g, MAXFILE));
    } else if n < d.own {
      AtBelow(d, g, n);
      GapIs(d, g, n);
    }
  }

  lemma TightOwned(d: Disk)
    requires Fits(d)
    ensures Owned(Lay(d), Blocks(d), Nodes(d), Owners(d))
  {
    NodesOk(d);
    var l, owner := Lay(d), Owners(d);
    forall b | 0 <= b < l.size ensures BlockOk(l, Blocks(d), Nodes(d), owner, b) {
      TightBlock(d, b);
    }
    forall g, n | 0 <= g < |Nodes(d)| && 0 <= n <= MAXFILE ensures SlotOk(Blocks(d), Nodes(d)[g], owner, g, n) {
      StoredNumbers(d, g, n);
      PlaceOfAt(g, n);
    }
  }

  lemma TightBlock(d: Disk, b: nat)
    requires Fits(d) && b < Lay(d).size && Shape(Lay(d), Blocks(d), Nodes(d))
    ensures BlockOk(Lay(d), Blocks(d), Nodes(d), Owners(d), b)
  {
    GapsAreFree(d, b);
    OwnersAt(d, b);
    if b < DATA {
      LowIsNoGap(d, b);
    } else {
      AtOfPlace(b);
      PlaceBelow(d, b);
      StoredNumbers(d, Place(b).inum, Place(b).n);
    }
  }

  lemma OwnersAt(d: Disk, b: nat)
    requires Fits(d)
    ensures b in Owners(d) <==> DATA <= b < Lay(d).size && !IsGap(d, b)
    ensures b in Owners(d) ==> Owners(d)[b] == Place(b)
  {
  }

  lemma LowIsNoGap(d: Disk, b: nat)
    requires Fits(d) && b < DATA
    ensures !IsGap(d, b)
  {
    if b / BPB < d.maps {
      GapPlace(b / BPB);
    }
  }

  lemma PlaceBelow(d: Disk, b: nat)
    requires Fits(d) && DATA <= b < Lay(d).size
    ensures Place(b).inum <= Large(d)
  {
  }

  lemma TightFilled(d: Disk)
    requires Fits(d)
    ensures Shape(Lay(d), Blocks(d), Nodes(d)) && AllFilled(Lay(d), Blocks(d), Nodes(d))
  {
    NodesOk(d);
    forall g | 0 <= g < |Nodes(d)| ensures NoHoles(Blocks(d), Nodes(d)[g]) {
      assert Nodes(d)[g] == Node(d, g);
      forall n | 0 <= n < BlockCount(Nodes(d)[g].size) ensures Addr(Blocks(d), Nodes(d)[g], n) != 0 {
        FilledPlace(d, g, n);
      }
    }
  }

  lemma FilledPlace(d: Disk, g: nat, n: nat)
    requires Fits(d) && g <= Large(d) && n < BlockCount(Node(d, g).size)
    ensures n < MAXFILE && Shape(Lay(d), Blocks(d), Nodes(d)) && Addr(Blocks(d), Nodes(d)[g], n) != 0
  {
    assert n < MAXFILE && (g < Large(d) && g % 31 == 0 ==> n < MAXFILE - 1);
    AtBelow(d, g, n);
    GapIs(d, g, n);
    StoredNumbers(d, g, n);
  }
}
