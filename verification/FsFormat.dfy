/** On-disk encodings of the file system (kernel/fs.h): bits of the free map, words of
    an indirect block. */
module FsFormat {
  const BSIZE: nat := 1024
  const BPB: nat := BSIZE * 8
  const NDIRECT: nat := 12
  const NINDIRECT: nat := BSIZE / 4
  const MAXFILE: nat := NDIRECT + NINDIRECT
  const IPB: nat := 16
  const UINT_MAX: nat := 0xFFFF_FFFF

  type Byte = x: int | 0 <= x < 256
  type Block = b: seq<Byte> | |b| == 1024 witness seq(1024, i => 0)

  // ----- bits

  function Mask(k: nat): nat {
    if k == 0 then 1 else 2 * Mask(k - 1)
  }

  /** (x & (1 << k)) != 0 */
  predicate Bit(x: nat, k: nat) {
    if k == 0 then x % 2 == 1 else Bit(x / 2, k - 1)
  }

  /** x | (1 << k), for a clear bit: no carry, so it is a sum. */
  lemma {:induction false} SetBit(x: nat, k: nat, j: nat)
    requires !Bit(x, k)
    ensures Bit(x + Mask(k), j) <==> j == k || Bit(x, j)
    decreases k
  {
    if k > 0 {
      assert (x + Mask(k)) / 2 == x / 2 + Mask(k - 1) && (x + Mask(k)) % 2 == x % 2;
      if j > 0 {
        SetBit(x / 2, k - 1, j - 1);
      }
    } else if j > 0 {
      assert (x + 1) / 2 == x / 2;
    }
  }

  /** x & ~(1 << k), for a set bit: no borrow, so it is a difference. */
  lemma {:induction false} ClearBit(x: nat, k: nat, j: nat)
    requires Bit(x, k)
    ensures Mask(k) <= x
    ensures Bit(x - Mask(k), j) <==> j != k && Bit(x, j)
    decreases k
  {
    if k > 0 {
      ClearBit(x / 2, k - 1, if j > 0 then j - 1 else 0);
      assert (x - Mask(k)) / 2 == x / 2 - Mask(k - 1) && (x - Mask(k)) % 2 == x % 2;
    } else if j > 0 {
      assert (x - 1) / 2 == x / 2;
    }
  }

  /** A byte with one more bit set is a byte. */
  lemma {:induction false} SetBitFits(x: nat, k: nat, n: nat)
    requires !Bit(x, k) && x < Mask(n) && k < n
    ensures x + Mask(k) < Mask(n)
    decreases k
  {
    if k > 0 {
      SetBitFits(x / 2, k - 1, n - 1);
    }
  }

  /** Bit bi of a free-map block. */
  predicate BitAt(b: Block, bi: nat)
    requires bi < BPB
  {
    Bit(b[bi / 8], bi % 8)
  }

  function Marked(b: Block, bi: nat): (r: Block)
    requires bi < BPB && !BitAt(b, bi)
    ensures forall j :: 0 <= j < BPB ==> (BitAt(r, j) <==> j == bi || BitAt(b, j))
  {
    MarkedBits(b, bi);
    b[bi / 8 := b[bi / 8] + Mask(bi % 8)]
  }

  lemma MarkedBits(b: Block, bi: nat)
    requires bi < BPB && !BitAt(b, bi)
    ensures b[bi / 8] + Mask(bi % 8) < 256
    ensures forall j :: 0 <= j < BPB ==> (BitAt(b[bi / 8 := b[bi / 8] + Mask(bi % 8)], j) <==> j == bi || BitAt(b, j))
  {
    assert Mask(8) == 256;
    SetBitFits(b[bi / 8], bi % 8, 8);
    var r := b[bi / 8 := b[bi / 8] + Mask(bi % 8)];
    forall j | 0 <= j < BPB ensures BitAt(r, j) <==> j == bi || BitAt(b, j) {
      SetBit(b[bi / 8], bi % 8, j % 8);
    }
  }

  function Cleared(b: Block, bi: nat): (r: Block)
    requires bi < BPB && BitAt(b, bi)
    ensures forall j :: 0 <= j < BPB ==> (BitAt(r, j) <==> j != bi && BitAt(b, j))
  {
    ClearedBits(b, bi);
    b[bi / 8 := b[bi / 8] - Mask(bi % 8)]
  }

  lemma ClearedBits(b: Block, bi: nat)
    requires bi < BPB && BitAt(b, bi)
    ensures 0 <= b[bi / 8] - Mask(bi % 8)
    ensures forall j :: 0 <= j < BPB ==> (BitAt(b[bi / 8 := b[bi / 8] - Mask(bi % 8)], j) <==> j != bi && BitAt(b, j))
  {
    ClearBit(b[bi / 8], bi % 8, 0);
    var r := b[bi / 8 := b[bi / 8] - Mask(bi % 8)];
    forall j | 0 <= j < BPB ensures BitAt(r, j) <==> j != bi && BitAt(b, j) {
      ClearBit(b[bi / 8], bi % 8, j % 8);
    }
  }

  // ----- words

  /** Little-endian 32-bit word j of a block. */
  function Word(b: Block, j: nat): nat
    requires j < NINDIRECT
  {
    b[4 * j] as int + 256 * (b[4 * j + 1] as int) + 65536 * (b[4 * j + 2] as int) + 16777216 * (b[4 * j + 3] as int)
  }

  function WithWord(b: Block, j: nat, v: nat): Block
    requires j < NINDIRECT && v <= UINT_MAX
  {
    b[4 * j := v % 256][4 * j + 1 := v / 256 % 256][4 * j + 2 := v / 65536 % 256][4 * j + 3 := v / 16777216]
  }

  lemma WordBytes(v: nat)
    requires v <= UINT_MAX
    ensures v / 16777216 < 256
    ensures v == v % 256 + 256 * (v / 256 % 256) + 65536 * (v / 65536 % 256) + 16777216 * (v / 16777216)
  {
    assert v / 256 / 256 == v / 65536 && v / 65536 / 256 == v / 16777216;
  }

  lemma WithWordAt(b: Block, j: nat, v: nat, k: nat)
    requires j < NINDIRECT && k < NINDIRECT && v <= UINT_MAX
    ensures Word(WithWord(b, j, v), k) == if k == j then v else Word(b, k)
  {
    WordBytes(v);
  }
}
