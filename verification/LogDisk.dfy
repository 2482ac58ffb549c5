/** The on-disk redo log: a header block naming home blocks, then one slot per
    named block.  What a disk image means is what recovery makes of it. */
module LogDisk {
  const MAXOPBLOCKS: nat := 10
  const LOGBLOCKS: nat := MAXOPBLOCKS * 3

  /** A block seen as BSIZE / sizeof(uint) words. */
  type Block = b: seq<nat> | |b| == 256 witness seq(256, i => 0)

  type Image = seq<Block>

  /** Block numbers outside the log area [start, start + LOGBLOCKS]. */
  predicate Home(start: nat, b: nat) {
    b < start || start + LOGBLOCKS < b
  }

  /** The slot that holds the k-th logged block. */
  function SlotBlock(start: nat, k: nat): nat {
    start + 1 + k
  }

  ghost predicate Distinct(s: seq<nat>) {
    forall i, j :: 0 <= i < j < |s| ==> s[i] != s[j]
  }

  predicate HeaderFits(b: Block) {
    b[0] <= LOGBLOCKS
  }

  /** The block numbers a header block lists. */
  function Header(b: Block): seq<nat>
    requires HeaderFits(b)
  {
    b[1..1 + b[0]]
  }

  /** The header block after write_head stored n and block[0..n) over b: words
      past the new entries keep their old values. */
  function WithHeader(b: Block, blocks: seq<nat>): (r: Block)
    requires |blocks| <= LOGBLOCKS
    ensures HeaderFits(r) && Header(r) == blocks
  {
    [|blocks|] + blocks + b[1 + |blocks|..]
  }

  /** A header that recovery can follow: it fits, and it names distinct home blocks of the disk. */
  ghost predicate LogOk(d: Image, start: nat) {
    && start + LOGBLOCKS < |d|
    && HeaderFits(d[start])
    && EntriesOk(Header(d[start]), start, |d|)
  }

  ghost predicate EntriesOk(blocks: seq<nat>, start: nat, size: nat) {
    && |blocks| <= LOGBLOCKS
    && Distinct(blocks)
    && forall k :: 0 <= k < |blocks| ==> Home(start, blocks[k]) && blocks[k] < size
  }

  /** Position of the first entry for b, or |blocks| when there is none. */
  function Find(blocks: seq<nat>, b: nat): (k: nat)
    ensures k <= |blocks|
    ensures k < |blocks| ==> blocks[k] == b
    ensures forall j :: 0 <= j < k ==> blocks[j] != b
  {
    if blocks == [] then 0 else if blocks[0] == b then 0 else
      var k := Find(blocks[1..], b);
      assert forall j :: 1 <= j < k + 1 ==> blocks[j] == blocks[1..][j - 1];
      k + 1
  }

  /** What block b reads once recovery has finished on image d. */
  function AfterRecovery(d: Image, start: nat, b: nat): Block
    requires start + LOGBLOCKS < |d| && HeaderFits(d[start]) && b < |d|
  {
    var k := Find(Header(d[start]), b);
    if k < d[start][0] then d[SlotBlock(start, k)] else d[b]
  }

  /** install_trans as a fold over images: entries k.. are copied home in order. */
  function Replay(d: Image, start: nat, blocks: seq<nat>, k: nat): (r: Image)
    requires k <= |blocks| <= LOGBLOCKS && start + LOGBLOCKS < |d|
    requires forall j :: 0 <= j < |blocks| ==> blocks[j] < |d|
    ensures |r| == |d|
    decreases |blocks| - k
  {
    if k == |blocks| then d
    else Replay(d[blocks[k] := d[SlotBlock(start, k)]], start, blocks, k + 1)
  }

  /** A header survives the write and read back of its block. */
  lemma HeaderRoundTrip(b: Block, blocks: seq<nat>)
    requires |blocks| <= LOGBLOCKS
    ensures Header(WithHeader(b, blocks)) == blocks
    ensures forall i :: |blocks| < i < 256 ==> WithHeader(b, blocks)[i] == b[i]
  {
  }

  lemma FindUnique(blocks: seq<nat>, k: nat)
    requires Distinct(blocks) && k < |blocks|
    ensures Find(blocks, blocks[k]) == k
  {
  }

  /** Replaying from entry k leaves the log area alone, gives entry j >= k its slot,
      and changes nothing else. */
  lemma {:induction false} ReplayPointwise(d: Image, start: nat, blocks: seq<nat>, k: nat, b: nat)
    requires k <= |blocks| && start + LOGBLOCKS < |d| && EntriesOk(blocks, start, |d|)
    requires b < |d|
    ensures var r := Replay(d, start, blocks, k);
      && (b !in blocks[k..] ==> r[b] == d[b])
      && (b in blocks[k..] ==> r[b] == d[SlotBlock(start, Find(blocks, b))])
    decreases |blocks| - k
  {
    if k < |blocks| {
      FindUnique(blocks, k);
      var d' := d[blocks[k] := d[SlotBlock(start, k)]];
      ReplayPointwise(d', start, blocks, k + 1, b);
      assert blocks[k..] == [blocks[k]] + blocks[k + 1..];
    }
  }

  /** The fold computes exactly the meaning of the image, on every home block. */
  lemma ReplayIsRecovery(d: Image, start: nat, b: nat)
    requires LogOk(d, start) && b < |d| && Home(start, b)
    ensures Replay(d, start, Header(d[start]), 0)[b] == AfterRecovery(d, start, b)
  {
    var h := Header(d[start]);
    ReplayPointwise(d, start, h, 0, b);
    assert h[0..] == h;
  }
}
