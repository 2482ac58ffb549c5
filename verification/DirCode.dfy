/** dirlookup and dirlink of kernel/fs.c, over readi and writei. */
module DirCode {
  import opened FsFormat
  import opened FsModel
  import opened FsContent
  import opened FsCode
  import opened DirModel
  import FsProofs

  class Directory {
    const fs: FileSys
    const dp: nat

    constructor (fs: FileSys, dp: nat)
      ensures this.fs == fs && this.dp == dp
    {
      this.fs, this.dp := fs, dp;
    }

    /** A directory file: whole entries, distinct names. */
    ghost predicate Valid()
      reads this, fs
    {
      fs.Filled() && dp < |fs.inodes| && Even(fs.Data(dp)) && Distinct(fs.Data(dp))
    }

    /** Nothing is written: readi only looks blocks up. */
    twostate predicate Quiet()
      reads fs
    {
      && fs.blocks == old(fs.blocks) && fs.inodes == old(fs.inodes) && fs.owner == old(fs.owner)
      && fs.logged == old(fs.logged)
    }

    method ReadEntry(k: nat) returns (e: seq<Byte>)
      requires Valid() && k * ENTRY < fs.inodes[dp].size
      modifies fs
      ensures Quiet() && Valid() && k < Count(fs.Data(dp)) && e == Entry(fs.Data(dp), k)
    {
      ghost var c := fs.Data(dp);
      assert |c| == Count(c) * ENTRY && k < Count(c);
      var r;
      r, e := fs.Readi(dp, k * ENTRY, ENTRY, ENTRY);
      // a short read is the source's "dirlookup read" panic
      assert r == ENTRY;
    }

    /** dirlookup's test of one entry. */
    static method EntryIs(e: seq<Byte>, name: seq<Byte>) returns (r: bool)
      requires |e| == ENTRY && Readable(name, DIRSIZ)
      ensures r <==> Holds(e, NameOf(name, DIRSIZ))
    {
      r := false;
      if Inum(e) != 0 {
        var d := Strncmp(name, e[2..], DIRSIZ);
        r := d == 0;
      }
    }

    /** The inode number and the byte offset of the entry with this name; 0 for none. */
    method Dirlookup(name: seq<Byte>) returns (inum: nat, off: nat, ghost k: nat)
      requires Valid() && Readable(name, DIRSIZ)
      modifies fs
      ensures Quiet() && Valid()
      ensures inum == Lookup(fs.Data(dp), NameOf(name, DIRSIZ))
      ensures inum != 0 ==>
        && off == k * ENTRY && k < Count(fs.Data(dp))
        && Inum(Entry(fs.Data(dp), k)) == inum && Name(Entry(fs.Data(dp), k)) == NameOf(name, DIRSIZ)
    {
      var i := 0;
      k := 0;
      ghost var c := fs.Data(dp);
      assert |c| == Count(c) * ENTRY;
      while i * ENTRY < fs.inodes[dp].size
        invariant Quiet() && Valid() && i <= Count(c) && c == fs.Data(dp)
        invariant Lookup(c, NameOf(name, DIRSIZ)) == LookupFrom(c, i, NameOf(name, DIRSIZ))
        decreases Count(c) - i
      {
        var e := ReadEntry(i);
        var found := EntryIs(e, name);
        if found {
          return Inum(e), i * ENTRY, i;
        }
        i := i + 1;
      }
      return 0, 0, 0;
    }

    /** dirlink's scan for a dead entry; the number of entries when there is none. */
    method DeadEntry() returns (k: nat)
      requires Valid()
      modifies fs
      ensures Quiet() && Valid() && k <= Count(fs.Data(dp))
      ensures k < Count(fs.Data(dp)) ==> Inum(Entry(fs.Data(dp), k)) == 0
      ensures forall j :: 0 <= j < k ==> Inum(Entry(fs.Data(dp), j)) != 0
    {
      k := 0;
      ghost var c := fs.Data(dp);
      assert |c| == Count(c) * ENTRY;
      while k * ENTRY < fs.inodes[dp].size
        invariant Quiet() && Valid() && k <= Count(c) && c == fs.Data(dp)
        invariant forall j :: 0 <= j < k ==> Inum(Entry(c, j)) != 0
        decreases Count(c) - k
      {
        var e := ReadEntry(k);
        if Inum(e) == 0 {
          return;
        }
        k := k + 1;
      }
    }

    /** Writes entry e at place k: all of it or nothing. */
    method PutEntry(k: nat, e: seq<Byte>) returns (ok: bool)
      requires fs.Filled() && dp < |fs.inodes| && Even(fs.Data(dp)) && k <= Count(fs.Data(dp)) && |e| == ENTRY
      modifies fs
      ensures fs.Filled() && dp < |fs.inodes| == |old(fs.inodes)|
      ensures fs.Data(dp) == if ok then Linked(old(fs.Data(dp)), k, e) else old(fs.Data(dp))
      ensures !ok ==> k * ENTRY + ENTRY > MAXFILE * BSIZE || FsProofs.DiskFull(fs.l, fs.blocks)
      ensures SameFields(old(fs.inodes)[dp], fs.inodes[dp])
      ensures forall j :: 0 <= j < |fs.inodes| && j != dp ==>
        fs.inodes[j] == old(fs.inodes)[j] && fs.Data(j) == old(fs.Data(j))
    {
      ghost var c := fs.Data(dp);
      EntryPlace(c, k);
      var r, _, _ := fs.Writei(dp, k * ENTRY, e, ENTRY);
      ok := r == ENTRY;
      if r != -1 {
        WholeEntry(k, r);
        EntryWritten(c, k, e, r);
      }
    }

    /** The entry (name, inum) into the first dead place. */
    method AddEntry(name: seq<Byte>, inum: nat) returns (ok: bool)
      requires Valid() && Readable(name, DIRSIZ) && Lookup(fs.Data(dp), NameOf(name, DIRSIZ)) == 0
      modifies fs
      ensures Valid() && |fs.inodes| == |old(fs.inodes)|
      ensures ok ==> Bound(old(fs.Data(dp)), fs.Data(dp), NameOf(name, DIRSIZ), inum % 65536)
      ensures !ok ==> fs.Data(dp) == old(fs.Data(dp))
      ensures !ok ==> |fs.Data(dp)| + ENTRY > MAXFILE * BSIZE || FsProofs.DiskFull(fs.l, fs.blocks)
      ensures SameFields(old(fs.inodes)[dp], fs.inodes[dp])
      ensures forall j :: 0 <= j < |fs.inodes| && j != dp ==>
        fs.inodes[j] == old(fs.inodes)[j] && fs.Data(j) == old(fs.Data(j))
    {
      var k := DeadEntry();
      var padded := Strncpy(name, DIRSIZ);
      var e := Pack(inum, padded);
      ghost var c := fs.Data(dp);
      ghost var c' := Linked(c, k, e);
      LinkedIsUpdate(c, k, e);
      assert k * ENTRY <= |c| && Name(e) == NameOf(name, DIRSIZ);
      ok := PutEntry(k, e);
      assert fs.Data(dp) == if ok then c' else c;
    }

    /** Adds (name, inum).  Success binds the name to the low 16 bits of inum and leaves
        every other name as it was; failure leaves every name as it was. */
    method Dirlink(name: seq<Byte>, inum: nat) returns (r: int)
      requires Valid() && Readable(name, DIRSIZ) && inum <= UINT_MAX
      modifies fs
      ensures Valid() && |fs.inodes| == |old(fs.inodes)| && (r == 0 || r == -1)
      ensures old(Lookup(fs.Data(dp), NameOf(name, DIRSIZ))) != 0 ==> r == -1 && Quiet()
      ensures r == 0 ==> Bound(old(fs.Data(dp)), fs.Data(dp), NameOf(name, DIRSIZ), inum % 65536)
      ensures r == -1 ==> fs.Data(dp) == old(fs.Data(dp))
      ensures r == -1 && old(Lookup(fs.Data(dp), NameOf(name, DIRSIZ))) == 0 ==>
        |fs.Data(dp)| + ENTRY > MAXFILE * BSIZE || FsProofs.DiskFull(fs.l, fs.blocks)
      ensures SameFields(old(fs.inodes)[dp], fs.inodes[dp])
      ensures forall j :: 0 <= j < |fs.inodes| && j != dp ==>
        fs.inodes[j] == old(fs.inodes)[j] && fs.Data(j) == old(fs.Data(j))
    {
      var found, _, _ := Dirlookup(name);
      if found != 0 {
        return -1;
      }
      var ok := AddEntry(name, inum);
      r := if ok then 0 else -1;
    }
  }

  /** What a whole write of an entry, or none, makes of the directory. */
  lemma EntryWritten(c: seq<Byte>, k: nat, e: seq<Byte>, r: nat)
    requires Even(c) && k <= Count(c) && |e| == ENTRY && (r == 0 || r == ENTRY)
    ensures k * ENTRY <= |c| && Max(|c|, k * ENTRY + r) <= |Spliced(c, k * ENTRY, e[..r])|
    ensures Spliced(c, k * ENTRY, e[..r])[..Max(|c|, k * ENTRY + r)] == if r == ENTRY then Linked(c, k, e) else c
  {
    assert |c| == Count(c) * ENTRY;
    SplicedReads(c, k * ENTRY, e[..r]);
    assert e[..r] == if r == ENTRY then e else [];
    assert Spliced(c, k * ENTRY, []) == c;
  }

  /** An aligned entry lies in one block, so no write of it stops inside. */
  lemma EntryPlace(c: seq<Byte>, k: nat)
    requires Even(c) && k <= Count(c)
    ensures k * ENTRY <= |c|
  {
    assert |c| == Count(c) * ENTRY;
  }

  lemma WholeEntry(k: nat, r: int)
    requires 0 <= r <= ENTRY && (r == 0 || r == ENTRY || (k * ENTRY + r) % BSIZE == 0)
    ensures r == 0 || r == ENTRY
  {
    assert (k * ENTRY + r) % ENTRY == r % ENTRY;
    assert (k * ENTRY + r) % BSIZE == 0 ==> (k * ENTRY + r) % ENTRY == 0;
  }
}
