/** A directory's bytes as a map from names to inode numbers (kernel/fs.h, kernel/string.c). */
module DirModel {
  import opened FsFormat
  import opened FsContent

  const DIRSIZ: nat := 14
  const ENTRY: nat := 2 + DIRSIZ

  // ----- names: C strings cut off after n bytes

  /** A string that can be read as far as a comparison of n bytes looks. */
  predicate Readable(s: seq<Byte>, n: nat) {
    |s| >= n || 0 in s
  }

  function Stop(s: seq<Byte>, i: nat, n: nat): (r: nat)
    requires i <= n && (|s| >= n || exists k :: i <= k < |s| && s[k] == 0)
    ensures i <= r <= n && r <= |s| && (r < n ==> r < |s| && s[r] == 0)
    ensures forall k :: i <= k < r ==> s[k] != 0
    decreases n - i
  {
    if i == n || s[i] == 0 then i else Stop(s, i + 1, n)
  }

  /** The name that a string stands for: what precedes its NUL, at most n bytes. */
  function NameOf(s: seq<Byte>, n: nat): seq<Byte>
    requires Readable(s, n)
  {
    s[..Stop(s, 0, n)]
  }

  lemma StopIs(s: seq<Byte>, n: nat, k: nat)
    requires Readable(s, n) && k <= n && k <= |s| && (k < n ==> k < |s| && s[k] == 0)
    requires forall j :: 0 <= j < k ==> s[j] != 0
    ensures Stop(s, 0, n) == k && NameOf(s, n) == s[..k]
  {
  }

  /** strncmp: 0 exactly for strings with the same name; otherwise the difference of the
      bytes at the first place where they differ. */
  method Strncmp(p: seq<Byte>, q: seq<Byte>, n: nat) returns (r: int)
    requires Readable(p, n) && Readable(q, n)
    ensures r == 0 <==> NameOf(p, n) == NameOf(q, n)
    ensures r != 0 ==> exists k :: 0 <= k < |p| && k < |q| && p[..k] == q[..k] && r == p[k] as int - q[k] as int
  {
    var i := 0;
    while i < n && p[i] != 0 && p[i] == q[i]
      invariant i <= n && i <= |p| && i <= |q| && p[..i] == q[..i]
      invariant forall j :: 0 <= j < i ==> p[j] != 0
    {
      i := i + 1;
    }
    assert forall j :: 0 <= j < i ==> q[j] == q[..i][j] == p[j];
    if i == n {
      StopIs(p, n, n);
      StopIs(q, n, n);
      return 0;
    }
    r := p[i] as int - q[i] as int;
    NamesDiffer(p, q, n, i);
  }

  lemma NamesDiffer(p: seq<Byte>, q: seq<Byte>, n: nat, i: nat)
    requires Readable(p, n) && Readable(q, n) && i < n && i < |p| && i < |q| && p[..i] == q[..i]
    requires forall j :: 0 <= j < i ==> p[j] != 0 && q[j] != 0
    requires p[i] == 0 || p[i] != q[i]
    ensures NameOf(p, n) == NameOf(q, n) <==> p[i] == q[i]
  {
    var a, b := Stop(p, 0, n), Stop(q, 0, n);
    if p[i] == q[i] {
      StopIs(p, n, i);
      StopIs(q, n, i);
    } else if a == b && a > i {
      assert NameOf(p, n)[i] == p[i] && NameOf(q, n)[i] == q[i];
    }
  }

  /** strncpy into n bytes: the same name, padded with NULs. */
  method Strncpy(t: seq<Byte>, n: nat) returns (s: seq<Byte>)
    requires Readable(t, n)
    ensures |s| == n && NameOf(s, n) == NameOf(t, n)
    ensures forall k :: |NameOf(t, n)| <= k < n ==> s[k] == 0
  {
    s := [];
    var i := 0;
    while i < n && t[i] != 0
      invariant i <= n && i <= |t| && s == t[..i]
      invariant forall j :: 0 <= j < i ==> t[j] != 0
    {
      s := s + [t[i]];
      i := i + 1;
    }
    ghost var k := i;
    StopIs(t, n, k);
    while i < n
      invariant k <= i <= n && |s| == i && s[..k] == t[..k]
      invariant forall j :: k <= j < i ==> s[j] == 0
    {
      s := s + [0];
      i := i + 1;
    }
    assert forall j :: 0 <= j < k ==> s[j] == s[..k][j] == t[j];
    StopIs(s, n, k);
  }

  // ----- entries

  function Inum(e: seq<Byte>): nat
    requires |e| == ENTRY
  {
    e[0] as int + 256 * e[1] as int
  }

  function Name(e: seq<Byte>): seq<Byte>
    requires |e| == ENTRY
  {
    NameOf(e[2..], DIRSIZ)
  }

  lemma LowHalf(n: nat)
    ensures n % 65536 == n % 256 + 256 * (n / 256 % 256)
  {
    var q, r := n / 256, n % 256;
    LowPart(q / 256, 256 * (q % 256) + r);
  }

  lemma LowPart(p: nat, x: nat)
    requires x < 65536
    ensures (65536 * p + x) % 65536 == x
  {
  }

  /** An entry's bytes; the inode number keeps its low 16 bits. */
  function Pack(inum: nat, name: seq<Byte>): (e: seq<Byte>)
    requires |name| == DIRSIZ
    ensures |e| == ENTRY && Inum(e) == inum % 65536 && e[2..] == name
  {
    LowHalf(inum);
    [inum % 256, inum / 256 % 256] + name
  }

  /** Whole entries only. */
  predicate Even(c: seq<Byte>) {
    |c| % ENTRY == 0
  }

  function Count(c: seq<Byte>): nat {
    |c| / ENTRY
  }

  function Entry(c: seq<Byte>, k: nat): (e: seq<Byte>)
    requires k < Count(c)
    ensures |e| == ENTRY
  {
    c[k * ENTRY..k * ENTRY + ENTRY]
  }

  /** The first live entry from the k-th on that has this name; 0 for none. */
  function LookupFrom(c: seq<Byte>, k: nat, name: seq<Byte>): nat
    decreases Count(c) - k
  {
    if k >= Count(c) then 0
    else if Inum(Entry(c, k)) != 0 && Name(Entry(c, k)) == name then Inum(Entry(c, k))
    else LookupFrom(c, k + 1, name)
  }

  function Lookup(c: seq<Byte>, name: seq<Byte>): nat {
    LookupFrom(c, 0, name)
  }

  predicate Holds(e: seq<Byte>, name: seq<Byte>)
    requires |e| == ENTRY
  {
    Inum(e) != 0 && Name(e) == name
  }

  /** Live entries have pairwise different names. */
  ghost predicate Distinct(c: seq<Byte>) {
    forall i, j :: 0 <= i < j < Count(c) && Inum(Entry(c, i)) != 0 && Inum(Entry(c, j)) != 0 ==>
      Name(Entry(c, i)) != Name(Entry(c, j))
  }

  lemma {:induction false} LookupFinds(c: seq<Byte>, k: nat, name: seq<Byte>, i: nat)
    requires Distinct(c) && k <= i < Count(c) && Holds(Entry(c, i), name)
    ensures LookupFrom(c, k, name) == Inum(Entry(c, i))
    decreases i - k
  {
    if k < i {
      LookupFinds(c, k + 1, name, i);
    }
  }

  lemma {:induction false} LookupMisses(c: seq<Byte>, k: nat, name: seq<Byte>)
    requires k <= Count(c) && LookupFrom(c, k, name) == 0
    ensures forall i :: k <= i < Count(c) ==> !Holds(Entry(c, i), name)
    decreases Count(c) - k
  {
    if k < Count(c) {
      LookupMisses(c, k + 1, name);
    }
  }

  /** With distinct names a directory is a map: a name's value is that of the one live
      entry that has it. */
  lemma LookupIsMap(c: seq<Byte>, name: seq<Byte>, x: nat)
    requires Distinct(c) && x != 0
    ensures Lookup(c, name) == x <==>
      exists i :: 0 <= i < Count(c) && Holds(Entry(c, i), name) && Inum(Entry(c, i)) == x
  {
    if i :| 0 <= i < Count(c) && Holds(Entry(c, i), name) {
      LookupFinds(c, 0, name, i);
    } else {
      LookupNothing(c, 0, name);
    }
  }

  lemma {:induction false} LookupNothing(c: seq<Byte>, k: nat, name: seq<Byte>)
    requires forall i :: k <= i < Count(c) ==> !Holds(Entry(c, i), name)
    ensures LookupFrom(c, k, name) == 0
    decreases Count(c) - k
  {
    if k < Count(c) {
      assert !Holds(Entry(c, k), name);
      LookupNothing(c, k + 1, name);
    }
  }

  // ----- a new entry

  /** Entry e written over the k-th place, or behind the last one. */
  function Linked(c: seq<Byte>, k: nat, e: seq<Byte>): seq<Byte>
    requires Even(c) && k <= Count(c) && |e| == ENTRY
  {
    Spliced(c, k * ENTRY, e)
  }

  /** A stretch that a write does not touch. */
  lemma SplicedApart(c: seq<Byte>, at: nat, e: seq<Byte>, lo: nat, n: nat)
    requires at <= |c| && lo + n <= |c| && (lo + n <= at || at + |e| <= lo)
    ensures lo + n <= |Spliced(c, at, e)| && Spliced(c, at, e)[lo..lo + n] == c[lo..lo + n]
  {
    var s := Spliced(c, at, e);
    assert lo + n <= at || s[at + |e|..] == c[at + |e|..];
    assert forall i :: lo <= i < lo + n && at + |e| <= lo ==> s[i] == s[at + |e|..][i - at - |e|];
  }

  lemma SplicedAt(c: seq<Byte>, at: nat, e: seq<Byte>)
    requires at <= |c|
    ensures |Spliced(c, at, e)| == Max(|c|, at + |e|) && Spliced(c, at, e)[at..at + |e|] == e
  {
    SplicedReads(c, at, e);
  }

  lemma LinkedEntries(c: seq<Byte>, k: nat, e: seq<Byte>, j: nat)
    requires Even(c) && k <= Count(c) && |e| == ENTRY
    ensures var c' := Linked(c, k, e);
      && Even(c') && Count(c') == (if k == Count(c) then k + 1 else Count(c))
      && (j < Count(c') ==> Entry(c', j) == if j == k then e else Entry(c, j))
  {
    var c' := Linked(c, k, e);
    assert |c| == Count(c) * ENTRY;
    SplicedAt(c, k * ENTRY, e);
    if j < Count(c') && j != k {
      SplicedApart(c, k * ENTRY, e, j * ENTRY, ENTRY);
    }
  }

  /** A new entry under a new name, put into a dead place, is found under its name, and
      no other name finds anything else than before. */
  lemma {:induction false} LinkedLookupFrom(c: seq<Byte>, k: nat, e: seq<Byte>, name: seq<Byte>, j: nat)
    requires Even(c) && k <= Count(c) && |e| == ENTRY && (k < Count(c) ==> Inum(Entry(c, k)) == 0)
    requires name == Name(e) ==> LookupFrom(c, j, name) == 0
    requires j <= Count(Linked(c, k, e))
    ensures LookupFrom(Linked(c, k, e), j, name) ==
      if name == Name(e) && j <= k then Inum(e) else LookupFrom(c, j, name)
    decreases Count(Linked(c, k, e)) - j
  {
    LinkedEntries(c, k, e, j);
    if j < Count(Linked(c, k, e)) {
      LinkedLookupFrom(c, k, e, name, j + 1);
    }
  }

  /** c' is c with this name bound to this inode number, 0 for none, and no other change. */
  ghost predicate Bound(c: seq<Byte>, c': seq<Byte>, name: seq<Byte>, inum: nat) {
    forall m :: Lookup(c', m) == if m == name then inum else Lookup(c, m)
  }

  lemma LinkedIsUpdate(c: seq<Byte>, k: nat, e: seq<Byte>)
    requires Even(c) && k <= Count(c) && |e| == ENTRY && (k < Count(c) ==> Inum(Entry(c, k)) == 0)
    requires Lookup(c, Name(e)) == 0
    ensures Bound(c, Linked(c, k, e), Name(e), Inum(e))
    ensures Even(Linked(c, k, e)) && (Distinct(c) ==> Distinct(Linked(c, k, e)))
  {
    var c' := Linked(c, k, e);
    LinkedEntries(c, k, e, 0);
    forall name ensures Lookup(c', name) == if name == Name(e) then Inum(e) else Lookup(c, name) {
      LinkedLookupFrom(c, k, e, name, 0);
    }
    LookupMisses(c, 0, Name(e));
    forall j | 0 <= j < Count(c')
      ensures Entry(c', j) == (if j == k then e else Entry(c, j))
      ensures j != k ==> j < Count(c) && !Holds(Entry(c, j), Name(e))
    {
      LinkedEntries(c, k, e, j);
    }
  }
}
