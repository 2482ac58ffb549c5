/** Pipes (kernel/pipe.c): a ring buffer with 32-bit counters that wrap around.  The bursts
    are what runs under the pipe's lock without a sleep. */
module PipeCode {
  const PIPESIZE: nat := 512
  const WRAP: nat := 0x1_0000_0000

  type Byte = x: int | 0 <= x < 256

  /** A byte and the writer it came from. */
  datatype Sent = Sent(byte: Byte, who: nat)

  /** A byte taken out of the pipe and whether it reached the reader. */
  datatype Taken = Taken(sent: Sent, delivered: bool)

  datatype Outcome = Returns(value: int) | Sleeps

  // ----- streams

  ghost function Bytes(s: seq<Sent>): (r: seq<Byte>)
    ensures |r| == |s| && forall i :: 0 <= i < |s| ==> r[i] == s[i].byte
  {
    if s == [] then [] else Bytes(s[..|s| - 1]) + [s[|s| - 1].byte]
  }

  ghost function SentBy(who: nat, d: seq<Byte>): (r: seq<Sent>)
    ensures |r| == |d| && forall i :: 0 <= i < |d| ==> r[i] == Sent(d[i], who)
  {
    if d == [] then [] else SentBy(who, d[..|d| - 1]) + [Sent(d[|d| - 1], who)]
  }

  lemma SentByNext(who: nat, d: seq<Byte>, i: nat, j: nat)
    requires i <= j < |d|
    ensures SentBy(who, d[i..j + 1]) == SentBy(who, d[i..j]) + [Sent(d[j], who)]
  {
    assert d[i..j + 1][..j - i] == d[i..j];
  }

  /** What was taken out, as a stream. */
  ghost function Removed(out: seq<Taken>): (r: seq<Sent>)
    ensures |r| == |out| && forall i :: 0 <= i < |out| ==> r[i] == out[i].sent
  {
    if out == [] then [] else Removed(out[..|out| - 1]) + [out[|out| - 1].sent]
  }

  /** The bytes that one writer has put in. */
  ghost function Own(s: seq<Sent>, who: nat): seq<Byte> {
    if s == [] then []
    else
      var last := s[|s| - 1];
      Own(s[..|s| - 1], who) + if last.who == who then [last.byte] else []
  }

  lemma {:induction false} OwnPlus(a: seq<Sent>, b: seq<Sent>, who: nat)
    ensures Own(a + b, who) == Own(a, who) + Own(b, who)
    decreases |b|
  {
    if b == [] {
      assert a + b == a;
    } else {
      var n := |b| - 1;
      assert (a + b)[..|a| + n] == a + b[..n];
      OwnPlus(a, b[..n], who);
    }
  }

  lemma {:induction false} OwnSentBy(who: nat, me: nat, d: seq<Byte>)
    ensures Own(SentBy(who, d), me) == if who == me then d else []
    decreases |d|
  {
    if d != [] {
      var n := |d| - 1;
      var s := SentBy(who, d);
      assert s[..n] == SentBy(who, d[..n]);
      OwnSentBy(who, me, d[..n]);
      assert d == d[..n] + [d[n]];
    }
  }

  /** A writer's next bytes continue its part of the stream. */
  lemma OwnMore(w: seq<Sent>, who: nat, start: seq<Byte>, d: seq<Byte>, i: nat, j: nat)
    requires i <= j <= |d| && Own(w, who) == start + d[..i]
    ensures Own(w + SentBy(who, d[i..j]), who) == start + d[..j]
  {
    OwnPlus(w, SentBy(who, d[i..j]), who);
    OwnSentBy(who, who, d[i..j]);
    assert d[..j] == d[..i] + d[i..j];
  }

  // ----- the ring

  /** The bytes in the ring from position r on, positions counted without wrapping. */
  ghost predicate InRing(data: seq<Byte>, r: nat, unread: seq<Sent>) {
    |data| == PIPESIZE && |unread| <= PIPESIZE && forall i :: 0 <= i < |unread| ==> RingAt(data, r, unread, i)
  }

  predicate RingAt(data: seq<Byte>, r: nat, unread: seq<Sent>, i: nat)
    requires |data| == PIPESIZE && i < |unread|
  {
    data[(r + i) % PIPESIZE] == unread[i].byte
  }

  lemma WrapIndex(n: nat)
    ensures n % WRAP % PIPESIZE == n % PIPESIZE && (n % WRAP + 1) % WRAP == (n + 1) % WRAP
    ensures (n % WRAP + PIPESIZE) % WRAP == (n + PIPESIZE) % WRAP
  {
    assert n == n / WRAP * (WRAP / PIPESIZE) * PIPESIZE + n % WRAP;
  }

  /** Within the ring's size, wrapped counters tell full and empty. */
  lemma WrapCompare(r: nat, n: nat)
    requires n <= PIPESIZE
    ensures (r + n) % WRAP == r % WRAP <==> n == 0
    ensures (r + n) % WRAP == (r + PIPESIZE) % WRAP <==> n == PIPESIZE
  {
  }

  /** pipewrite's test for a full ring, on the wrapped counters. */
  lemma WhenFull(r: nat, n: nat)
    requires n <= PIPESIZE
    ensures (r + n) % WRAP == (r % WRAP + PIPESIZE) % WRAP <==> n == PIPESIZE
  {
    WrapIndex(r);
    WrapCompare(r, n);
  }

  lemma RingPut(data: seq<Byte>, r: nat, unread: seq<Sent>, x: Sent)
    requires InRing(data, r, unread) && |unread| < PIPESIZE
    ensures InRing(data[(r + |unread|) % PIPESIZE := x.byte], r, unread + [x])
  {
    var data', u := data[(r + |unread|) % PIPESIZE := x.byte], unread + [x];
    forall i | 0 <= i < |u| ensures RingAt(data', r, u, i) {
      if i < |unread| {
        assert RingAt(data, r, unread, i);
        assert (r + i) % PIPESIZE != (r + |unread|) % PIPESIZE;
      }
    }
  }

  lemma RingGet(data: seq<Byte>, r: nat, unread: seq<Sent>)
    requires InRing(data, r, unread) && unread != []
    ensures data[r % PIPESIZE] == unread[0].byte && InRing(data, r + 1, unread[1..])
  {
    assert RingAt(data, r, unread, 0);
    var u, r' := unread[1..], r + 1;
    forall i | 0 <= i < |u| ensures RingAt(data, r', u, i) {
      assert RingAt(data, r, unread, i + 1);
      assert r' + i == r + (i + 1);
    }
  }

  /** What another thread does while this one sleeps. */
  datatype Step =
    | Writes(who: nat, d: seq<Byte>, readable: nat, killedAt: nat)
    | Reads(n: nat, writable: nat, killed: bool)
    | Closes(writer: bool)

  predicate NotBy(steps: seq<Step>, who: nat) {
    forall i :: 0 <= i < |steps| ==> steps[i].Writes? ==> steps[i].who != who
  }

  /** Bytes that readers got, in order. */
  ghost function Delivered(out: seq<Taken>): seq<Byte> {
    if out == [] then []
    else
      var last := out[|out| - 1];
      Delivered(out[..|out| - 1]) + if last.delivered then [last.sent.byte] else []
  }

  lemma {:induction false} DeliveredPlus(a: seq<Taken>, b: seq<Taken>)
    ensures Delivered(a + b) == Delivered(a) + Delivered(b)
    decreases |b|
  {
    if b == [] {
      assert a + b == a;
    } else {
      var n := |b| - 1;
      assert (a + b)[..|a| + n] == a + b[..n];
      DeliveredPlus(a, b[..n]);
    }
  }

  lemma {:induction false} DeliveredLength(out: seq<Taken>)
    ensures |Delivered(out)| <= |out|
    ensures |Delivered(out)| == |out| <==> forall i :: 0 <= i < |out| ==> out[i].delivered
  {
    if out != [] {
      DeliveredLength(out[..|out| - 1]);
    }
  }

  /** The readers got all that was taken out, in order, if and only if every copy out succeeded. */
  lemma {:induction false} AllDelivered(out: seq<Taken>)
    ensures Delivered(out) == Bytes(Removed(out)) <==> forall i :: 0 <= i < |out| ==> out[i].delivered
  {
    DeliveredLength(out);
    if out != [] && forall i :: 0 <= i < |out| ==> out[i].delivered {
      var n := |out| - 1;
      AllDelivered(out[..n]);
      assert Removed(out)[..n] == Removed(out[..n]);
      assert Bytes(Removed(out)) == Bytes(Removed(out[..n])) + [out[n].sent.byte];
    }
  }

  /** What one read delivers is what it hands to the reader: the byte of a copy that failed
      is not part of it. */
  lemma DeliveredGot(taken: seq<Taken>, got: seq<Byte>)
    requires |got| <= |taken| <= |got| + 1
    requires forall k :: 0 <= k < |got| ==> taken[k].delivered && got[k] == taken[k].sent.byte
    requires |taken| > |got| ==> !taken[|got|].delivered
    ensures Delivered(taken) == got
  {
    var d := taken[..|got|];
    AllDelivered(d);
    assert Bytes(Removed(d)) == got;
    DeliveredPlus(d, taken[|got|..]);
    assert taken == d + taken[|got|..];
    assert Delivered(taken[|got|..]) == [];
  }

  class PipeState {
    const data: array<Byte>
    var nread: nat
    var nwrite: nat
    var readopen: bool
    var writeopen: bool
    ghost var written: seq<Sent>   // everything ever put in
    ghost var out: seq<Taken>      // everything taken out
    ghost var unread: seq<Sent>

    /** The pipe is a FIFO: what was put in is what was taken out and what is still there. */
    ghost predicate Valid()
      reads this, data
    {
      && data.Length == PIPESIZE && InRing(data[..], |out|, unread) && written == Removed(out) + unread
      && nread == |out| % WRAP && nwrite == |written| % WRAP
    }

    constructor ()
      ensures Valid() && fresh(data) && written == [] && out == [] && unread == [] && readopen && writeopen
    {
      data := new Byte[PIPESIZE](i => 0);
      nread, nwrite, readopen, writeopen := 0, 0, true, true;
      written, out, unread := [], [], [];
    }

    /** pipeclose; gone tells whether the pipe's memory is freed. */
    method Pipeclose(writable: bool) returns (gone: bool)
      requires Valid()
      modifies `readopen, `writeopen
      ensures Valid() && readopen == (old(readopen) && writable) && writeopen == (old(writeopen) && !writable)
      ensures gone <==> !readopen && !writeopen
    {
      if writable {
        writeopen := false;
      } else {
        readopen := false;
      }
      gone := !readopen && !writeopen;
    }

    method Put(x: Byte, ghost who: nat)
      requires Valid() && |unread| < PIPESIZE
      modifies this`nwrite, this`written, this`unread, data
      ensures Valid() && unread == old(unread) + [Sent(x, who)] && written == old(written) + [Sent(x, who)]
    {
      WrapIndex(|written|);
      RingPut(data[..], |out|, unread, Sent(x, who));
      data[nwrite % PIPESIZE] := x;
      assert data[..] == old(data[..])[(|out| + |unread|) % PIPESIZE := x];
      nwrite := (nwrite + 1) % WRAP;
      written, unread := written + [Sent(x, who)], unread + [Sent(x, who)];
    }

    method Get(ghost delivered: bool) returns (x: Byte)
      requires Valid() && unread != []
      modifies this`nread, this`out, this`unread
      ensures Valid() && x == old(unread)[0].byte && unread == old(unread)[1..]
      ensures out == old(out) + [Taken(old(unread)[0], delivered)]
    {
      WrapIndex(|out|);
      RingGet(data[..], |out|, unread);
      x := data[nread % PIPESIZE];
      nread := (nread + 1) % WRAP;
      out := out + [Taken(unread[0], delivered)];
      assert Removed(out) == Removed(old(out)) + [unread[0]];
      unread := unread[1..];
    }

    /** pipewrite from where it holds the lock with i0 bytes written, until it returns or sleeps;
        the first `readable` bytes of d can be copied in, and the writer is found killed once
        killedAt of them are. */
    method WriteBurst(d: seq<Byte>, i0: nat, readable: nat, killedAt: nat, ghost who: nat) returns (i: nat, r: Outcome)
      requires Valid() && i0 <= |d|
      modifies this`nwrite, this`written, this`unread, data
      ensures Valid() && i0 <= i <= |d| && written == old(written) + SentBy(who, d[i0..i])
      ensures r == Sleeps <==> i < |d| && readopen && i < killedAt && |unread| == PIPESIZE
      ensures r == Returns(-1) <==> i < |d| && (!readopen || killedAt <= i)
      ensures r.Returns? && r.value != -1 ==> r.value == i && (i == |d| || i >= readable)
      ensures i > i0 ==> i <= readable
    {
      i := i0;
      assert SentBy(who, d[i0..i]) == [];
      while i < |d|
        invariant Valid() && i0 <= i <= |d| && written == old(written) + SentBy(who, d[i0..i])
        invariant i > i0 ==> i <= readable && readopen
      {
        if !readopen || killedAt <= i {
          return i, Returns(-1);
        }
        WhenFull(|out|, |unread|);
        if nwrite == (nread + PIPESIZE) % WRAP {
          return i, Sleeps;
        }
        if i >= readable {
          break;
        }
        Put(d[i], who);
        SentByNext(who, d, i0, i);
        i := i + 1;
      }
      r := Returns(i);
    }

    /** piperead from where it holds the lock, until it returns or sleeps; the first `writable`
        bytes can be copied out.  taken is what this took out of the pipe. */
    method ReadBurst(n: nat, writable: nat, killed: bool) returns (got: seq<Byte>, r: Outcome, ghost taken: seq<Taken>)
      requires Valid()
      modifies this`nread, this`out, this`unread
      ensures Valid() && out == old(out) + taken && |got| <= |taken| <= |got| + 1 && |got| <= n
      ensures forall k :: 0 <= k < |got| ==> taken[k].delivered && got[k] == taken[k].sent.byte
      ensures |taken| > |got| ==> |got| == writable < n && !taken[|got|].delivered
      ensures Delivered(out) == Delivered(old(out)) + got
      ensures r == Sleeps <==> old(unread) == [] && writeopen && !killed
      ensures r == Returns(-1) <==> old(unread) == [] && writeopen && killed
      ensures r.Returns? && r.value != -1 ==> r.value == |got|
      ensures r == Returns(0) && n > 0 && writable > 0 ==> old(unread) == [] && !writeopen
      ensures r.Returns? && r.value != -1 && r.value < n && r.value < writable ==> unread == []
    {
      got, taken := [], [];
      WrapCompare(|out|, |unread|);
      if nread == nwrite && writeopen {
        r := if killed then Returns(-1) else Sleeps;
        return;
      }
      got, taken := ReadLoop(n, writable);
      DeliveredGot(taken, got);
      DeliveredPlus(old(out), taken);
      r := Returns(|got|);
    }

    /** piperead's copying loop. */
    method ReadLoop(n: nat, writable: nat) returns (got: seq<Byte>, ghost taken: seq<Taken>)
      requires Valid()
      modifies this`nread, this`out, this`unread
      ensures Valid() && out == old(out) + taken && |got| <= |taken| <= |got| + 1 && |got| <= n
      ensures forall k :: 0 <= k < |got| ==> taken[k].delivered && got[k] == taken[k].sent.byte
      ensures |taken| > |got| ==> |got| == writable < n && !taken[|got|].delivered
      ensures got == [] && n > 0 && writable > 0 ==> old(unread) == []
      ensures |got| < n && |got| < writable ==> unread == []
    {
      got, taken := [], [];
      while |got| < n
        invariant Valid() && out == old(out) + taken && |taken| == |got| <= n && |got| <= writable
        invariant forall k :: 0 <= k < |got| ==> taken[k].delivered && got[k] == taken[k].sent.byte
        invariant got == [] ==> unread == old(unread)
        decreases n - |got|
      {
        WrapCompare(|out|, |unread|);
        if nread == nwrite {
          break;
        }
        ghost var t := Taken(unread[0], |got| < writable);
        var ch := Get(|got| < writable);
        taken := taken + [t];
        if |got| >= writable {
          break;
        }
        got := got + [ch];
      }
    }

    /** The readers got the written stream up to what is still in the pipe if and only if no
        copy out ever failed. */
    lemma StreamDelivered()
      requires Valid()
      ensures Delivered(out) + Bytes(unread) == Bytes(written) <==> forall i :: 0 <= i < |out| ==> out[i].delivered
      ensures (forall i :: 0 <= i < |out| ==> out[i].delivered) ==> Delivered(out) <= Bytes(written)
    {
      AllDelivered(out);
      DeliveredLength(out);
      assert Bytes(written) == Bytes(Removed(out)) + Bytes(unread);
      assert Delivered(out) + Bytes(unread) == Bytes(written) ==> Delivered(out) == Bytes(written)[..|out|];
    }

    /** What other threads do with the pipe. */
    method Others(steps: seq<Step>, ghost who: nat)
      requires Valid() && NotBy(steps, who)
      modifies this, data
      ensures Valid() && Own(written, who) == Own(old(written), who)
    {
      var k := 0;
      while k < |steps|
        invariant k <= |steps| && Valid() && Own(written, who) == Own(old(written), who)
      {
        match steps[k] {
          case Writes(w, d, readable, killedAt) =>
            ghost var before := written;
            var i, _ := WriteBurst(d, 0, readable, killedAt, w);
            OwnPlus(before, SentBy(w, d[0..i]), who);
            OwnSentBy(w, who, d[0..i]);
          case Reads(n, writable, killed) =>
            var _, _, _ := ReadBurst(n, writable, killed);
          case Closes(writer) =>
            var _ := Pipeclose(writer);
        }
        k := k + 1;
      }
    }

    /** A burst as the writer's next bytes, after start. */
    method OwnBurst(d: seq<Byte>, i0: nat, readable: nat, killedAt: nat, who: nat, ghost start: seq<Byte>)
      returns (i: nat, r: Outcome)
      requires Valid() && i0 <= |d| && Own(written, who) == start + d[..i0]
      modifies this`nwrite, this`written, this`unread, data
      ensures Valid() && i0 <= i <= |d| && Own(written, who) == start + d[..i]
      ensures r == Sleeps <==> i < |d| && readopen && i < killedAt && |unread| == PIPESIZE
      ensures r == Returns(-1) <==> i < |d| && (!readopen || killedAt <= i)
      ensures r.Returns? && r.value != -1 ==> r.value == i && (i == |d| || i >= readable)
    {
      i, r := WriteBurst(d, i0, readable, killedAt, who);
      OwnMore(old(written), who, start, d, i0, i);
    }

    /** A whole pipewrite.  schedule[k] is what other threads do during the k-th sleep, and
        kills[k] the number of bytes at which the writer is found killed after k sleeps; Sleeps
        when the schedule ends first.  The writer's bytes go into the stream in order, whatever
        comes between. */
    method Pipewrite(d: seq<Byte>, readable: nat, who: nat, schedule: seq<seq<Step>>, kills: seq<nat>)
      returns (r: Outcome, ghost i: nat, ghost k: nat)
      requires Valid() && forall k :: 0 <= k < |schedule| ==> NotBy(schedule[k], who)
      requires |kills| == |schedule| + 1
      modifies this, data
      ensures Valid() && i <= |d| && Own(written, who) == Own(old(written), who) + d[..i] && k <= |schedule|
      ensures r == Returns(-1) <==> i < |d| && (!readopen || kills[k] <= i)
      ensures r == Sleeps <==> k == |schedule| && i < |d| && readopen && i < kills[k] && |unread| == PIPESIZE
      ensures r.Returns? && r.value != -1 ==> r.value == i && (i == |d| || i >= readable)
    {
      var done := 0;
      var n := 0;
      while true
        invariant Valid() && done <= |d| && n <= |schedule| && Own(written, who) == Own(old(written), who) + d[..done]
        decreases |schedule| - n
      {
        done, r := OwnBurst(d, done, readable, kills[n], who, Own(old(written), who));
        if r.Returns? || n == |schedule| {
          return r, done, n;
        }
        Others(schedule[n], who);
        n := n + 1;
      }
    }
  }
}
