/** The language of command lines, said as a grammar, and that the parser accepts exactly it. */
module ShellGrammar {
  import opened ShellModel
  import opened ShellProofs

  // ----- phrases

  /** Words and redirections in any order: the words are args, the redirections rs. */
  predicate IsSimple(ts: seq<Tok>, args: seq<string>, rs: seq<Redirection<string>>)
    decreases |ts|
  {
    if ts == [] then args == [] && rs == []
    else if ts[0].Word? then args != [] && args[0] == ts[0].w && IsSimple(ts[1..], args[1..], rs)
    else
      && |ts| >= 2 && ts[1].Word? && rs != [] && ts[0] == RedirTok(rs[0].mode) && ts[1].w == rs[0].file
      && IsSimple(ts[2..], args, rs[1..])
  }

  predicate SimpleAs(ts: seq<Tok>, args: seq<string>, rs: seq<Redirection<string>>, c: Cmd<string>) {
    |args| < MAXARGS && IsSimple(ts, args, rs) && c == Wrap(Exec(args), rs)
  }

  /** A line in parentheses, the closing one at n, and redirections. */
  ghost predicate BlockAs(ts: seq<Tok>, n: nat, d: Cmd<string>, rs: seq<Redirection<string>>, c: Cmd<string>)
    decreases |ts|, 0
  {
    && 0 < n < |ts| && ts[0] == Sym('(') && ts[n] == Sym(')') && ts[n + 1..] == RedirToks(rs)
    && IsLine(ts[1..n], d) && c == Wrap(d, rs)
  }

  /** A command of a pipeline. */
  ghost predicate IsExec(ts: seq<Tok>, c: Cmd<string>)
    decreases |ts|, 1
  {
    (exists args, rs :: SimpleAs(ts, args, rs, c)) || (exists n: nat, d, rs :: BlockAs(ts, n, d, rs, c))
  }

  ghost predicate PipeAt(ts: seq<Tok>, n: nat, c: Cmd<string>)
    decreases |ts|, 2
  {
    n < |ts| && ts[n] == Sym('|') && c.Pipe? && IsExec(ts[..n], c.left) && IsPipe(ts[n + 1..], c.right)
  }

  /** Commands with | between them. */
  ghost predicate IsPipe(ts: seq<Tok>, c: Cmd<string>)
    decreases |ts|, 3
  {
    IsExec(ts, c) || exists n: nat :: PipeAt(ts, n, c)
  }

  /** A pipeline with any number of & behind it. */
  ghost predicate IsAmp(ts: seq<Tok>, c: Cmd<string>)
    decreases |ts|, 4
  {
    IsPipe(ts, c) || (ts != [] && ts[|ts| - 1] == Sym('&') && c.Back? && IsAmp(ts[..|ts| - 1], c.cmd))
  }

  ghost predicate ListAt(ts: seq<Tok>, n: nat, c: Cmd<string>)
    decreases |ts|, 5
  {
    n < |ts| && ts[n] == Sym(';') && c.List? && IsAmp(ts[..n], c.left) && IsLine(ts[n + 1..], c.right)
  }

  /** A line: such commands with ; between them. */
  ghost predicate IsLine(ts: seq<Tok>, c: Cmd<string>)
    decreases |ts|, 6
  {
    IsAmp(ts, c) || exists n: nat :: ListAt(ts, n, c)
  }

  // ----- what the parser accepts is a phrase

  lemma Glue(a: seq<Tok>, b: seq<Tok>, ts: seq<Tok>, x: seq<Tok>, rest: seq<Tok>)
    requires ts == a + b && b == x + rest
    ensures ts == a + x + rest
  {
  }

  lemma FirstRedir(r: Redirection<string>, x: seq<Tok>, more: seq<string>, mrs: seq<Redirection<string>>)
    requires IsSimple(x, more, mrs)
    ensures IsSimple([RedirTok(r.mode), Word(r.file)] + x, more, [r] + mrs)
  {
    var y := [RedirTok(r.mode), Word(r.file)] + x;
    assert y[0] == RedirTok(r.mode) && y[1] == Word(r.file) && y[2..] == x && ([r] + mrs)[1..] == mrs;
  }

  lemma FirstWord(w: string, x: seq<Tok>, more: seq<string>, mrs: seq<Redirection<string>>)
    requires IsSimple(x, more, mrs)
    ensures IsSimple([Word(w)] + x, [w] + more, mrs)
  {
    var y := [Word(w)] + x;
    assert y[0] == Word(w) && y[1..] == x && ([w] + more)[1..] == more;
  }

  /** A redirection at the start of ts. */
  lemma RedirFirst(ts: seq<Tok>) returns (r: Redirection<string>)
    requires StartsRedir(ts) && |ts| >= 2 && ts[1].Word?
    ensures r == Redirection(ts[1].w, ModeOf(ts[0]).cmd)
    ensures ts == [RedirTok(r.mode), Word(r.file)] + ts[2..]
  {
    r := Redirection(ts[1].w, ModeOf(ts[0]).cmd);
    assert ts[0] == RedirTok(r.mode);
  }

  lemma {:induction false} SimpleSound(args: seq<string>, rs: seq<Redirection<string>>, ts: seq<Tok>)
    returns (x: seq<Tok>, more: seq<string>, mrs: seq<Redirection<string>>)
    requires |args| < MAXARGS && PSimple(args, rs, ts).Ok?
    ensures var r := PSimple(args, rs, ts);
      && ts == x + r.rest && IsSimple(x, more, mrs) && |args + more| < MAXARGS
      && r.cmd == Wrap(Exec(args + more), rs + mrs)
    decreases |ts|
  {
    if ts == [] || Starts(ts, "|)&;") {
      x, more, mrs := [], [], [];
      assert args + [] == args && rs + [] == rs && ts == [] + ts;
    } else if StartsRedir(ts) {
      var r := RedirFirst(ts);
      var y, mr;
      y, more, mr := SimpleSound(args, rs + [r], ts[2..]);
      x, mrs := [RedirTok(r.mode), Word(r.file)] + y, [r] + mr;
      FirstRedir(r, y, more, mr);
      Glue([RedirTok(r.mode), Word(r.file)], ts[2..], ts, y, PSimple(args, rs, ts).rest);
      assert rs + [r] + mr == rs + mrs;
    } else {
      var w := ts[0].w;
      var y, m;
      y, m, mrs := SimpleSound(args + [w], rs, ts[1..]);
      x, more := [Word(w)] + y, [w] + m;
      FirstWord(w, y, m, mrs);
      assert ts == [Word(w)] + ts[1..];
      Glue([Word(w)], ts[1..], ts, y, PSimple(args, rs, ts).rest);
      assert args + [w] + m == args + more;
    }
  }

  lemma RedirToksFirst(r: Redirection<string>, rs: seq<Redirection<string>>)
    ensures RedirToks([r] + rs) == [RedirTok(r.mode), Word(r.file)] + RedirToks(rs)
  {
    assert ([r] + rs)[1..] == rs;
  }

  lemma {:induction false} RedirsSound(c: Cmd<string>, ts: seq<Tok>) returns (rs: seq<Redirection<string>>)
    requires PRedirs(c, ts).Ok?
    ensures var r := PRedirs(c, ts); ts == RedirToks(rs) + r.rest && r.cmd == Wrap(c, rs)
    decreases |ts|
  {
    if StartsRedir(ts) {
      var r := RedirFirst(ts);
      var more := RedirsSound(Redir(c, r.file, r.mode), ts[2..]);
      rs := [r] + more;
      Glue([RedirTok(r.mode), Word(r.file)], ts[2..], ts, RedirToks(more), PRedirs(c, ts).rest);
      RedirToksFirst(r, more);
      WrapMore(c, r, more);
    } else {
      rs := [];
      assert ts == [] + ts;
    }
  }

  lemma {:induction false} ExecSound(ts: seq<Tok>) returns (x: seq<Tok>)
    requires PExec(ts).Ok?
    ensures ts == x + PExec(ts).rest && IsExec(x, PExec(ts).cmd)
    decreases |ts|, 1
  {
    if Starts(ts, "(") {
      x := BlockSound(ts);
    } else {
      var more, mrs;
      x, more, mrs := SimpleSound([], [], ts);
      assert [] + more == more && [] + mrs == mrs;
      assert SimpleAs(x, more, mrs, PSimple([], [], ts).cmd);
    }
  }

  lemma {:induction false} BlockSound(ts: seq<Tok>) returns (x: seq<Tok>)
    requires Starts(ts, "(") && PBlock(ts).Ok?
    ensures ts == x + PBlock(ts).rest && IsExec(x, PBlock(ts).cmd)
    decreases |ts|, 0
  {
    var inner := PLine(ts[1..]);
    var y := LineSound(ts[1..]);
    var rs := RedirsSound(inner.cmd, inner.rest[1..]);
    x := [Sym('(')] + y + [Sym(')')] + RedirToks(rs);
    BlockJoined(ts, y, inner.rest, rs, PBlock(ts).rest);
    BlockPhrase(y, rs, inner.cmd);
  }

  lemma BlockJoined(ts: seq<Tok>, y: seq<Tok>, mid: seq<Tok>, rs: seq<Redirection<string>>, rest: seq<Tok>)
    requires Starts(ts, "(") && ts[1..] == y + mid && Starts(mid, ")") && mid[1..] == RedirToks(rs) + rest
    ensures ts == [Sym('(')] + y + [Sym(')')] + RedirToks(rs) + rest
  {
    assert ts == [ts[0]] + ts[1..] && mid == [mid[0]] + mid[1..];
  }

  lemma BlockPhrase(y: seq<Tok>, rs: seq<Redirection<string>>, d: Cmd<string>)
    requires IsLine(y, d)
    ensures IsExec([Sym('(')] + y + [Sym(')')] + RedirToks(rs), Wrap(d, rs))
  {
    var x, n := [Sym('(')] + y + [Sym(')')] + RedirToks(rs), |y| + 1;
    assert x[0] == Sym('(') && x[n] == Sym(')') && x[1..n] == y && x[n + 1..] == RedirToks(rs);
    assert BlockAs(x, n, d, rs, Wrap(d, rs));
  }

  lemma {:induction false} PipeSound(ts: seq<Tok>) returns (x: seq<Tok>)
    requires PPipe(ts).Ok?
    ensures ts == x + PPipe(ts).rest && IsPipe(x, PPipe(ts).cmd)
    decreases |ts|, 2
  {
    x := ExecSound(ts);
    var left := PExec(ts);
    if Starts(left.rest, "|") {
      var z := PipeSound(left.rest[1..]);
      var y := x;
      x := y + [Sym('|')] + z;
      Cut(ts, y, left.rest, z, PPipe(ts).rest);
      assert PipeAt(x, |y|, PPipe(ts).cmd);
    }
  }

  /** A line cut at the first token of mid. */
  lemma Cut(ts: seq<Tok>, y: seq<Tok>, mid: seq<Tok>, z: seq<Tok>, rest: seq<Tok>)
    requires ts == y + mid && mid != [] && mid[1..] == z + rest
    ensures ts == y + [mid[0]] + z + rest
    ensures var x := y + [mid[0]] + z; x[|y|] == mid[0] && x[..|y|] == y && x[|y| + 1..] == z
  {
    assert mid == [mid[0]] + mid[1..];
  }

  lemma {:induction false} AmpsSound(pre: seq<Tok>, c: Cmd<string>, ts: seq<Tok>) returns (x: seq<Tok>)
    requires IsAmp(pre, c)
    ensures var r := PAmps(c, ts); pre + ts == x + r.rest && IsAmp(x, r.cmd)
    decreases |ts|
  {
    x := pre;
    if Starts(ts, "&") {
      var pre' := pre + [Sym('&')];
      assert pre'[..|pre'| - 1] == pre;
      assert ts == [Sym('&')] + ts[1..] && pre' + ts[1..] == pre + ts;
      x := AmpsSound(pre', Back(c), ts[1..]);
    }
  }

  lemma {:induction false} LineSound(ts: seq<Tok>) returns (x: seq<Tok>)
    requires PLine(ts).Ok?
    ensures ts == x + PLine(ts).rest && IsLine(x, PLine(ts).cmd)
    decreases |ts|, 3
  {
    var first := PPipe(ts);
    var y := PipeSound(ts);
    y := AmpsSound(y, first.cmd, first.rest);
    x := y;
    var left := PAmps(first.cmd, first.rest);
    if Starts(left.rest, ";") {
      var z := LineSound(left.rest[1..]);
      x := y + [Sym(';')] + z;
      Cut(ts, y, left.rest, z, PLine(ts).rest);
      assert ListAt(x, |y|, PLine(ts).cmd);
    }
  }

  // ----- and every phrase is accepted

  lemma {:induction false} SimpleComplete(ts: seq<Tok>, args: seq<string>, rs: seq<Redirection<string>>,
                                          args0: seq<string>, rs0: seq<Redirection<string>>, rest: seq<Tok>)
    requires IsSimple(ts, args, rs) && |args0| + |args| < MAXARGS
    ensures PSimple(args0, rs0, ts + rest) == PSimple(args0 + args, rs0 + rs, rest)
    decreases |ts|
  {
    if ts == [] {
      assert ts + rest == rest && args0 + args == args0 && rs0 + rs == rs0;
    } else if ts[0].Word? {
      SimpleComplete(ts[1..], args[1..], rs, args0 + [args[0]], rs0, rest);
      WordStep(ts, args0, rs0, rest);
      assert args0 + [args[0]] + args[1..] == args0 + args;
    } else {
      SimpleComplete(ts[2..], args, rs[1..], args0, rs0 + [rs[0]], rest);
      RedirStep(ts, rs[0], args0, rs0, rest);
      assert rs0 + [rs[0]] + rs[1..] == rs0 + rs;
    }
  }

  lemma WordStep(ts: seq<Tok>, args: seq<string>, rs: seq<Redirection<string>>, rest: seq<Tok>)
    requires ts != [] && ts[0].Word? && |args| + 1 < MAXARGS
    ensures PSimple(args, rs, ts + rest) == PSimple(args + [ts[0].w], rs, ts[1..] + rest)
  {
    assert (ts + rest)[0] == ts[0] && (ts + rest)[1..] == ts[1..] + rest;
  }

  lemma RedirStep(ts: seq<Tok>, r: Redirection<string>, args: seq<string>, rs: seq<Redirection<string>>, rest: seq<Tok>)
    requires |ts| >= 2 && ts[0] == RedirTok(r.mode) && ts[1] == Word(r.file)
    ensures PSimple(args, rs, ts + rest) == PSimple(args, rs + [r], ts[2..] + rest)
  {
    assert (ts + rest)[0] == ts[0] && (ts + rest)[1] == ts[1] && (ts + rest)[2..] == ts[2..] + rest;
  }

  lemma SimpleIsExec(ts: seq<Tok>, args: seq<string>, rs: seq<Redirection<string>>, c: Cmd<string>, rest: seq<Tok>)
    requires SimpleAs(ts, args, rs, c) && After(rest, "|)&;")
    ensures PExec(ts + rest) == Ok(c, rest)
  {
    SimpleComplete(ts, args, rs, [], [], rest);
    assert [] + args == args && [] + rs == rs;
    NoBlock(ts, args, rs, rest);
  }

  lemma NoBlock(ts: seq<Tok>, args: seq<string>, rs: seq<Redirection<string>>, rest: seq<Tok>)
    requires IsSimple(ts, args, rs) && After(rest, "|)&;")
    ensures !Starts(ts + rest, "(")
  {
    assert ts == [] ==> ts + rest == rest;
    assert ts != [] ==> (ts + rest)[0] == ts[0];
  }

  lemma {:induction false} ExecComplete(ts: seq<Tok>, c: Cmd<string>, rest: seq<Tok>)
    requires IsExec(ts, c) && After(rest, "|)&;")
    ensures PExec(ts + rest) == Ok(c, rest)
    decreases |ts|, 1
  {
    if exists args, rs :: SimpleAs(ts, args, rs, c) {
      var args, rs :| SimpleAs(ts, args, rs, c);
      SimpleIsExec(ts, args, rs, c, rest);
    } else {
      var n: nat, d, rs :| BlockAs(ts, n, d, rs, c);
      var after := RedirToks(rs) + rest;
      LineComplete(ts[1..n], d, [Sym(')')] + after);
      BlockSplit(ts, n, rs, rest);
      RedirsParsed(d, rs, rest);
      assert ([Sym(')')] + after)[1..] == after;
    }
  }

  lemma BlockSplit(ts: seq<Tok>, n: nat, rs: seq<Redirection<string>>, rest: seq<Tok>)
    requires 0 < n < |ts| && ts[0] == Sym('(') && ts[n] == Sym(')') && ts[n + 1..] == RedirToks(rs)
    ensures Starts(ts + rest, "(") && (ts + rest)[1..] == ts[1..n] + ([Sym(')')] + (RedirToks(rs) + rest))
  {
    assert ts == [ts[0]] + ts[1..n] + [ts[n]] + ts[n + 1..];
  }

  /** ts with its n-th token, and what is before and behind it. */
  lemma SplitAtTok(ts: seq<Tok>, n: nat, rest: seq<Tok>)
    requires n < |ts|
    ensures var more := [ts[n]] + (ts[n + 1..] + rest);
      ts + rest == ts[..n] + more && more[1..] == ts[n + 1..] + rest
  {
    assert ts == ts[..n] + [ts[n]] + ts[n + 1..];
  }

  lemma {:induction false} PipeComplete(ts: seq<Tok>, c: Cmd<string>, rest: seq<Tok>)
    requires IsPipe(ts, c) && After(rest, ")&;")
    ensures PPipe(ts + rest) == Ok(c, rest)
    decreases |ts|, 2
  {
    if IsExec(ts, c) {
      ExecComplete(ts, c, rest);
    } else {
      var n: nat :| PipeAt(ts, n, c);
      SplitAtTok(ts, n, rest);
      ExecComplete(ts[..n], c.left, [ts[n]] + (ts[n + 1..] + rest));
      PipeComplete(ts[n + 1..], c.right, rest);
    }
  }

  lemma {:induction false} AmpComplete(ts: seq<Tok>, c: Cmd<string>, rest: seq<Tok>)
    requires IsAmp(ts, c) && After(rest, ")&;")
    ensures var first := PPipe(ts + rest); first.Ok? && PAmps(first.cmd, first.rest) == PAmps(c, rest)
    decreases |ts|, 3
  {
    if IsPipe(ts, c) {
      PipeComplete(ts, c, rest);
    } else {
      var n := |ts| - 1;
      var more := [Sym('&')] + rest;
      assert ts + rest == ts[..n] + more && more[1..] == rest;
      AmpComplete(ts[..n], c.cmd, more);
    }
  }

  lemma {:induction false} LineComplete(ts: seq<Tok>, c: Cmd<string>, rest: seq<Tok>)
    requires IsLine(ts, c) && After(rest, ")")
    ensures PLine(ts + rest) == Ok(c, rest)
    decreases |ts|, 4
  {
    if IsAmp(ts, c) {
      AmpComplete(ts, c, rest);
    } else {
      var n: nat :| ListAt(ts, n, c);
      SplitAtTok(ts, n, rest);
      AmpComplete(ts[..n], c.left, [ts[n]] + (ts[n + 1..] + rest));
      LineComplete(ts[n + 1..], c.right, rest);
    }
  }

  /** The parser gives c for a whole line if and only if the line is a phrase for c. */
  lemma ParsedIffPhrase(ts: seq<Tok>, c: Cmd<string>)
    ensures PLine(ts) == Ok(c, []) <==> IsLine(ts, c)
  {
    assert ts + [] == ts;
    if PLine(ts) == Ok(c, []) {
      var x := LineSound(ts);
      assert x == ts;
    }
    if IsLine(ts, c) {
      LineComplete(ts, c, []);
    }
  }
}
