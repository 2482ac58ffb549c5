/** Parsing what was printed gives the command back. */
module ShellProofs {
  import opened ShellModel

  // ----- redirections around a command

  function RedirToks(rs: seq<Redirection<string>>): seq<Tok> {
    if rs == [] then [] else [RedirTok(rs[0].mode), Word(rs[0].file)] + RedirToks(rs[1..])
  }

  /** What is inside all redirections, and these. */
  function Core(t: Cmd<string>): Cmd<string> {
    if t.Redir? then Core(t.cmd) else t
  }

  function Redirs(t: Cmd<string>): seq<Redirection<string>> {
    if t.Redir? then Redirs(t.cmd) + [Redirection(t.file, t.mode)] else []
  }

  lemma {:induction false} WrapCore(t: Cmd<string>)
    ensures Wrap(Core(t), Redirs(t)) == t
    ensures !Core(t).Redir? && (Fits(t) ==> Fits(Core(t)))
  {
    if t.Redir? {
      WrapCore(t.cmd);
      var rs := Redirs(t);
      assert rs[..|rs| - 1] == Redirs(t.cmd);
    }
  }

  lemma {:induction false} RedirToksPlus(rs: seq<Redirection<string>>, r: Redirection<string>)
    ensures RedirToks(rs + [r]) == RedirToks(rs) + [RedirTok(r.mode), Word(r.file)]
  {
    if rs != [] {
      assert (rs + [r])[1..] == rs[1..] + [r];
      RedirToksPlus(rs[1..], r);
    }
  }

  lemma {:induction false} ExecToksCore(t: Cmd<string>)
    ensures ExecToks(t) == ExecToks(Core(t)) + RedirToks(Redirs(t))
  {
    if t.Redir? {
      ExecToksCore(t.cmd);
      RedirToksPlus(Redirs(t.cmd), Redirection(t.file, t.mode));
    }
  }

  lemma {:induction false} WrapMore(c: Cmd<string>, r: Redirection<string>, rs: seq<Redirection<string>>)
    ensures Wrap(Redir(c, r.file, r.mode), rs) == Wrap(c, [r] + rs)
    decreases |rs|
  {
    var all := [r] + rs;
    if rs == [] {
      assert all[..|all| - 1] == [];
    } else {
      assert all[..|all| - 1] == [r] + rs[..|rs| - 1];
      WrapMore(c, r, rs[..|rs| - 1]);
    }
  }

  /** parseredirs takes all redirections. */
  lemma {:induction false} RedirsParsed(c: Cmd<string>, rs: seq<Redirection<string>>, rest: seq<Tok>)
    requires !StartsRedir(rest)
    ensures PRedirs(c, RedirToks(rs) + rest) == Ok(Wrap(c, rs), rest)
    decreases |rs|
  {
    var ts := RedirToks(rs) + rest;
    if rs == [] {
      assert ts == rest;
    } else {
      assert ts[0] == RedirTok(rs[0].mode) && ts[1] == Word(rs[0].file) && ts[2..] == RedirToks(rs[1..]) + rest;
      RedirsParsed(Redir(c, rs[0].file, rs[0].mode), rs[1..], rest);
      WrapMore(c, rs[0], rs[1..]);
      assert [rs[0]] + rs[1..] == rs;
    }
  }

  // ----- simple commands

  lemma {:induction false} SimpleWords(args: seq<string>, more: seq<string>, rs: seq<Redirection<string>>,
                                       rest: seq<Tok>)
    requires |args| + |more| < MAXARGS
    ensures PSimple(args, rs, WordToks(more) + rest) == PSimple(args + more, rs, rest)
    decreases |more|
  {
    var ts := WordToks(more) + rest;
    if more == [] {
      assert ts == rest && args + more == args;
    } else {
      assert ts[0] == Word(more[0]) && ts[1..] == WordToks(more[1..]) + rest;
      SimpleWords(args + [more[0]], more[1..], rs, rest);
      assert args + [more[0]] + more[1..] == args + more;
    }
  }

  lemma {:induction false} SimpleRedirs(args: seq<string>, rs: seq<Redirection<string>>, more: seq<Redirection<string>>,
                                        rest: seq<Tok>)
    ensures PSimple(args, rs, RedirToks(more) + rest) == PSimple(args, rs + more, rest)
    decreases |more|
  {
    var ts := RedirToks(more) + rest;
    if more == [] {
      assert ts == rest && rs + more == rs;
    } else {
      assert ts[0] == RedirTok(more[0].mode) && ts[1] == Word(more[0].file) && ts[2..] == RedirToks(more[1..]) + rest;
      SimpleRedirs(args, rs + [more[0]], more[1..], rest);
      assert rs + [more[0]] + more[1..] == rs + more;
    }
  }

  /** What may follow a command of a pipeline, a pipeline, commands with &, and a line. */
  predicate After(rest: seq<Tok>, chars: string) {
    rest == [] || Starts(rest, chars)
  }

  lemma SimpleParsed(args: seq<string>, rs: seq<Redirection<string>>, rest: seq<Tok>)
    requires |args| < MAXARGS && After(rest, "|)&;")
    ensures PExec(WordToks(args) + RedirToks(rs) + rest) == Ok(Wrap(Exec(args), rs), rest)
  {
    SimpleAll(args, rs, rest);
    NotBlock(args, rs, rest);
  }

  lemma SimpleAll(args: seq<string>, rs: seq<Redirection<string>>, rest: seq<Tok>)
    requires |args| < MAXARGS
    ensures PSimple([], [], WordToks(args) + RedirToks(rs) + rest) == PSimple(args, rs, rest)
  {
    Assoc(WordToks(args), RedirToks(rs), rest);
    SimpleWords([], args, [], RedirToks(rs) + rest);
    SimpleRedirs(args, [], rs, rest);
    assert [] + args == args && [] + rs == rs;
  }

  lemma Assoc(a: seq<Tok>, b: seq<Tok>, c: seq<Tok>)
    ensures a + b + c == a + (b + c)
  {
  }

  lemma NotBlock(args: seq<string>, rs: seq<Redirection<string>>, rest: seq<Tok>)
    requires After(rest, "|)&;")
    ensures !Starts(WordToks(args) + RedirToks(rs) + rest, "(")
  {
    var ts := WordToks(args) + RedirToks(rs) + rest;
    if args != [] {
      assert ts[0] == Word(args[0]);
    } else if rs != [] {
      assert ts[0] == RedirTok(rs[0].mode);
    } else {
      assert ts == rest;
    }
  }

  // ----- the rest of the grammar

  /** Tokens between the parentheses of a command that needs them. */
  function Inside(t: Cmd<string>): seq<Tok> {
    match t
    case Pipe(l, r) => ExecToks(l) + [Sym('|')] + PipeToks(r)
    case List(l, r) => AmpToks(l) + [Sym(';')] + LineToks(r)
    case Back(c) => AmpToks(c) + [Sym('&')]
    case _ => []
  }

  lemma InsideIsLine(t: Cmd<string>)
    requires t.Pipe? || t.List? || t.Back?
    ensures Inside(t) == LineToks(t) && ExecToks(t) == [Sym('(')] + Inside(t) + [Sym(')')]
  {
    assert !t.List? ==> LineToks(t) == AmpToks(t);
    assert t.Pipe? ==> AmpToks(t) == PipeToks(t);
  }

  lemma {:induction false} ExecParsed(t: Cmd<string>, rest: seq<Tok>)
    requires Fits(t) && After(rest, "|)&;")
    ensures PExec(ExecToks(t) + rest) == Ok(t, rest)
    decreases t, 4
  {
    WrapCore(t);
    ExecToksCore(t);
    var c, rs := Core(t), Redirs(t);
    CoreSmaller(t);
    if c.Exec? {
      SimpleParsed(c.args, rs, rest);
    } else {
      LineParsed(c, [Sym(')')] + (RedirToks(rs) + rest));
      BlockParsed(c, rs, rest);
      assert ExecToks(t) + rest == ExecToks(c) + RedirToks(rs) + rest;
    }
  }

  lemma BlockParsed(c: Cmd<string>, rs: seq<Redirection<string>>, rest: seq<Tok>)
    requires (c.Pipe? || c.List? || c.Back?) && After(rest, "|)&;")
    requires var more := [Sym(')')] + (RedirToks(rs) + rest); PLine(LineToks(c) + more) == Ok(c, more)
    ensures PExec(ExecToks(c) + RedirToks(rs) + rest) == Ok(Wrap(c, rs), rest)
  {
    var after := RedirToks(rs) + rest;
    BlockTokens(c, RedirToks(rs), rest);
    assert ([Sym(')')] + after)[1..] == after;
    RedirsParsed(c, rs, rest);
  }

  lemma BlockTokens(c: Cmd<string>, rs: seq<Tok>, rest: seq<Tok>)
    requires c.Pipe? || c.List? || c.Back?
    ensures var ts := ExecToks(c) + rs + rest;
      Starts(ts, "(") && ts[1..] == LineToks(c) + ([Sym(')')] + (rs + rest))
  {
    InsideIsLine(c);
    Regroup(Sym('('), LineToks(c), Sym(')'), rs, rest);
  }

  lemma Regroup(a: Tok, b: seq<Tok>, c: Tok, d: seq<Tok>, e: seq<Tok>)
    ensures [a] + b + [c] + d + e == [a] + (b + ([c] + (d + e)))
  {
  }

  lemma {:induction false} CoreSmaller(t: Cmd<string>)
    ensures Core(t) == t || Core(t) < t
  {
    if t.Redir? {
      CoreSmaller(t.cmd);
    }
  }

  lemma {:induction false} PipeParsed(t: Cmd<string>, rest: seq<Tok>)
    requires Fits(t) && After(rest, ")&;")
    ensures PPipe(PipeToks(t) + rest) == Ok(t, rest)
    decreases t, if t.Pipe? then 0 else 5
  {
    if t.Pipe? {
      var more := [Sym('|')] + (PipeToks(t.right) + rest);
      assert PipeToks(t) + rest == ExecToks(t.left) + more;
      ExecParsed(t.left, more);
      assert more[1..] == PipeToks(t.right) + rest;
      PipeParsed(t.right, rest);
    } else {
      ExecParsed(t, rest);
    }
  }

  /** Commands with & before anything else. */
  lemma {:induction false} AmpsParsed(t: Cmd<string>, rest: seq<Tok>)
    requires Fits(t) && After(rest, ")&;")
    ensures var first := PPipe(AmpToks(t) + rest);
      first.Ok? && PAmps(first.cmd, first.rest) == PAmps(t, rest)
    decreases t, if t.Back? then 0 else if t.Pipe? then 2 else 6
  {
    if t.Back? {
      var more := [Sym('&')] + rest;
      assert AmpToks(t) + rest == AmpToks(t.cmd) + more;
      AmpsParsed(t.cmd, more);
      assert more[1..] == rest;
    } else {
      PipeParsed(t, rest);
    }
  }

  lemma {:induction false} LineParsed(t: Cmd<string>, rest: seq<Tok>)
    requires Fits(t) && After(rest, ")")
    ensures PLine(LineToks(t) + rest) == Ok(t, rest)
    decreases t, if t.Pipe? || t.Back? || t.List? then 3 else 7
  {
    if t.List? {
      var more := [Sym(';')] + (LineToks(t.right) + rest);
      assert LineToks(t) + rest == AmpToks(t.left) + more;
      AmpsParsed(t.left, more);
      assert more[1..] == LineToks(t.right) + rest;
      LineParsed(t.right, rest);
    } else {
      AmpsParsed(t, rest);
    }
  }
}
