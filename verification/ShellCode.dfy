/** The command parser of user/sh.c over a buffer with a cursor. */
module ShellCode {
  import opened ShellModel
  import opened ShellProofs
  import opened ShellLex

  /** A word in the buffer, from q up to but not including eq. */
  datatype Span = Span(q: nat, eq: nat)

  /** What parsing gives; Bad stands for the source's panics. */
  datatype Parsed = Good(cmd: Cmd<Span>) | Bad

  // ----- words in the buffer

  /** A whole word: nothing but word characters, and none right behind it. */
  predicate SpanOk(s: string, w: Span) {
    && w.q < w.eq <= |s| && (forall i :: w.q <= i < w.eq ==> WordChar(s[i]))
    && (w.eq < |s| ==> !WordChar(s[w.eq]))
  }

  function Spell(s: string, w: Span): string {
    if w.q <= w.eq <= |s| then s[w.q..w.eq] else ""
  }

  function SpellAll(s: string, ws: seq<Span>): (r: seq<string>)
    ensures |r| == |ws| && forall i :: 0 <= i < |ws| ==> r[i] == Spell(s, ws[i])
  {
    if ws == [] then [] else SpellAll(s, ws[..|ws| - 1]) + [Spell(s, ws[|ws| - 1])]
  }

  function SpellRedirs(s: string, rs: seq<Redirection<Span>>): (r: seq<Redirection<string>>)
    ensures |r| == |rs|
  {
    if rs == [] then []
    else SpellRedirs(s, rs[..|rs| - 1]) + [Redirection(Spell(s, rs[|rs| - 1].file), rs[|rs| - 1].mode)]
  }

  /** The command with its words spelled out. */
  function SpellCmd(s: string, c: Cmd<Span>): Cmd<string> {
    match c
    case Exec(args) => Exec(SpellAll(s, args))
    case Redir(d, f, m) => Redir(SpellCmd(s, d), Spell(s, f), m)
    case Pipe(l, r) => Pipe(SpellCmd(s, l), SpellCmd(s, r))
    case List(l, r) => List(SpellCmd(s, l), SpellCmd(s, r))
    case Back(d) => Back(SpellCmd(s, d))
  }

  predicate ArgsOk(s: string, ws: seq<Span>) {
    forall i :: 0 <= i < |ws| ==> SpanOk(s, ws[i])
  }

  predicate RedirsOk(s: string, rs: seq<Redirection<Span>>) {
    forall i :: 0 <= i < |rs| ==> SpanOk(s, rs[i].file)
  }

  predicate SpansOk(s: string, c: Cmd<Span>) {
    match c
    case Exec(args) => ArgsOk(s, args)
    case Redir(d, f, _) => SpansOk(s, d) && SpanOk(s, f)
    case Pipe(l, r) => SpansOk(s, l) && SpansOk(s, r)
    case List(l, r) => SpansOk(s, l) && SpansOk(s, r)
    case Back(d) => SpansOk(s, d)
  }

  lemma {:induction false} SpellWrap(s: string, c: Cmd<Span>, rs: seq<Redirection<Span>>)
    requires SpansOk(s, c) && RedirsOk(s, rs)
    ensures SpansOk(s, Wrap(c, rs)) && SpellCmd(s, Wrap(c, rs)) == Wrap(SpellCmd(s, c), SpellRedirs(s, rs))
    decreases |rs|
  {
    if rs != [] {
      var n := |rs| - 1;
      SpellWrap(s, c, rs[..n]);
      var words := SpellRedirs(s, rs);
      assert words[..n] == SpellRedirs(s, rs[..n]);
    }
  }

  /** The result of a parsing method against the grammar. */
  ghost predicate Agrees(s: string, r: Parsed, pos: nat, spec: Result<Cmd<string>>) {
    match spec
    case Err => r.Bad?
    case Ok(c, rest) => r.Good? && pos <= |s| && SpansOk(s, r.cmd) && SpellCmd(s, r.cmd) == c && Toks(s, pos) == rest
  }

  /** What gettoken returns for a token. */
  function Kind(t: Tok): char {
    match t case Sym(c) => c case Much => '+' case Word(_) => 'a'
  }

  lemma SimpleBad(args: seq<string>, rs: seq<Redirection<string>>, bad: seq<Tok>)
    requires BadRedir(bad)
    ensures PSimple(args, rs, bad) == Err
  {
  }

  lemma SpellArg(s: string, args: seq<Span>, w: Span)
    ensures SpellAll(s, args + [w]) == SpellAll(s, args) + [Spell(s, w)]
  {
    assert (args + [w])[..|args|] == args;
  }

  lemma {:induction false} SpellRedirsPlus(s: string, a: seq<Redirection<Span>>, b: seq<Redirection<Span>>)
    ensures SpellRedirs(s, a + b) == SpellRedirs(s, a) + SpellRedirs(s, b)
    decreases |b|
  {
    if b == [] {
      assert a + b == a;
    } else {
      var n := |b| - 1;
      assert (a + b)[..|a + b| - 1] == a + b[..n];
      SpellRedirsPlus(s, a, b[..n]);
    }
  }

  lemma MoreRedirs(s: string, rs0: seq<Redirection<Span>>, rs: seq<Redirection<Span>>, words: seq<Redirection<string>>,
                   r: Redirection<Span>, left: seq<Tok>, now: seq<Tok>)
    requires SpellRedirs(s, rs) == SpellRedirs(s, rs0) + words
    requires left == [RedirTok(r.mode), Word(Spell(s, r.file))] + now
    ensures var word := Redirection(Spell(s, r.file), r.mode);
      && SpellRedirs(s, rs + [r]) == SpellRedirs(s, rs0) + (words + [word])
      && RedirToks(words) + left == RedirToks(words + [word]) + now
  {
    var word := Redirection(Spell(s, r.file), r.mode);
    RedirToksPlus(words, word);
    SpellRedirsPlus(s, rs, [r]);
    assert SpellRedirs(s, [r]) == [word];
  }

  /** gettoken's result tells the three redirections apart. */
  lemma ModeKind(t: Tok)
    requires ModeOf(t).Ok?
    ensures t == RedirTok(if Kind(t) == '<' then In else if Kind(t) == '>' then Out else Append) && !t.Word?
  {
  }

  /** A redirection without its file. */
  predicate BadRedir(ts: seq<Tok>) {
    StartsRedir(ts) && (|ts| == 1 || !ts[1].Word?)
  }

  lemma {:induction false} RedirsBad(c: Cmd<string>, rs: seq<Redirection<string>>, bad: seq<Tok>)
    requires BadRedir(bad)
    ensures PRedirs(c, RedirToks(rs) + bad) == Err
    decreases |rs|
  {
    var ts := RedirToks(rs) + bad;
    if rs == [] {
      assert ts == bad;
    } else {
      assert ts[0] == RedirTok(rs[0].mode) && ts[1] == Word(rs[0].file) && ts[2..] == RedirToks(rs[1..]) + bad;
      RedirsBad(Redir(c, rs[0].file, rs[0].mode), rs[1..], bad);
    }
  }

  class Parser {
    const s: string   // the line, up to its NUL
    var pos: nat      // the cursor

    constructor (s: string)
      ensures this.s == s && pos == 0
    {
      this.s, pos := s, 0;
    }

    method SkipSpace()
      requires pos <= |s|
      modifies `pos
      ensures pos == Skip(s, old(pos)) && Toks(s, pos) == Toks(s, old(pos))
    {
      SkipToks(s, pos);
      while pos < |s| && IsSpace(s[pos])
        invariant old(pos) <= pos <= |s| && Skip(s, pos) == Skip(s, old(pos))
      {
        pos := pos + 1;
      }
    }

    /** The next token: its kind ('\0' at the end of the line) and where it is. */
    method Gettoken() returns (ret: char, q: nat, eq: nat)
      requires pos <= |s| && '\0' !in s
      modifies `pos
      ensures pos <= |s|
      ensures Toks(s, old(pos)) == [] ==> ret == '\0' && Toks(s, pos) == []
      ensures Toks(s, old(pos)) != [] ==>
        var t := Toks(s, old(pos))[0];
        && Toks(s, pos) == Toks(s, old(pos))[1..] && ret == Kind(t) && ret != '\0'
        && (t.Word? ==> SpanOk(s, Span(q, eq)) && t.w == s[q..eq])
    {
      SkipSpace();
      q := pos;
      ghost var start := pos;
      if pos == |s| {
        ret := '\0';
      } else if s[pos] == '>' {
        ret := '>';
        pos := pos + 1;
        if pos < |s| && s[pos] == '>' {
          ret := '+';
          pos := pos + 1;
        }
      } else if IsSymbol(s[pos]) {
        ret := s[pos];
        pos := pos + 1;
        assert ret in s;
      } else {
        ret := 'a';
        while pos < |s| && !IsSpace(s[pos]) && !IsSymbol(s[pos])
          invariant start <= pos <= |s| && WordEnd(s, pos) == WordEnd(s, start)
        {
          pos := pos + 1;
        }
      }
      eq := pos;
      assert start < |s| ==> pos == EndAt(s, start);
      SkipSpace();
    }

    /** Whether the next token starts with one of these characters. */
    method Peek(chars: string) returns (r: bool)
      requires pos <= |s| && '\0' !in s && forall c :: c in chars ==> IsSymbol(c)
      modifies `pos
      ensures pos == Skip(s, old(pos)) && Toks(s, pos) == Toks(s, old(pos))
      ensures r <==> Starts(Toks(s, pos), chars) || (Toks(s, pos) != [] && Toks(s, pos)[0] == Much && '>' in chars)
    {
      SkipSpace();
      SkipTwice(s, old(pos));
      r := pos < |s| && s[pos] in chars;
    }

    /** Collects redirections behind rs0; words are the new ones spelled out, left the tokens
        behind them. */
    method Parseredirs(rs0: seq<Redirection<Span>>)
      returns (ok: bool, rs: seq<Redirection<Span>>, ghost words: seq<Redirection<string>>, ghost left: seq<Tok>)
      requires pos <= |s| && '\0' !in s && RedirsOk(s, rs0)
      modifies `pos
      ensures pos <= |s| && Toks(s, old(pos)) == RedirToks(words) + left
      ensures ok ==> RedirsOk(s, rs) && SpellRedirs(s, rs) == SpellRedirs(s, rs0) + words
      ensures ok ==> left == Toks(s, pos) && !StartsRedir(left)
      ensures !ok ==> BadRedir(left)
      ensures |Toks(s, pos)| <= |Toks(s, old(pos))|
    {
      rs, words := rs0, [];
      while true
        invariant pos <= |s| && RedirsOk(s, rs) && SpellRedirs(s, rs) == SpellRedirs(s, rs0) + words
        invariant Toks(s, old(pos)) == RedirToks(words) + Toks(s, pos)
        decreases |Toks(s, pos)|
      {
        var more := Peek("<>");
        left := Toks(s, pos);
        if !more {
          ok := true;
          return;
        }
        var r;
        more, r := OneRedir();
        if !more {
          ok := false;
          return;
        }
        ghost var word := Redirection(Spell(s, r.file), r.mode);
        MoreRedirs(s, rs0, rs, words, r, left, Toks(s, pos));
        rs, words := rs + [r], words + [word];
      }
    }

    /** One redirection: the symbol and the file behind it. */
    method OneRedir() returns (ok: bool, r: Redirection<Span>)
      requires pos <= |s| && '\0' !in s && StartsRedir(Toks(s, pos))
      modifies `pos
      ensures pos <= |s| && |Toks(s, pos)| < |Toks(s, old(pos))|
      ensures !ok ==> BadRedir(Toks(s, old(pos)))
      ensures ok ==>
        && SpanOk(s, r.file) && Toks(s, old(pos)) == [RedirTok(r.mode), Word(Spell(s, r.file))] + Toks(s, pos)
    {
      ghost var ts := Toks(s, pos);
      ModeKind(ts[0]);
      var tok, _, _ := Gettoken();
      ghost var mid := pos;
      var tok2, q, eq := Gettoken();
      ok := tok2 == 'a';
      r := Redirection(Span(q, eq), if tok == '<' then In else if tok == '>' then Out else Append);
      assert ts == [ts[0]] + Toks(s, mid);
      if Toks(s, mid) != [] {
        KindWord(s, mid, 0);
        assert Toks(s, mid) == [Toks(s, mid)[0]] + Toks(s, pos);
      }
    }

    /** parseexec for a command that is not in parentheses. */
    method Parsesimple() returns (r: Parsed)
      requires pos <= |s| && '\0' !in s
      modifies `pos
      ensures pos <= |s| && Agrees(s, r, pos, PSimple([], [], Toks(s, old(pos))))
    {
      ghost var spec := PSimple([], [], Toks(s, pos));
      var args: seq<Span> := [];
      var ok, rs := MoreOfSimple(args, [], spec);
      if !ok {
        return Bad;
      }
      var more := true;
      while more
        invariant pos <= |s| && ArgsOk(s, args) && RedirsOk(s, rs) && |args| < MAXARGS
        invariant more ==> Scanned(args, rs, spec)
        invariant !more ==> Agrees(s, Good(Wrap(Exec(args), rs)), pos, spec)
        decreases |Toks(s, pos)|, more
      {
        var bad;
        more, bad, args, rs := OneArg(args, rs, spec);
        if bad {
          return Bad;
        }
      }
      r := Good(Wrap(Exec(args), rs));
    }

    /** The words and redirections taken so far are what the grammar has read. */
    ghost predicate Scanned(args: seq<Span>, rs: seq<Redirection<Span>>, spec: Result<Cmd<string>>)
      reads this
    {
      && pos <= |s| && ArgsOk(s, args) && RedirsOk(s, rs) && |args| < MAXARGS && !StartsRedir(Toks(s, pos))
      && spec == PSimple(SpellAll(s, args), SpellRedirs(s, rs), Toks(s, pos))
    }

    /** One pass of parseexec's loop: a word and what redirections follow it, or the end. */
    method OneArg(args0: seq<Span>, rs0: seq<Redirection<Span>>, ghost spec: Result<Cmd<string>>)
      returns (more: bool, bad: bool, args: seq<Span>, rs: seq<Redirection<Span>>)
      requires '\0' !in s && Scanned(args0, rs0, spec)
      modifies `pos
      ensures pos <= |s| && (bad ==> spec == Err) && |Toks(s, pos)| <= |Toks(s, old(pos))|
      ensures !bad && more ==> Scanned(args, rs, spec) && |Toks(s, pos)| < |Toks(s, old(pos))|
      ensures !bad && !more ==> ArgsOk(s, args) && RedirsOk(s, rs) && |args| < MAXARGS
      ensures !bad && !more ==> Agrees(s, Good(Wrap(Exec(args), rs)), pos, spec)
    {
      args, rs, bad := args0, rs0, false;
      var end := Peek("|)&;");
      if end {
        SpellWrap(s, Exec(args), rs);
        return false, bad, args, rs;
      }
      ghost var p0 := pos;
      var tok, q, eq := Gettoken();
      if tok == '\0' {
        SpellWrap(s, Exec(args), rs);
        return false, bad, args, rs;
      }
      KindWord(s, p0, 0);
      if tok != 'a' {
        return false, true, args, rs;
      }
      more, args, rs := AddArg(args, rs, Span(q, eq), spec);
      bad := !more;
    }

    /** A word becomes an argument, if there is room, and redirections may follow it. */
    method AddArg(args0: seq<Span>, rs0: seq<Redirection<Span>>, w: Span, ghost spec: Result<Cmd<string>>)
      returns (ok: bool, args: seq<Span>, rs: seq<Redirection<Span>>)
      requires pos <= |s| && '\0' !in s && ArgsOk(s, args0) && RedirsOk(s, rs0) && |args0| < MAXARGS && SpanOk(s, w)
      requires spec == if |args0| + 1 < MAXARGS
                       then PSimple(SpellAll(s, args0) + [Spell(s, w)], SpellRedirs(s, rs0), Toks(s, pos)) else Err
      modifies `pos
      ensures pos <= |s| && |Toks(s, pos)| <= |Toks(s, old(pos))|
      ensures if ok then Scanned(args, rs, spec) else spec == Err
    {
      SpellArg(s, args0, w);
      args, rs := args0 + [w], rs0;
      if |args| >= MAXARGS {
        return false, args, rs;
      }
      ok, rs := MoreOfSimple(args, rs, spec);
    }

    /** parseredirs within parseexec. */
    method MoreOfSimple(args: seq<Span>, rs0: seq<Redirection<Span>>, ghost spec: Result<Cmd<string>>)
      returns (ok: bool, rs: seq<Redirection<Span>>)
      requires pos <= |s| && '\0' !in s && RedirsOk(s, rs0)
      requires spec == PSimple(SpellAll(s, args), SpellRedirs(s, rs0), Toks(s, pos))
      modifies `pos
      ensures pos <= |s| && |Toks(s, pos)| <= |Toks(s, old(pos))|
      ensures ok ==> RedirsOk(s, rs) && !StartsRedir(Toks(s, pos))
      ensures spec == if ok then PSimple(SpellAll(s, args), SpellRedirs(s, rs), Toks(s, pos)) else Err
    {
      ghost var words, left;
      ok, rs, words, left := Parseredirs(rs0);
      SimpleRedirs(SpellAll(s, args), SpellRedirs(s, rs0), words, left);
      if !ok {
        SimpleBad(SpellAll(s, args), SpellRedirs(s, rs0) + words, left);
      }
    }

    method Parseexec() returns (r: Parsed)
      requires pos <= |s| && '\0' !in s
      modifies `pos
      ensures pos <= |s| && Agrees(s, r, pos, PExec(Toks(s, old(pos))))
      decreases |Toks(s, pos)|, 1
    {
      var block := Peek("(");
      if block {
        r := Parseblock();
      } else {
        r := Parsesimple();
      }
    }

    method Parseblock() returns (r: Parsed)
      requires pos <= |s| && '\0' !in s && Starts(Toks(s, pos), "(")
      modifies `pos
      ensures pos <= |s| && Agrees(s, r, pos, PBlock(Toks(s, old(pos))))
      decreases |Toks(s, pos)|, 0
    {
      var _, _, _ := Gettoken();
      r := Parseline();
      if r.Bad? {
        return;
      }
      var closed := Peek(")");
      if !closed {
        return Bad;
      }
      var _, _, _ := Gettoken();
      ghost var ts := Toks(s, pos);
      var ok, rs;
      ghost var words, left;
      ok, rs, words, left := Parseredirs([]);
      if ok {
        RedirsParsed(SpellCmd(s, r.cmd), words, left);
        SpellWrap(s, r.cmd, rs);
        assert SpellRedirs(s, rs) == words;
        r := Good(Wrap(r.cmd, rs));
      } else {
        RedirsBad(SpellCmd(s, r.cmd), words, left);
        r := Bad;
      }
    }

    method Parsepipe() returns (r: Parsed)
      requires pos <= |s| && '\0' !in s
      modifies `pos
      ensures pos <= |s| && Agrees(s, r, pos, PPipe(Toks(s, old(pos))))
      decreases |Toks(s, pos)|, 2
    {
      r := Parseexec();
      if r.Bad? {
        return;
      }
      var more := Peek("|");
      if more {
        var _, _, _ := Gettoken();
        var right := Parsepipe();
        r := if right.Bad? then Bad else Good(Pipe(r.cmd, right.cmd));
      }
    }

    method Parseline() returns (r: Parsed)
      requires pos <= |s| && '\0' !in s
      modifies `pos
      ensures pos <= |s| && Agrees(s, r, pos, PLine(Toks(s, old(pos))))
      decreases |Toks(s, pos)|, 3
    {
      ghost var first := PPipe(Toks(s, pos));
      r := Parsepipe();
      if r.Bad? {
        return;
      }
      r := Parseamps(r.cmd);
      ghost var left := PAmps(first.cmd, first.rest);
      var more := Peek(";");
      if more {
        var _, _, _ := Gettoken();
        var right := Parseline();
        r := if right.Bad? then Bad else Good(List(r.cmd, right.cmd));
      }
    }

    /** parseline's loop over &. */
    method Parseamps(cmd: Cmd<Span>) returns (r: Parsed)
      requires pos <= |s| && '\0' !in s && SpansOk(s, cmd)
      modifies `pos
      ensures pos <= |s| && Agrees(s, r, pos, PAmps(SpellCmd(s, cmd), Toks(s, old(pos))))
    {
      var c := cmd;
      while true
        invariant pos <= |s| && SpansOk(s, c)
        invariant PAmps(SpellCmd(s, c), Toks(s, pos)) == PAmps(SpellCmd(s, cmd), Toks(s, old(pos)))
        decreases |Toks(s, pos)|
      {
        var more := Peek("&");
        if !more {
          return Good(c);
        }
        var _, _, _ := Gettoken();
        c := Back(c);
      }
    }
  }

  /** Only words have kind 'a'. */
  lemma {:induction false} KindWord(s: string, p: nat, i: nat)
    requires p <= |s| && i < |Toks(s, p)|
    ensures Kind(Toks(s, p)[i]) == 'a' <==> Toks(s, p)[i].Word?
    decreases i
  {
    if i > 0 {
      KindWord(s, EndAt(s, Skip(s, p)), i - 1);
    }
  }
}
