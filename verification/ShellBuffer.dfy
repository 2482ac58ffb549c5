/** parsecmd and nulterminate of user/sh.c: words are strings in the line's own buffer. */
module ShellBuffer {
  import opened ShellModel
  import opened ShellLex
  import opened ShellSpacing
  import ShellGrammar
  import opened ShellCode

  /** The C string that starts at q. */
  function CStr(b: seq<char>, q: nat): string
    decreases |b| - q
  {
    if q >= |b| || b[q] == '\0' then "" else [b[q]] + CStr(b, q + 1)
  }

  function ReadAll(b: seq<char>, ws: seq<Span>): (r: seq<string>)
    ensures |r| == |ws| && forall i :: 0 <= i < |ws| ==> r[i] == CStr(b, ws[i].q)
  {
    if ws == [] then [] else ReadAll(b, ws[..|ws| - 1]) + [CStr(b, ws[|ws| - 1].q)]
  }

  /** The command as runcmd sees it: argv and file are C strings in the buffer. */
  function ReadCmd(b: seq<char>, c: Cmd<Span>): Cmd<string> {
    match c
    case Exec(args) => Exec(ReadAll(b, args))
    case Redir(d, f, m) => Redir(ReadCmd(b, d), CStr(b, f.q), m)
    case Pipe(l, r) => Pipe(ReadCmd(b, l), ReadCmd(b, r))
    case List(l, r) => List(ReadCmd(b, l), ReadCmd(b, r))
    case Back(d) => Back(ReadCmd(b, d))
  }

  /** Where the words of a command end. */
  ghost function Ends(c: Cmd<Span>): set<nat> {
    match c
    case Exec(args) => set i | 0 <= i < |args| :: args[i].eq
    case Redir(d, f, _) => Ends(d) + {f.eq}
    case Pipe(l, r) => Ends(l) + Ends(r)
    case List(l, r) => Ends(l) + Ends(r)
    case Back(d) => Ends(d)
  }

  /** The buffer with NULs at some places. */
  ghost predicate Zeroed(b: seq<char>, b': seq<char>, ends: set<nat>) {
    |b'| == |b| && forall i :: 0 <= i < |b| ==> b'[i] == if i in ends then '\0' else b[i]
  }

  /** Puts a NUL behind every word of the command. */
  method Nulterminate(buf: array<char>, cmd: Cmd<Span>)
    requires forall e :: e in Ends(cmd) ==> e < buf.Length
    modifies buf
    ensures Zeroed(old(buf[..]), buf[..], Ends(cmd))
    decreases cmd
  {
    match cmd
    case Exec(args) =>
      var i := 0;
      while i < |args|
        invariant i <= |args|
        invariant forall k :: 0 <= k < buf.Length ==> buf[k] == if k in Ends(Exec(args[..i])) then '\0' else old(buf[k])
      {
        assert args[i].eq in Ends(cmd);
        assert Ends(Exec(args[..i + 1])) == Ends(Exec(args[..i])) + {args[i].eq} by {
          EndsPlus(args, i);
        }
        buf[args[i].eq] := '\0';
        i := i + 1;
      }
      assert args[..|args|] == args;
    case Redir(c, f, _) =>
      assert Ends(cmd) == Ends(c) + {f.eq};
      Nulterminate(buf, c);
      buf[f.eq] := '\0';
    case Pipe(l, r) =>
      assert Ends(cmd) == Ends(l) + Ends(r);
      Nulterminate(buf, l);
      Nulterminate(buf, r);
    case List(l, r) =>
      assert Ends(cmd) == Ends(l) + Ends(r);
      Nulterminate(buf, l);
      Nulterminate(buf, r);
    case Back(c) =>
      assert Ends(cmd) == Ends(c);
      Nulterminate(buf, c);
  }

  lemma EndsPlus(args: seq<Span>, i: nat)
    requires i < |args|
    ensures Ends(Exec(args[..i + 1])) == Ends(Exec(args[..i])) + {args[i].eq}
  {
    var a, b := args[..i], args[..i + 1];
    forall e ensures e in Ends(Exec(b)) <==> e in Ends(Exec(a)) + {args[i].eq} {
      if e in Ends(Exec(a)) {
        var k :| 0 <= k < i && a[k].eq == e;
        assert b[k].eq == e;
      }
      if e in Ends(Exec(b)) {
        var k :| 0 <= k <= i && b[k].eq == e;
        assert k < i ==> a[k].eq == e;
      }
      assert b[i].eq == args[i].eq;
    }
  }

  // ----- reading back

  /** No NUL lies inside a word: words end only where no word character is. */
  ghost predicate Outside(s: string, ends: set<nat>) {
    forall e :: e in ends ==> e <= |s| && (e < |s| ==> !WordChar(s[e]))
  }

  lemma {:induction false} EndsOutside(s: string, c: Cmd<Span>)
    requires SpansOk(s, c)
    ensures Outside(s, Ends(c))
  {
    match c
    case Exec(args) =>
    case Redir(d, f, _) => EndsOutside(s, d);
    case Pipe(l, r) =>
      EndsOutside(s, l);
      EndsOutside(s, r);
    case List(l, r) =>
      EndsOutside(s, l);
      EndsOutside(s, r);
    case Back(d) => EndsOutside(s, d);
  }

  lemma {:induction false} CStrIs(b: seq<char>, q: nat, e: nat)
    requires q <= e < |b| && b[e] == '\0' && forall i :: q <= i < e ==> b[i] != '\0'
    ensures CStr(b, q) == b[q..e]
    decreases e - q
  {
    if q < e {
      CStrIs(b, q + 1, e);
      assert b[q..e] == [b[q]] + b[q + 1..e];
    }
  }

  lemma WordBack(s: string, b: seq<char>, b': seq<char>, ends: set<nat>, w: Span)
    requires '\0' !in s && |b| > |s| && b[..|s|] == s && Zeroed(b, b', ends) && Outside(s, ends)
    requires SpanOk(s, w) && w.eq in ends
    ensures CStr(b', w.q) == Spell(s, w)
  {
    forall i | w.q <= i < w.eq ensures b'[i] == s[i] != '\0' {
      assert WordChar(s[i]) && b[..|s|][i] == s[i] && s[i] in s;
    }
    CStrIs(b', w.q, w.eq);
  }

  /** After nulterminate every word reads back as the token it was parsed from. */
  lemma {:induction false} ReadBack(s: string, b: seq<char>, b': seq<char>, ends: set<nat>, c: Cmd<Span>)
    requires '\0' !in s && |b| > |s| && b[..|s|] == s && Zeroed(b, b', ends) && Outside(s, ends)
    requires SpansOk(s, c) && Ends(c) <= ends
    ensures ReadCmd(b', c) == SpellCmd(s, c)
  {
    match c
    case Exec(args) =>
      forall i | 0 <= i < |args| ensures CStr(b', args[i].q) == Spell(s, args[i]) {
        assert args[i].eq in Ends(c);
        WordBack(s, b, b', ends, args[i]);
      }
      assert ReadAll(b', args) == SpellAll(s, args);
    case Redir(d, f, _) =>
      ReadBack(s, b, b', ends, d);
      WordBack(s, b, b', ends, f);
    case Pipe(l, r) =>
      ReadBack(s, b, b', ends, l);
      ReadBack(s, b, b', ends, r);
    case List(l, r) =>
      ReadBack(s, b, b', ends, l);
      ReadBack(s, b, b', ends, r);
    case Back(d) =>
      ReadBack(s, b, b', ends, d);
  }

  method Strlen(buf: array<char>) returns (n: nat)
    requires '\0' in buf[..]
    ensures n < buf.Length && buf[n] == '\0' && '\0' !in buf[..n] && buf[..n] == CStr(buf[..], 0)
  {
    n := 0;
    ghost var k :| 0 <= k < buf.Length && buf[..][k] == '\0';
    while buf[n] != '\0'
      invariant n <= k && '\0' !in buf[..n]
      decreases k - n
    {
      assert buf[..n + 1] == buf[..n] + [buf[n]];
      n := n + 1;
    }
    forall i | 0 <= i < n ensures buf[..][i] != '\0' {
      assert buf[..n][i] == buf[..][i];
    }
    CStrIs(buf[..], 0, n);
  }

  /** What the grammar gives for a line, as a phrase and for printed commands. */
  lemma SpecFacts(s: string)
    ensures forall c :: PLine(Toks(s, 0)) == Ok(c, []) <==> ShellGrammar.IsLine(Toks(s, 0), c)
    ensures forall t, gaps :: WordsOk(t) && Fits(t) && GapsOk(LineToks(t), gaps) && s == Spaced(LineToks(t), gaps) ==>
      PLine(Toks(s, 0)) == Ok(t, [])
  {
    forall c ensures PLine(Toks(s, 0)) == Ok(c, []) <==> ShellGrammar.IsLine(Toks(s, 0), c) {
      ShellGrammar.ParsedIffPhrase(Toks(s, 0), c);
    }
    forall t, gaps | WordsOk(t) && Fits(t) && GapsOk(LineToks(t), gaps) && s == Spaced(LineToks(t), gaps)
      ensures PLine(Toks(s, 0)) == Ok(t, [])
    {
      SpacedRoundTrip(t, gaps);
    }
  }

  /** Parses the line in the buffer.  The result is what the grammar gives for the whole line,
      its words C strings in the buffer; Bad for a line that is not a command. */
  method Parsecmd(buf: array<char>) returns (r: Parsed)
    requires '\0' in buf[..]
    modifies buf
    ensures var spec := PLine(Toks(CStr(old(buf[..]), 0), 0));
      if spec.Ok? && spec.rest == [] then r.Good? && ReadCmd(buf[..], r.cmd) == spec.cmd
      else r.Bad? && buf[..] == old(buf[..])
    ensures r.Good? ==> ShellGrammar.IsLine(Toks(CStr(old(buf[..]), 0), 0), ReadCmd(buf[..], r.cmd))
    ensures forall c :: ShellGrammar.IsLine(Toks(CStr(old(buf[..]), 0), 0), c) ==>
      r.Good? && ReadCmd(buf[..], r.cmd) == c
    ensures forall t, gaps ::
      WordsOk(t) && Fits(t) && GapsOk(LineToks(t), gaps) && CStr(old(buf[..]), 0) == Spaced(LineToks(t), gaps) ==>
        r.Good? && ReadCmd(buf[..], r.cmd) == t
  {
    SpecFacts(CStr(buf[..], 0));
    var es := Strlen(buf);
    var s := buf[..es];
    var p := new Parser(s);
    r := p.Parseline();
    if r.Bad? {
      return;
    }
    var _ := p.Peek("");
    if p.pos != es {
      return Bad;
    }
    EndsOutside(s, r.cmd);
    Nulterminate(buf, r.cmd);
    ReadBack(s, old(buf[..]), buf[..], Ends(r.cmd), r.cmd);
  }
}
