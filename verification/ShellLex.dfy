/** Characters and tokens of a command line (gettoken and peek of user/sh.c). */
module ShellLex {
  import opened ShellModel
  import opened ShellProofs

  /** whitespace[] */
  predicate IsSpace(c: char) {
    c == ' ' || c == '\t' || c == '\r' || c == '\n' || c == '\U{000B}'
  }

  /** symbols[] */
  predicate IsSymbol(c: char) {
    c == '<' || c == '|' || c == '>' || c == '&' || c == ';' || c == '(' || c == ')'
  }

  predicate WordChar(c: char) {
    !IsSpace(c) && !IsSymbol(c)
  }

  /** The first place from p on that is not white. */
  function Skip(s: string, p: nat): (q: nat)
    requires p <= |s|
    ensures p <= q <= |s| && (q < |s| ==> !IsSpace(s[q]))
    decreases |s| - p
  {
    if p < |s| && IsSpace(s[p]) then Skip(s, p + 1) else p
  }

  function WordEnd(s: string, p: nat): (e: nat)
    requires p <= |s|
    ensures p <= e <= |s| && (e < |s| ==> !WordChar(s[e])) && forall i :: p <= i < e ==> WordChar(s[i])
    decreases |s| - p
  {
    if p < |s| && WordChar(s[p]) then WordEnd(s, p + 1) else p
  }

  /** Where the token at q ends. */
  function EndAt(s: string, q: nat): (e: nat)
    requires q < |s| && !IsSpace(s[q])
    ensures q < e <= |s|
  {
    if s[q] == '>' && q + 1 < |s| && s[q + 1] == '>' then q + 2
    else if IsSymbol(s[q]) then q + 1
    else WordEnd(s, q)
  }

  function TokAt(s: string, q: nat): Tok
    requires q < |s| && !IsSpace(s[q])
  {
    if s[q] == '>' && q + 1 < |s| && s[q + 1] == '>' then Much
    else if IsSymbol(s[q]) then Sym(s[q])
    else Word(s[q..EndAt(s, q)])
  }

  /** The tokens from p on. */
  function Toks(s: string, p: nat): seq<Tok>
    requires p <= |s|
    decreases |s| - p
  {
    var q := Skip(s, p);
    if q == |s| then [] else [TokAt(s, q)] + Toks(s, EndAt(s, q))
  }

  /** White space between tokens does not matter. */
  lemma {:induction false} SkipToks(s: string, p: nat)
    requires p <= |s|
    ensures Toks(s, Skip(s, p)) == Toks(s, p)
  {
    SkipTwice(s, p);
  }

  lemma {:induction false} SkipTwice(s: string, p: nat)
    requires p <= |s|
    ensures Skip(s, Skip(s, p)) == Skip(s, p)
    decreases |s| - p
  {
    if p < |s| && IsSpace(s[p]) {
      SkipTwice(s, p + 1);
    }
  }

  lemma ToksSame(s: string, a: nat, b: nat)
    requires a <= |s| && b <= |s| && Skip(s, a) == Skip(s, b)
    ensures Toks(s, a) == Toks(s, b)
  {
  }

  // ----- writing tokens

  function Text(t: Tok): string {
    match t case Sym(c) => [c] case Much => ">>" case Word(w) => w
  }

  /** Tokens with a space after each. */
  function Render(ts: seq<Tok>): string {
    if ts == [] then "" else Text(ts[0]) + " " + Render(ts[1..])
  }

  predicate WordOk(w: string) {
    w != "" && forall i :: 0 <= i < |w| ==> WordChar(w[i]) && w[i] != '\0'
  }

  predicate TokOk(t: Tok) {
    match t case Sym(c) => IsSymbol(c) case Much => true case Word(w) => WordOk(w)
  }

  predicate ToksOk(ts: seq<Tok>) {
    forall i :: 0 <= i < |ts| ==> TokOk(ts[i])
  }

  lemma {:induction false} WordEndIs(s: string, p: nat, e: nat)
    requires p <= e <= |s| && (forall i :: p <= i < e ==> WordChar(s[i])) && (e < |s| ==> !WordChar(s[e]))
    ensures WordEnd(s, p) == e
    decreases e - p
  {
    if p < e {
      WordEndIs(s, p + 1, e);
    }
  }

  /** A token with a space after it is read as itself. */
  lemma FirstRead(s: string, p: nat, t: Tok, e: nat)
    requires TokOk(t) && p < e < |s| && s[p..e] == Text(t) && s[e] == ' '
    ensures !IsSpace(s[p]) && EndAt(s, p) == e && TokAt(s, p) == t
  {
    assert s[p] == Text(t)[0];
    assert e - p == |Text(t)|;
    if t.Word? {
      forall i | p <= i < e ensures WordChar(s[i]) {
        assert s[i] == t.w[i - p];
      }
      WordEndIs(s, p, e);
    } else if t.Much? {
      assert s[p + 1] == Text(t)[1];
    }
  }

  lemma RenderOne(s: string, p: nat, t: Tok)
    requires StandsAt(s, p, t)
    ensures Past(p, t) <= |s| && Toks(s, p) == [t] + Toks(s, Past(p, t))
  {
    var e := p + |Text(t)|;
    FirstRead(s, p, t, e);
    ToksSame(s, e, e + 1);
    ToksFrom(s, p);
  }

  /** A proper token stands in s at p, with a space after it. */
  predicate StandsAt(s: string, p: nat, t: Tok) {
    var e := p + |Text(t)|;
    TokOk(t) && p < e < |s| && s[p..e] == Text(t) && s[e] == ' '
  }

  function Past(p: nat, t: Tok): nat {
    p + |Text(t)| + 1
  }

  /** These tokens stand in s from p to the end. */
  predicate Written(s: string, p: nat, ts: seq<Tok>)
    decreases |ts|
  {
    if ts == [] then p == |s| else StandsAt(s, p, ts[0]) && Written(s, Past(p, ts[0]), ts[1..])
  }

  lemma RenderFirst(s: string, p: nat, ts: seq<Tok>)
    requires p <= |s| && ts != [] && ToksOk(ts) && s[p..] == Render(ts)
    ensures StandsAt(s, p, ts[0]) && Past(p, ts[0]) <= |s| && s[Past(p, ts[0])..] == Render(ts[1..]) && ToksOk(ts[1..])
  {
    FirstOk(ts);
    SplitAt(s, p, Text(ts[0]), Render(ts[1..]));
  }

  lemma FirstOk(ts: seq<Tok>)
    requires ToksOk(ts) && ts != []
    ensures TokOk(ts[0]) && |Text(ts[0])| > 0 && ToksOk(ts[1..])
  {
  }

  lemma {:induction false} RenderWritten(s: string, p: nat, ts: seq<Tok>)
    requires p <= |s| && ToksOk(ts) && s[p..] == Render(ts)
    ensures Written(s, p, ts)
    decreases |ts|
  {
    if ts != [] {
      RenderFirst(s, p, ts);
      RenderWritten(s, Past(p, ts[0]), ts[1..]);
    } else {
      assert |s[p..]| == 0;
    }
  }

  lemma {:induction false} WrittenRead(s: string, p: nat, ts: seq<Tok>)
    requires p <= |s| && Written(s, p, ts)
    ensures Toks(s, p) == ts
    decreases |ts|
  {
    if ts != [] {
      RenderOne(s, p, ts[0]);
      WrittenRead(s, Past(p, ts[0]), ts[1..]);
      HeadAndTail(ts);
    }
  }

  lemma HeadAndTail(ts: seq<Tok>)
    requires ts != []
    ensures ts == [ts[0]] + ts[1..]
  {
  }

  /** Reading what was written gives the tokens back. */
  lemma RenderRead(s: string, p: nat, ts: seq<Tok>)
    requires p <= |s| && ToksOk(ts) && s[p..] == Render(ts)
    ensures Toks(s, p) == ts
  {
    RenderWritten(s, p, ts);
    WrittenRead(s, p, ts);
  }

  lemma SplitAt(s: string, p: nat, text: string, more: string)
    requires p <= |s| && s[p..] == text + " " + more
    ensures var e := p + |text|; e < |s| && s[p..e] == text && s[e] == ' ' && s[e + 1..] == more
  {
    var n := |text|;
    assert s[p..][..n] == text && s[p..][n] == ' ' && s[p..][n + 1..] == more;
  }

  lemma ToksFrom(s: string, p: nat)
    requires p < |s| && !IsSpace(s[p])
    ensures Toks(s, p) == [TokAt(s, p)] + Toks(s, EndAt(s, p))
  {
    assert Skip(s, p) == p;
  }

  // ----- commands as text

  predicate WordsOk(t: Cmd<string>) {
    match t
    case Exec(args) => forall i :: 0 <= i < |args| ==> WordOk(args[i])
    case Redir(c, f, _) => WordsOk(c) && WordOk(f)
    case Pipe(l, r) => WordsOk(l) && WordsOk(r)
    case List(l, r) => WordsOk(l) && WordsOk(r)
    case Back(c) => WordsOk(c)
  }

  lemma {:induction false} WordToksOk(args: seq<string>)
    requires forall i :: 0 <= i < |args| ==> WordOk(args[i])
    ensures ToksOk(WordToks(args))
  {
    if args != [] {
      WordToksOk(args[1..]);
    }
  }

  lemma {:induction false} PrintedOk(t: Cmd<string>)
    requires WordsOk(t)
    ensures ToksOk(ExecToks(t)) && ToksOk(PipeToks(t)) && ToksOk(AmpToks(t)) && ToksOk(LineToks(t))
  {
    match t
    case Exec(args) => WordToksOk(args);
    case Redir(c, f, m) => PrintedOk(c);
    case Pipe(l, r) =>
      PrintedOk(l);
      PrintedOk(r);
    case List(l, r) =>
      PrintedOk(l);
      PrintedOk(r);
    case Back(c) => PrintedOk(c);
  }

  /** The line that a command is written as. */
  function Print(t: Cmd<string>): string {
    Render(LineToks(t))
  }

  /** Parsing the line that a command was written as gives the command. */
  lemma RoundTrip(t: Cmd<string>)
    requires WordsOk(t) && Fits(t)
    ensures PLine(Toks(Print(t), 0)) == Ok(t, [])
  {
    PrintedOk(t);
    RenderRead(Print(t), 0, LineToks(t));
    LineParsed(t, []);
    assert LineToks(t) + [] == LineToks(t);
  }
}
