/** Commands of the shell, their tokens, and the grammar that user/sh.c parses. */
module ShellModel {
  const MAXARGS: nat := 10

  /** How a redirection opens its file: < reads, > truncates, >> does not. */
  datatype Mode = In | Out | Append

  /** Parsed commands; W is what stands for a word. */
  datatype Cmd<W> =
    | Exec(args: seq<W>)
    | Redir(cmd: Cmd<W>, file: W, mode: Mode)
    | Pipe(left: Cmd<W>, right: Cmd<W>)
    | List(left: Cmd<W>, right: Cmd<W>)
    | Back(cmd: Cmd<W>)

  datatype Tok = Sym(c: char) | Much | Word(w: string)

  datatype Result<T> = Ok(cmd: T, rest: seq<Tok>) | Err

  datatype Redirection<W> = Redirection(file: W, mode: Mode)

  /** A command inside its redirections, the first one innermost. */
  function Wrap<W>(c: Cmd<W>, rs: seq<Redirection<W>>): Cmd<W> {
    if rs == [] then c else Redir(Wrap(c, rs[..|rs| - 1]), rs[|rs| - 1].file, rs[|rs| - 1].mode)
  }

  // ----- the grammar, as parsing functions on tokens

  /** The redirection that a token starts. */
  function ModeOf(t: Tok): Result<Mode> {
    if t == Sym('<') then Ok(In, [])
    else if t == Sym('>') then Ok(Out, [])
    else if t == Much then Ok(Append, [])
    else Err
  }

  predicate Starts(ts: seq<Tok>, chars: string) {
    ts != [] && ts[0].Sym? && ts[0].c in chars
  }

  predicate StartsRedir(ts: seq<Tok>) {
    ts != [] && ModeOf(ts[0]).Ok?
  }

  function PRedirs(c: Cmd<string>, ts: seq<Tok>): (r: Result<Cmd<string>>)
    ensures r.Ok? ==> |r.rest| <= |ts|
    decreases |ts|
  {
    if !StartsRedir(ts) then Ok(c, ts)
    else if |ts| == 1 || !ts[1].Word? then Err
    else PRedirs(Redir(c, ts[1].w, ModeOf(ts[0]).cmd), ts[2..])
  }

  /** Words and redirections in any order, up to a symbol that ends a command. */
  function PSimple(args: seq<string>, rs: seq<Redirection<string>>, ts: seq<Tok>): (r: Result<Cmd<string>>)
    ensures r.Ok? ==> |r.rest| <= |ts|
    decreases |ts|
  {
    if ts == [] || Starts(ts, "|)&;") then Ok(Wrap(Exec(args), rs), ts)
    else if StartsRedir(ts) then
      if |ts| == 1 || !ts[1].Word? then Err
      else PSimple(args, rs + [Redirection(ts[1].w, ModeOf(ts[0]).cmd)], ts[2..])
    else if ts[0].Word? && |args| + 1 < MAXARGS then PSimple(args + [ts[0].w], rs, ts[1..])
    else Err
  }

  function PExec(ts: seq<Tok>): (r: Result<Cmd<string>>)
    ensures r.Ok? ==> |r.rest| <= |ts|
    decreases |ts|, 1
  {
    if Starts(ts, "(") then PBlock(ts) else PSimple([], [], ts)
  }

  function PBlock(ts: seq<Tok>): (r: Result<Cmd<string>>)
    requires Starts(ts, "(")
    ensures r.Ok? ==> |r.rest| <= |ts|
    decreases |ts|, 0
  {
    var inner := PLine(ts[1..]);
    if inner.Ok? && Starts(inner.rest, ")") then PRedirs(inner.cmd, inner.rest[1..]) else Err
  }

  function PPipe(ts: seq<Tok>): (r: Result<Cmd<string>>)
    ensures r.Ok? ==> |r.rest| <= |ts|
    decreases |ts|, 2
  {
    var left := PExec(ts);
    if left.Ok? && Starts(left.rest, "|") then
      var right := PPipe(left.rest[1..]);
      if right.Ok? then Ok(Pipe(left.cmd, right.cmd), right.rest) else Err
    else left
  }

  /** Any number of & after a command. */
  function PAmps(c: Cmd<string>, ts: seq<Tok>): (r: Result<Cmd<string>>)
    ensures r.Ok? && |r.rest| <= |ts|
    decreases |ts|
  {
    if Starts(ts, "&") then PAmps(Back(c), ts[1..]) else Ok(c, ts)
  }

  function PLine(ts: seq<Tok>): (r: Result<Cmd<string>>)
    ensures r.Ok? ==> |r.rest| <= |ts|
    decreases |ts|, 3
  {
    var first := PPipe(ts);
    if first.Err? then Err
    else
      var left := PAmps(first.cmd, first.rest);
      if Starts(left.rest, ";") then
        var right := PLine(left.rest[1..]);
        if right.Ok? then Ok(List(left.cmd, right.cmd), right.rest) else Err
      else left
  }

  // ----- printing

  function WordToks(args: seq<string>): seq<Tok> {
    if args == [] then [] else [Word(args[0])] + WordToks(args[1..])
  }

  function RedirTok(m: Mode): Tok {
    match m case In => Sym('<') case Out => Sym('>') case Append => Much
  }

  /** A command as part of a pipeline: in parentheses unless it is a simple one. */
  function ExecToks(t: Cmd<string>): seq<Tok>
    decreases t, 0
  {
    match t
    case Exec(args) => WordToks(args)
    case Redir(c, f, m) => ExecToks(c) + [RedirTok(m), Word(f)]
    case Pipe(l, r) => [Sym('(')] + (ExecToks(l) + [Sym('|')] + PipeToks(r)) + [Sym(')')]
    case List(l, r) => [Sym('(')] + (AmpToks(l) + [Sym(';')] + LineToks(r)) + [Sym(')')]
    case Back(c) => [Sym('(')] + (AmpToks(c) + [Sym('&')]) + [Sym(')')]
  }

  function PipeToks(t: Cmd<string>): seq<Tok>
    decreases t, 1
  {
    match t
    case Pipe(l, r) => ExecToks(l) + [Sym('|')] + PipeToks(r)
    case _ => ExecToks(t)
  }

  function AmpToks(t: Cmd<string>): seq<Tok>
    decreases t, 2
  {
    match t
    case Back(c) => AmpToks(c) + [Sym('&')]
    case _ => PipeToks(t)
  }

  /** A whole command line. */
  function LineToks(t: Cmd<string>): seq<Tok>
    decreases t, 3
  {
    match t
    case List(l, r) => AmpToks(l) + [Sym(';')] + LineToks(r)
    case _ => AmpToks(t)
  }

  /** Commands that a line can stand for. */
  predicate Fits(t: Cmd<string>) {
    match t
    case Exec(args) => |args| < MAXARGS
    case Redir(c, _, _) => Fits(c)
    case Pipe(l, r) => Fits(l) && Fits(r)
    case List(l, r) => Fits(l) && Fits(r)
    case Back(c) => Fits(c)
  }
}
