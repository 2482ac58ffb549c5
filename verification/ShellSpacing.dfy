/** What the tokens of a line are, said without the reading: by single characters, by words,
    and by how a line may be cut; and that any spacing of a command's tokens is read back. */
module ShellSpacing {
  import opened ShellModel
  import opened ShellProofs
  import opened ShellLex

  const WHITE: string := " \t\r\n\U{000B}"
  const SYMBOLS: string := "<|>&;()"

  predicate Plain(c: char) {
    c !in WHITE && c !in SYMBOLS
  }

  lemma CharKinds(c: char)
    ensures (IsSpace(c) <==> c in WHITE) && (IsSymbol(c) <==> c in SYMBOLS) && (WordChar(c) <==> Plain(c))
  {
  }

  /** A symbol alone is its token, white space alone none. */
  lemma OneSymbol(c: char)
    requires c in SYMBOLS
    ensures Toks([c], 0) == [Sym(c)]
  {
    CharKinds(c);
    assert Toks([c], 1) == [];
  }

  lemma OneSpace(c: char)
    requires c in WHITE
    ensures Toks([c], 0) == []
  {
    CharKinds(c);
    assert Skip([c], 1) == 1;
  }

  /** A word alone is one token. */
  lemma WordRead(w: string)
    requires w != "" && forall i :: 0 <= i < |w| ==> Plain(w[i])
    ensures Toks(w, 0) == [Word(w)]
  {
    forall i | 0 <= i < |w| ensures WordChar(w[i]) {
      CharKinds(w[i]);
    }
    WordEndIs(w, 0, |w|);
    assert w[0..|w|] == w && Toks(w, |w|) == [];
  }

  // ----- cutting a line

  lemma ToksStep(s: string, p: nat, q: nat)
    requires p <= |s| && q == Skip(s, p) < |s|
    ensures Toks(s, p) == [TokAt(s, q)] + Toks(s, EndAt(s, q))
  {
  }

  /** Reading from p on depends on what is there, not on what was before. */
  lemma {:induction false} SkipShift(a: string, b: string, p: nat)
    requires p <= |b|
    ensures Skip(a + b, |a| + p) == |a| + Skip(b, p)
    decreases |b| - p
  {
    if p < |b| {
      assert (a + b)[|a| + p] == b[p];
      if IsSpace(b[p]) {
        SkipShift(a, b, p + 1);
      }
    }
  }

  lemma WordEndShift(a: string, b: string, p: nat)
    requires p <= |b|
    ensures WordEnd(a + b, |a| + p) == |a| + WordEnd(b, p)
  {
    var e := WordEnd(b, p);
    forall i | |a| + p <= i < |a| + e ensures WordChar((a + b)[i]) {
      assert (a + b)[i] == b[i - |a|];
    }
    assert e < |b| ==> (a + b)[|a| + e] == b[e];
    WordEndIs(a + b, |a| + p, |a| + e);
  }

  lemma TokShift(a: string, b: string, q: nat)
    requires q < |b| && !IsSpace(b[q])
    ensures !IsSpace((a + b)[|a| + q]) && EndAt(a + b, |a| + q) == |a| + EndAt(b, q)
    ensures TokAt(a + b, |a| + q) == TokAt(b, q)
  {
    assert (a + b)[|a| + q] == b[q] && (q + 1 < |b| ==> (a + b)[|a| + q + 1] == b[q + 1]);
    WordEndShift(a, b, q);
    assert (a + b)[|a| + q..|a| + EndAt(b, q)] == b[q..EndAt(b, q)];
  }

  lemma {:induction false} ToksShift(a: string, b: string, p: nat)
    requires p <= |b|
    ensures Toks(a + b, |a| + p) == Toks(b, p)
    decreases |b| - p
  {
    SkipShift(a, b, p);
    var s, q := a + b, Skip(b, p);
    if q < |b| {
      TokShift(a, b, q);
      ToksShift(a, b, EndAt(b, q));
      ToksStep(b, p, q);
      ToksStep(s, |a| + p, |a| + q);
    }
  }

  /** a and b may be read apart: the cut is neither inside a word nor between two >. */
  predicate Apart(a: string, b: string) {
    a == "" || b == "" ||
    (var c, d := a[|a| - 1], b[0]; !(Plain(c) && Plain(d)) && !(c == '>' && d == '>'))
  }

  /** A token of a, which does not reach its end or ends there, is the same with b behind it. */
  lemma TokBefore(a: string, b: string, q: nat)
    requires q < |a| && !IsSpace(a[q]) && Apart(a, b)
    ensures !IsSpace((a + b)[q]) && EndAt(a + b, q) == EndAt(a, q) && TokAt(a + b, q) == TokAt(a, q)
  {
    var s, e := a + b, EndAt(a, q);
    assert s[q] == a[q] && (q + 1 < |a| ==> s[q + 1] == a[q + 1]);
    assert |a| < |s| ==> s[|a|] == b[0];
    CharKinds(a[|a| - 1]);
    if b != "" {
      CharKinds(b[0]);
    }
    if !IsSymbol(a[q]) {
      forall i | q <= i < e ensures WordChar(s[i]) {
        assert s[i] == a[i] && WordChar(a[i]);
      }
      assert e < |a| ==> s[e] == a[e];
      WordEndIs(s, q, e);
      assert s[q..e] == a[q..e];
    }
  }

  lemma {:induction false} SkipBefore(a: string, b: string, p: nat)
    requires p <= |a|
    ensures var q := Skip(a, p); Skip(a + b, p) == if q < |a| then q else Skip(a + b, |a|)
    decreases |a| - p
  {
    if p < |a| {
      assert (a + b)[p] == a[p];
      if IsSpace(a[p]) {
        SkipBefore(a, b, p + 1);
      }
    }
  }

  lemma {:induction false} ToksBefore(a: string, b: string, p: nat)
    requires p <= |a| && Apart(a, b)
    ensures Toks(a + b, p) == Toks(a, p) + Toks(b, 0)
    decreases |a| - p
  {
    SkipBefore(a, b, p);
    var s, q := a + b, Skip(a, p);
    if q < |a| {
      TokBefore(a, b, q);
      ToksBefore(a, b, EndAt(a, q));
      ToksStep(a, p, q);
      ToksStep(s, p, q);
    } else {
      ToksShift(a, b, 0);
      ToksSame(a + b, p, |a|);
    }
  }

  /** The tokens of two stretches that may be read apart are those of both. */
  lemma ToksApart(a: string, b: string)
    requires Apart(a, b)
    ensures Toks(a + b, 0) == Toks(a, 0) + Toks(b, 0)
  {
    ToksBefore(a, b, 0);
  }

  /** Two > in a row are one token, whatever follows. */
  lemma MuchFirst(b: string)
    ensures Toks(">>" + b, 0) == [Much] + Toks(b, 0)
  {
    var s := ">>" + b;
    assert s[0] == '>' && s[1] == '>';
    ToksFrom(s, 0);
    ToksShift(">>", b, 0);
  }

  predicate White(g: string) {
    forall i :: 0 <= i < |g| ==> g[i] in WHITE
  }

  lemma {:induction false} WhiteRead(g: string)
    requires White(g)
    ensures Toks(g, 0) == []
    decreases |g|
  {
    if g != "" {
      var n := |g| - 1;
      assert g == g[..n] + [g[n]];
      WhiteRead(g[..n]);
      OneSpace(g[n]);
      ToksApart(g[..n], [g[n]]);
    }
  }

  // ----- any spacing

  /** A line with these tokens, and gaps before, between and after them. */
  function Spaced(ts: seq<Tok>, gaps: seq<string>): string
    requires |gaps| == |ts| + 1
    decreases |ts|
  {
    if ts == [] then gaps[0] else gaps[0] + Text(ts[0]) + Spaced(ts[1..], gaps[1..])
  }

  predicate More(t: Tok) {
    t == Sym('>') || t == Much
  }

  /** Tokens that need white space between them. */
  predicate Fuse(t: Tok, u: Tok) {
    (t.Word? && u.Word?) || (More(t) && More(u))
  }

  predicate GapsOk(ts: seq<Tok>, gaps: seq<string>) {
    && |gaps| == |ts| + 1 && (forall i :: 0 <= i < |gaps| ==> White(gaps[i]))
    && forall i :: 0 < i < |ts| && Fuse(ts[i - 1], ts[i]) ==> gaps[i] != ""
  }

  lemma TextRead(t: Tok)
    requires TokOk(t)
    ensures Text(t) != "" && Toks(Text(t), 0) == [t]
  {
    match t
    case Sym(c) =>
      CharKinds(c);
      OneSymbol(c);
    case Much =>
      MuchFirst("");
      assert ">>" + "" == ">>" && Toks("", 0) == [];
    case Word(w) =>
      forall i | 0 <= i < |w| ensures Plain(w[i]) {
        CharKinds(w[i]);
      }
      WordRead(w);
  }

  /** White space may be read apart from anything. */
  lemma WhiteApart(g: string, b: string)
    requires White(g)
    ensures Apart(g, b) && Apart(b, g)
  {
  }

  /** Tokens that do not fuse may be read apart. */
  lemma TextsApart(t: Tok, u: Tok, b: string)
    requires TokOk(t) && TokOk(u) && !Fuse(t, u)
    ensures Apart(Text(t), Text(u) + b)
  {
    var c, d := Text(t)[|Text(t)| - 1], (Text(u) + b)[0];
    assert d == Text(u)[0];
    CharKinds(c);
    CharKinds(d);
  }

  lemma ApartBefore(g: string, a: string, b: string)
    requires a != "" && Apart(a, b)
    ensures Apart(g + a, b)
  {
    assert (g + a)[|g + a| - 1] == a[|a| - 1];
  }

  /** The first token may be read apart from the rest of the line. */
  lemma FirstApart(ts: seq<Tok>, gaps: seq<string>)
    requires ts != [] && ToksOk(ts) && GapsOk(ts, gaps)
    ensures Apart(Text(ts[0]), Spaced(ts[1..], gaps[1..]))
  {
    var us, hs := ts[1..], gaps[1..];
    var rest := Spaced(us, hs);
    assert hs[0] == gaps[1] && White(hs[0]);
    if hs[0] != "" {
      assert rest[0] == hs[0][0];
      assert !Plain(rest[0]) && rest[0] != '>';
    } else if us != [] {
      assert us[0] == ts[1] && !Fuse(ts[0], ts[1]);
      TextsApart(ts[0], us[0], Spaced(us[1..], hs[1..]));
      assert rest == Text(us[0]) + Spaced(us[1..], hs[1..]);
    }
  }

  lemma RestOk(ts: seq<Tok>, gaps: seq<string>)
    requires ts != [] && ToksOk(ts) && GapsOk(ts, gaps)
    ensures ToksOk(ts[1..]) && GapsOk(ts[1..], gaps[1..])
  {
    var us, hs := ts[1..], gaps[1..];
    forall i | 0 < i < |us| && Fuse(us[i - 1], us[i]) ensures hs[i] != "" {
      assert us[i - 1] == ts[i] && us[i] == ts[i + 1] && hs[i] == gaps[i + 1];
    }
  }

  /** However a line is spaced, its tokens are read back. */
  lemma {:induction false} SpacedRead(ts: seq<Tok>, gaps: seq<string>)
    requires ToksOk(ts) && GapsOk(ts, gaps)
    ensures Toks(Spaced(ts, gaps), 0) == ts
    decreases |ts|
  {
    var g := gaps[0];
    WhiteRead(g);
    if ts != [] {
      var x, rest := Text(ts[0]), Spaced(ts[1..], gaps[1..]);
      TextRead(ts[0]);
      WhiteApart(g, x);
      ToksApart(g, x);
      FirstApart(ts, gaps);
      ApartBefore(g, x, rest);
      ToksApart(g + x, rest);
      RestOk(ts, gaps);
      SpacedRead(ts[1..], gaps[1..]);
      HeadAndTail(ts);
    }
  }

  /** Parsing a line that a command's tokens are written in, however spaced, gives the command. */
  lemma SpacedRoundTrip(t: Cmd<string>, gaps: seq<string>)
    requires WordsOk(t) && Fits(t) && GapsOk(LineToks(t), gaps)
    ensures PLine(Toks(Spaced(LineToks(t), gaps), 0)) == Ok(t, [])
  {
    PrintedOk(t);
    SpacedRead(LineToks(t), gaps);
    LineParsed(t, []);
    assert LineToks(t) + [] == LineToks(t);
  }

  /** As when getcmd leaves the newline at the end. */
  lemma RoundTripNewline(t: Cmd<string>)
    requires WordsOk(t) && Fits(t)
    ensures PLine(Toks(Print(t) + "\n", 0)) == Ok(t, [])
  {
    RoundTrip(t);
    OneSpace('\n');
    ToksApart(Print(t), "\n");
    assert Toks(Print(t), 0) + [] == Toks(Print(t), 0);
  }
}
