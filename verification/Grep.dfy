/** The regular expression matcher of user/grep.c.  A string stands for what precedes its
    NUL. */
module Grep {
  // ----- what a pattern means

  datatype Item = One(c: char) | Any | Many(c: char)

  /** Items in a row; whether the match must reach the end of the text. */
  datatype Pattern = Pattern(items: seq<Item>, atEnd: bool)

  predicate CharOk(c: char, x: char) {
    c == '.' || c == x
  }

  predicate AllOk(c: char, s: string) {
    forall i :: 0 <= i < |s| ==> CharOk(c, s[i])
  }

  predicate ItemOk(item: Item, s: string) {
    match item
    case One(c) => s == [c]
    case Any => |s| == 1
    case Many(c) => AllOk(c, s)
  }

  /** The language of items: s is made of one piece for each of them. */
  ghost predicate InLang(items: seq<Item>, s: string) {
    if items == [] then s == ""
    else exists k :: 0 <= k <= |s| && ItemOk(items[0], s[..k]) && InLang(items[1..], s[k..])
  }

  /** A match that starts at the beginning of the text. */
  ghost predicate Here(p: Pattern, text: string) {
    exists j :: MatchTo(p, text, j)
  }

  ghost predicate MatchTo(p: Pattern, text: string, j: nat) {
    j <= |text| && InLang(p.items, text[..j]) && (p.atEnd ==> j == |text|)
  }

  function Cons(item: Item, p: Pattern): Pattern {
    p.(items := [item] + p.items)
  }

  /** How a pattern is read: c followed by * is Many(c) whatever c is, $ at the end is an
      anchor, a dot stands for any character, and everything else for itself. */
  function Parse(re: string): Pattern {
    if re == "" then Pattern([], false)
    else if |re| > 1 && re[1] == '*' then Cons(Many(re[0]), Parse(re[2..]))
    else if re == "$" then Pattern([], true)
    else Cons(if re[0] == '.' then Any else One(re[0]), Parse(re[1..]))
  }

  /** ^ at the beginning of a pattern anchors it; otherwise the match may start anywhere. */
  ghost predicate Accepts(re: string, text: string) {
    if re != "" && re[0] == '^' then Here(Parse(re[1..]), text)
    else exists i :: 0 <= i <= |text| && Here(Parse(re), text[i..])
  }

  // ----- one item more

  lemma HereCons(item: Item, p: Pattern, text: string, k: nat)
    requires k <= |text| && ItemOk(item, text[..k]) && Here(p, text[k..])
    ensures Here(Cons(item, p), text)
  {
    var j: nat :| MatchTo(p, text[k..], j);
    var s := text[..k + j];
    assert s[..k] == text[..k] && s[k..] == text[k..][..j];
    assert Cons(item, p).items[1..] == p.items;
    assert InLang(Cons(item, p).items, s);
    assert MatchTo(Cons(item, p), text, k + j);
  }

  lemma HereUncons(item: Item, p: Pattern, text: string) returns (k: nat)
    requires Here(Cons(item, p), text)
    ensures k <= |text| && ItemOk(item, text[..k]) && Here(p, text[k..])
  {
    var j: nat :| MatchTo(Cons(item, p), text, j);
    var s := text[..j];
    assert Cons(item, p).items[1..] == p.items;
    k :| 0 <= k <= |s| && ItemOk(item, s[..k]) && InLang(p.items, s[k..]);
    assert s[..k] == text[..k] && s[k..] == text[k..][..j - k];
    assert MatchTo(p, text[k..], j - k);
  }

  /** One character and then the rest. */
  lemma HereOne(item: Item, p: Pattern, text: string)
    requires item.One? || item.Any?
    ensures Here(Cons(item, p), text) <==> text != "" && (item.One? ==> item.c == text[0]) && Here(p, text[1..])
  {
    if Here(Cons(item, p), text) {
      var k := HereUncons(item, p, text);
    }
    if text != "" && (item.One? ==> item.c == text[0]) && Here(p, text[1..]) {
      assert text[..1] == [text[0]];
      HereCons(item, p, text, 1);
    }
  }

  ghost predicate StarTo(c: char, p: Pattern, text: string, k: nat) {
    k <= |text| && AllOk(c, text[..k]) && Here(p, text[k..])
  }

  /** Some characters that c stands for and then the rest. */
  lemma HereMany(c: char, p: Pattern, text: string)
    ensures Here(Cons(Many(c), p), text) <==> exists k :: StarTo(c, p, text, k)
  {
    if Here(Cons(Many(c), p), text) {
      var k := HereUncons(Many(c), p, text);
      assert StarTo(c, p, text, k);
    }
    if k: nat :| StarTo(c, p, text, k) {
      HereCons(Many(c), p, text, k);
    }
  }

  lemma HereNothing(text: string)
    ensures Here(Pattern([], false), text)
    ensures Here(Pattern([], true), text) <==> text == ""
  {
    assert text[..0] == "";
    assert MatchTo(Pattern([], false), text, 0);
    if text == "" {
      assert MatchTo(Pattern([], true), text, 0);
    }
  }

  // ----- the matcher

  /** Whether the text begins with a match of re. */
  method Matchhere(re: string, text: string) returns (r: bool)
    ensures r <==> Here(Parse(re), text)
    decreases |re|, 0
  {
    if re == "" {
      HereNothing(text);
      return true;
    }
    if |re| > 1 && re[1] == '*' {
      assert Parse(re) == Cons(Many(re[0]), Parse(re[2..]));
      HereMany(re[0], Parse(re[2..]), text);
      r := Matchstar(re[0], re[2..], text);
      return;
    }
    if re[0] == '$' && |re| == 1 {
      assert re == "$";
      HereNothing(text);
      return text == "";
    }
    HereOne(if re[0] == '.' then Any else One(re[0]), Parse(re[1..]), text);
    if text != "" && (re[0] == '.' || re[0] == text[0]) {
      r := Matchhere(re[1..], text[1..]);
      return;
    }
    return false;
  }

  /** Whether the text begins with characters that c stands for and then a match of re. */
  method Matchstar(c: char, re: string, text: string) returns (r: bool)
    ensures r <==> exists k :: StarTo(c, Parse(re), text, k)
    decreases |re|, 1
  {
    var i := 0;
    while true
      invariant i <= |text| && AllOk(c, text[..i])
      invariant forall k: nat :: k < i ==> !StarTo(c, Parse(re), text, k)
      decreases |text| - i
    {
      r := Matchhere(re, text[i..]);
      if r {
        assert StarTo(c, Parse(re), text, i);
        return;
      }
      if i == |text| || !(text[i] == c || c == '.') {
        break;
      }
      i := i + 1;
    }
    forall k: nat ensures !StarTo(c, Parse(re), text, k) {
      if i < k <= |text| {
        assert text[..k][i] == text[i];
      }
    }
  }

  /** Whether the text contains a match of re. */
  method Match(re: string, text: string) returns (r: bool)
    ensures r <==> Accepts(re, text)
  {
    if re != "" && re[0] == '^' {
      r := Matchhere(re[1..], text);
      return;
    }
    var i := 0;
    while true
      invariant i <= |text| && forall k :: 0 <= k < i ==> !Here(Parse(re), text[k..])
      decreases |text| - i
    {
      r := Matchhere(re, text[i..]);
      if r || i == |text| {
        return;
      }
      i := i + 1;
    }
  }
}
