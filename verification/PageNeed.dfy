/** How many frames it takes to map pages: the page tables on the way that are not there. */
module PageNeed {
  import opened PageModel
  import opened PageProofs
  import opened PageChange

  /** An entry for a table below the root: level, and page number without its low digits. */
  datatype Node = Node(lv: nat, k: nat)

  predicate NodeOk(t: Node) {
    1 <= t.lv <= 2 && Dom(t.lv, t.k)
  }

  /** The entries that a walk to page vpn passes before it comes to the table of this level. */
  function Down(vpn: nat, level: nat): set<Node>
    decreases 2 - level, vpn
  {
    if level >= 2 then {} else Down(vpn, level + 1) + {Node(level + 1, Idx(vpn, level + 1))}
  }

  /** All entries on the way to a page. */
  function Path(vpn: nat): set<Node> {
    Down(vpn, 0)
  }

  /** The same for the n pages from vpn on. */
  function Paths(vpn: nat, n: nat): set<Node> {
    if n == 0 then {} else Paths(vpn, n - 1) + Path(vpn + n - 1)
  }

  /** A page has its own way through the tables. */
  lemma PathIs(vpn: nat)
    ensures Path(vpn) == {Node(1, vpn / 512), Node(2, vpn / 512 / 512)}
    ensures vpn < MAXVPN ==> forall t :: t in Path(vpn) ==> NodeOk(t)
  {
    assert Idx(vpn, 2) == Idx(vpn, 1) / 512 && Idx(vpn, 1) == vpn / 512;
    assert Down(vpn, 1) == {Node(2, Idx(vpn, 2))};
  }

  lemma {:induction false} PathsAre(vpn: nat, n: nat, t: Node)
    ensures t in Paths(vpn, n) <==> exists v :: vpn <= v < vpn + n && t in Path(v)
  {
    if n > 0 {
      PathsAre(vpn, n - 1, t);
      assert t in Path(vpn + n - 1) ==> vpn <= vpn + n - 1 < vpn + n;
    }
  }

  /** Of these entries, the ones without a table. */
  function Missing(mem: seq<Page>, pt: nat, T: set<Node>): set<Node> {
    set t | t in T && !V(Ent(mem, pt, t.lv, t.k))
  }

  predicate HasTable(mem: seq<Page>, pt: nat, t: Node) {
    V(Ent(mem, pt, t.lv, t.k))
  }

  /** From mem to mem' the tables of pt gained those of T, and no others. */
  ghost predicate Tabled(mem: seq<Page>, mem': seq<Page>, pt: nat, T: set<Node>) {
    forall t {:trigger HasTable(mem', pt, t)} :: NodeOk(t) ==>
      (HasTable(mem', pt, t) <==> HasTable(mem, pt, t) || t in T)
  }

  /** n frames went from the free list, and one for each table of T that was not there. */
  ghost predicate Spent(free: seq<nat>, mem: seq<Page>, free': seq<nat>, mem': seq<Page>, pt: nat, T: set<Node>,
                        n: nat) {
    && (forall t :: t in T ==> NodeOk(t)) && Tabled(mem, mem', pt, T)
    && |free'| + n + |Missing(mem, pt, T)| == |free|
  }

  lemma SpentNothing(free: seq<nat>, mem: seq<Page>, pt: nat)
    ensures Spent(free, mem, free, mem, pt, {}, 0)
  {
    assert Missing(mem, pt, {}) == {};
  }

  /** Frames that do not become tables. */
  lemma SpentFrames(free: seq<nat>, mem: seq<Page>, free': seq<nat>, mem': seq<Page>, owner: map<nat, Use>, pt: nat,
                    n: nat)
    requires IsRoot(owner, pt) && SameEnts(mem, mem', owner) && |free'| + n == |free|
    ensures Spent(free, mem, free', mem', pt, {}, n)
  {
    assert Missing(mem, pt, {}) == {};
    forall t | NodeOk(t) ensures HasTable(mem', pt, t) <==> HasTable(mem, pt, t) {
      assert Ent(mem', pt, t.lv, t.k) == Ent(mem, pt, t.lv, t.k);
    }
  }

  lemma MissingMore(mem: seq<Page>, mem1: seq<Page>, pt: nat, T: set<Node>, U: set<Node>)
    requires Tabled(mem, mem1, pt, T) && forall t :: t in U ==> NodeOk(t)
    ensures |Missing(mem, pt, T + U)| == |Missing(mem, pt, T)| + |Missing(mem1, pt, U)|
  {
    var a, b := Missing(mem, pt, T), Missing(mem1, pt, U);
    forall t ensures t in Missing(mem, pt, T + U) <==> t in a + b {
      assert NodeOk(t) ==> (HasTable(mem1, pt, t) <==> HasTable(mem, pt, t) || t in T);
    }
    forall t | t in a ensures t !in b {
      assert NodeOk(t) ==> HasTable(mem1, pt, t);
    }
    assert Missing(mem, pt, T + U) == a + b && a !! b;
  }

  lemma SpentMore(free: seq<nat>, mem: seq<Page>, free1: seq<nat>, mem1: seq<Page>, free2: seq<nat>, mem2: seq<Page>,
                  pt: nat, T: set<Node>, n: nat, U: set<Node>, m: nat)
    requires Spent(free, mem, free1, mem1, pt, T, n) && Spent(free1, mem1, free2, mem2, pt, U, m)
    ensures Spent(free, mem, free2, mem2, pt, T + U, n + m)
  {
    MissingMore(mem, mem1, pt, T, U);
    forall t | NodeOk(t) ensures HasTable(mem2, pt, t) <==> HasTable(mem, pt, t) || t in T + U {
      assert HasTable(mem1, pt, t) <==> HasTable(mem, pt, t) || t in T;
    }
  }

  /** More pages take no fewer tables. */
  lemma MissingLess(mem: seq<Page>, pt: nat, T: set<Node>, U: set<Node>)
    requires T <= U
    ensures |Missing(mem, pt, T)| <= |Missing(mem, pt, U)|
  {
    assert Missing(mem, pt, U) == Missing(mem, pt, T) + (Missing(mem, pt, U) - Missing(mem, pt, T));
  }

  /** A page needs two tables below the root, at most. */
  lemma PathBound(mem: seq<Page>, pt: nat, vpn: nat)
    ensures |Missing(mem, pt, Path(vpn))| <= 2
  {
    PathIs(vpn);
    var m := Missing(mem, pt, Path(vpn));
    assert Path(vpn) == m + (Path(vpn) - m);
  }

  lemma SpentLeaf(free: seq<nat>, mem: seq<Page>, free': seq<nat>, mem1: seq<Page>, mem2: seq<Page>, pt: nat,
                  T: set<Node>, n: nat)
    requires Spent(free, mem, free', mem1, pt, T, n) && Tabled(mem1, mem2, pt, {})
    ensures Spent(free, mem, free', mem2, pt, T, n)
  {
    forall t | NodeOk(t) ensures HasTable(mem2, pt, t) <==> HasTable(mem, pt, t) || t in T {
      assert HasTable(mem1, pt, t) <==> HasTable(mem, pt, t) || t in T;
    }
  }

  lemma {:induction false} PathsLess(vpn: nat, i: nat, n: nat)
    requires i <= n
    ensures Paths(vpn, i) <= Paths(vpn, n)
    decreases n
  {
    if i < n {
      PathsLess(vpn, i, n - 1);
    }
  }

  /** Too few frames for the next page are too few for all of them. */
  lemma PathsTooFew(free: seq<nat>, mem: seq<Page>, free1: seq<nat>, mem1: seq<Page>, pt: nat, vpn: nat, i: nat, n: nat)
    requires i < n && vpn + n <= MAXVPN && Spent(free, mem, free1, mem1, pt, Paths(vpn, i), 0)
    requires |free1| < |Missing(mem1, pt, Path(vpn + i))|
    ensures |free| < |Missing(mem, pt, Paths(vpn, n))|
  {
    PathIs(vpn + i);
    MissingMore(mem, mem1, pt, Paths(vpn, i), Path(vpn + i));
    assert Paths(vpn, i + 1) == Paths(vpn, i) + Path(vpn + i);
    PathsLess(vpn, i + 1, n);
    MissingLess(mem, pt, Paths(vpn, i + 1), Paths(vpn, n));
  }

  // ----- new pages

  /** The entries on the way to page v, if it is wanted. */
  function WantNodes(v: nat, w: Want): set<Node> {
    if w.New? then Path(v) else {}
  }

  function WantCount(w: Want): nat {
    if w.New? then 1 else 0
  }

  /** The same for the wanted pages from p0 on. */
  function Nodes(p0: nat, want: seq<Want>): set<Node>
    decreases |want|
  {
    if want == [] then {}
    else var n := |want| - 1; Nodes(p0, want[..n]) + WantNodes(p0 + n, want[n])
  }

  function Count(want: seq<Want>): nat
    decreases |want|
  {
    if want == [] then 0 else var n := |want| - 1; Count(want[..n]) + WantCount(want[n])
  }

  /** The frames that the wanted pages from p0 on take: their own, and one for each table on
      the way to any of them that is not there. */
  function Needed(mem: seq<Page>, pt: nat, p0: nat, want: seq<Want>): nat {
    Count(want) + |Missing(mem, pt, Nodes(p0, want))|
  }

  lemma NodesNext(p0: nat, want: seq<Want>, w: Want)
    ensures Nodes(p0, want + [w]) == Nodes(p0, want) + WantNodes(p0 + |want|, w)
    ensures Count(want + [w]) == Count(want) + WantCount(w)
  {
    assert (want + [w])[..|want|] == want;
  }

  /** What Nodes stands for: a table is counted once, however many pages share it. */
  lemma {:induction false} NodesAre(p0: nat, want: seq<Want>, t: Node)
    ensures t in Nodes(p0, want) <==> exists i :: 0 <= i < |want| && want[i].New? && t in Path(p0 + i)
    decreases |want|
  {
    if want != [] {
      var n := |want| - 1;
      NodesAre(p0, want[..n], t);
      assert forall i :: 0 <= i < n ==> want[..n][i] == want[i];
      assert t in WantNodes(p0 + n, want[n]) ==> want[n].New? && t in Path(p0 + n);
    }
  }

  /** A beginning of the wanted pages needs no more. */
  lemma {:induction false} NodesLess(p0: nat, want: seq<Want>, i: nat)
    requires i <= |want|
    ensures Nodes(p0, want[..i]) <= Nodes(p0, want) && Count(want[..i]) <= Count(want)
    decreases |want|
  {
    if i == |want| {
      assert want[..i] == want;
    } else {
      var n := |want| - 1;
      NodesLess(p0, want[..n], i);
      assert want[..n][..i] == want[..i];
    }
  }

  lemma NeededLess(mem: seq<Page>, pt: nat, p0: nat, want: seq<Want>, i: nat)
    requires i <= |want|
    ensures Needed(mem, pt, p0, want[..i]) <= Needed(mem, pt, p0, want)
  {
    NodesLess(p0, want, i);
    MissingLess(mem, pt, Nodes(p0, want[..i]), Nodes(p0, want));
  }

  /** The wanted pages were filled, with the frames that they need. */
  ghost predicate SpentOn(free: seq<nat>, mem: seq<Page>, free': seq<nat>, mem': seq<Page>, pt: nat, p0: nat,
                          want: seq<Want>) {
    Spent(free, mem, free', mem', pt, Nodes(p0, want), Count(want))
  }

  lemma SpentOnNothing(free: seq<nat>, mem: seq<Page>, pt: nat, p0: nat)
    ensures SpentOn(free, mem, free, mem, pt, p0, [])
  {
    SpentNothing(free, mem, pt);
  }

  lemma SpentEnough(free: seq<nat>, mem: seq<Page>, free': seq<nat>, mem': seq<Page>, pt: nat, p0: nat, want: seq<Want>)
    requires SpentOn(free, mem, free', mem', pt, p0, want)
    ensures |free'| + Needed(mem, pt, p0, want) == |free|
  {
  }

  lemma SpentOnNext(free: seq<nat>, mem: seq<Page>, free1: seq<nat>, mem1: seq<Page>, free2: seq<nat>, mem2: seq<Page>,
                    pt: nat, p0: nat, want: seq<Want>, w: Want)
    requires SpentOn(free, mem, free1, mem1, pt, p0, want)
    requires Spent(free1, mem1, free2, mem2, pt, WantNodes(p0 + |want|, w), WantCount(w))
    ensures SpentOn(free, mem, free2, mem2, pt, p0, want + [w])
  {
    NodesNext(p0, want, w);
    SpentMore(free, mem, free1, mem1, free2, mem2, pt, Nodes(p0, want), Count(want), WantNodes(p0 + |want|, w),
              WantCount(w));
  }

  /** Too few frames for the next page are too few for all of them. */
  lemma NeedsMore(free: seq<nat>, mem: seq<Page>, free1: seq<nat>, mem1: seq<Page>, pt: nat, p0: nat, want: seq<Want>,
                  i: nat)
    requires i < |want| && p0 + |want| <= MAXVPN && SpentOn(free, mem, free1, mem1, pt, p0, want[..i]) && want[i].New?
    requires |free1| < 1 + |Missing(mem1, pt, Path(p0 + i))|
    ensures |free| < Needed(mem, pt, p0, want)
  {
    PathIs(p0 + i);
    assert want[..i] + [want[i]] == want[..i + 1];
    NodesNext(p0, want[..i], want[i]);
    MissingMore(mem, mem1, pt, Nodes(p0, want[..i]), Path(p0 + i));
    NeededLess(mem, pt, p0, want, i + 1);
  }

  /** At most three frames a page. */
  lemma {:induction false} NeededBound(mem: seq<Page>, pt: nat, p0: nat, want: seq<Want>)
    ensures Count(want) <= Needed(mem, pt, p0, want) <= 3 * Count(want)
    decreases |want|
  {
    if want == [] {
      assert Missing(mem, pt, {}) == {};
    } else {
      var n := |want| - 1;
      NeededBound(mem, pt, p0, want[..n]);
      var a, b := Nodes(p0, want[..n]), WantNodes(p0 + n, want[n]);
      PathBound(mem, pt, p0 + n);
      MissingSum(mem, pt, a, b);
    }
  }

  lemma MissingSum(mem: seq<Page>, pt: nat, T: set<Node>, U: set<Node>)
    ensures |Missing(mem, pt, T + U)| <= |Missing(mem, pt, T)| + |Missing(mem, pt, U)|
  {
    var a, b := Missing(mem, pt, T), Missing(mem, pt, U);
    assert Missing(mem, pt, T + U) == a + b && a + b == a + (b - a) && b == (b - a) + (a * b);
  }
}
