/**
 * Undirected graphs without cycles: the shape of the TCP sessions under which forwarding ends.
 * A graph maps every node to the list of its neighbours.
 */
module Forests {
  import opened Basics

  type Graph = map<string, seq<string>>

  ghost predicate Distinct(p: seq<string>) {
    forall i, j :: 0 <= i < j < |p| ==> p[i] != p[j]
  }

  /** One session per pair of distinct nodes, known at both ends. */
  ghost predicate Simple(g: Graph) {
    forall v :: v in g ==> Distinct(g[v]) && forall w :: w in g[v] ==> w in g && w != v && v in g[w]
  }

  ghost predicate Walk(g: Graph, p: seq<string>) {
    && p != []
    && (forall i :: 0 <= i < |p| ==> p[i] in g)
    && (forall i :: 0 <= i < |p| - 1 ==> p[i + 1] in g[p[i]])
  }

  /** A walk that never turns back at once; forwarding with `skip` follows exactly these. */
  ghost predicate Straight(g: Graph, p: seq<string>) {
    Walk(g, p) && forall i :: 0 <= i < |p| - 2 ==> p[i] != p[i + 2]
  }

  ghost predicate Cycle(g: Graph, p: seq<string>) {
    3 <= |p| && Distinct(p) && Walk(g, p) && p[0] in g[p[|p| - 1]]
  }

  ghost predicate Forest(g: Graph) {
    Simple(g) && forall p :: !Cycle(g, p)
  }

  lemma {:induction false} StraightIsDistinct(g: Graph, p: seq<string>)
    requires Forest(g) && Straight(g, p)
    ensures Distinct(p)
    decreases |p|
  {
    var n := |p|;
    if n > 1 {
      var front, back := p[..n - 1], p[1..];
      StraightIsDistinct(g, front);
      StraightIsDistinct(g, back);
      assert p[n - 2 + 1] in g[p[n - 2]] && p[0 + 1] in g[p[0]];
      assert n > 3 && p[0] == p[n - 1] ==> Cycle(g, front);
      assert n == 3 ==> p[0] != p[0 + 2];
      forall i, j | 0 <= i < j < n
        ensures p[i] != p[j]
      {
        if j < n - 1 {
          assert front[i] != front[j];
        } else if 0 < i {
          assert back[i - 1] != back[j - 1];
        }
      }
    }
  }

  lemma {:induction false} DistinctIsShort(p: seq<string>, s: set<string>)
    requires Distinct(p) && forall i :: 0 <= i < |p| ==> p[i] in s
    ensures |p| <= |s|
    decreases |p|
  {
    if p != [] {
      var last := p[|p| - 1];
      DistinctIsShort(p[..|p| - 1], s - {last});
    }
  }

  lemma StraightIsShort(g: Graph, p: seq<string>)
    requires Forest(g) && Straight(g, p)
    ensures |p| <= |g|
  {
    StraightIsDistinct(g, p);
    DistinctIsShort(p, g.Keys);
  }

  // Directions: which way a frame of origin `o` travels.

  ghost predicate Leads(g: Graph, p: seq<string>, o: string, u: string, v: string) {
    2 <= |p| && Straight(g, p) && p[0] == o && p[|p| - 2] == u && p[|p| - 1] == v
  }

  /** The edge from u to v is the last of a straight walk from o: it points away from o. */
  ghost predicate Away(g: Graph, o: string, u: string, v: string) {
    exists p :: Leads(g, p, o, u, v)
  }

  lemma AwayFromStart(g: Graph, o: string, v: string)
    requires Simple(g) && o in g && v in g[o]
    ensures Away(g, o, o, v)
  {
    assert Leads(g, [o, v], o, o, v);
  }

  lemma StraightGoesOn(g: Graph, p: seq<string>)
    requires Simple(g) && Straight(g, p) && 2 <= |p|
    ensures forall w :: w in g[p[|p| - 1]] && w != p[|p| - 2] ==> Straight(g, p + [w])
  {
    forall w | w in g[p[|p| - 1]] && w != p[|p| - 2]
      ensures Straight(g, p + [w])
    {
    }
  }

  lemma AwayGoesOn(g: Graph, o: string, u: string, v: string, w: string)
    requires Simple(g) && Away(g, o, u, v) && w in g[v] && w != u
    ensures Away(g, o, v, w)
  {
    var p :| Leads(g, p, o, u, v);
    assert Leads(g, p + [w], o, v, w);
  }

  lemma AwayLeavesOrigin(g: Graph, o: string, u: string, v: string)
    requires Forest(g) && Away(g, o, u, v)
    ensures u in g && v in g && v in g[u] && v != o
  {
    var p :| Leads(g, p, o, u, v);
    StraightIsDistinct(g, p);
    assert p[|p| - 2 + 1] in g[p[|p| - 2]];
  }

  function Reverse(p: seq<string>): (r: seq<string>)
    ensures |r| == |p| && forall i :: 0 <= i < |p| ==> r[i] == p[|p| - 1 - i]
  {
    seq(|p|, i requires 0 <= i < |p| => p[|p| - 1 - i])
  }

  lemma StraightBackwards(g: Graph, p: seq<string>)
    requires Simple(g) && Straight(g, p)
    ensures Straight(g, Reverse(p))
  {
    var r := Reverse(p);
    forall i | 0 <= i < |r| - 1
      ensures r[i + 1] in g[r[i]]
    {
      var j := |p| - 2 - i;
      assert p[j + 1] in g[p[j]];
    }
    forall i | 0 <= i < |r| - 2
      ensures r[i] != r[i + 2]
    {
      var j := |p| - 3 - i;
      assert p[j] != p[j + 2];
    }
  }

  /** There and back by another way. */
  ghost function Round(p: seq<string>, q: seq<string>): seq<string>
    requires p != []
  {
    p[..|p| - 1] + Reverse(q)
  }

  lemma RoundIsStraight(g: Graph, p: seq<string>, q: seq<string>)
    requires Simple(g) && Straight(g, p) && Straight(g, q) && 2 <= |p| && 2 <= |q|
    requires p[|p| - 1] == q[|q| - 1] && p[|p| - 2] != q[|q| - 2]
    ensures Straight(g, Round(p, q))
  {
    StraightBackwards(g, q);
    var r, n := Reverse(q), |p| - 1;
    var c := Round(p, q);
    forall i | 0 <= i < |c| - 1
      ensures c[i + 1] in g[c[i]]
    {
      assert i < n ==> p[i + 1] in g[p[i]];
      assert i >= n ==> r[i - n + 1] in g[r[i - n]];
    }
    forall i | 0 <= i < |c| - 2
      ensures c[i] != c[i + 2]
    {
      assert i < n - 1 ==> p[i] != p[i + 2];
      assert i >= n ==> r[i - n] != r[i - n + 2];
    }
  }

  /** A node is entered from one side only. */
  lemma AwayFromOneSide(g: Graph, o: string, u: string, u': string, v: string)
    requires Forest(g) && Away(g, o, u, v) && Away(g, o, u', v)
    ensures u == u'
  {
    var p :| Leads(g, p, o, u, v);
    var q :| Leads(g, q, o, u', v);
    if u != u' {
      var c := Round(p, q);
      assert c[0] == c[|c| - 1];
      RoundIsStraight(g, p, q);
      StraightIsDistinct(g, c);
      assert false;
    }
  }

  /** Every node that a walk from o reaches is o or lies at the end of an edge away from o. */
  ghost predicate Connected(g: Graph, o: string, v: string) {
    exists p :: Walk(g, p) && p[0] == o && p[|p| - 1] == v
  }

  lemma {:induction false} Straighten(g: Graph, p: seq<string>) returns (q: seq<string>)
    requires Simple(g) && Walk(g, p)
    ensures Straight(g, q) && q[0] == p[0] && q[|q| - 1] == p[|p| - 1]
    decreases |p|
  {
    var n := |p|;
    if n == 1 {
      return p;
    }
    var r := Straighten(g, p[..n - 1]);
    assert p[n - 2 + 1] in g[p[n - 2]];
    if 2 <= |r| && r[|r| - 2] == p[n - 1] {
      q := r[..|r| - 1];
    } else {
      q := r + [p[n - 1]];
    }
  }

  // Sizes: how many nodes lie beyond an edge.

  /** The nodes beyond the edge from u to v, v included, counted `depth` levels deep. */
  ghost function Branch(g: Graph, depth: nat, u: string, v: string): nat
    requires Simple(g) && v in g
    decreases depth, 0
  {
    if depth == 0 then 0 else 1 + Branches(g, depth - 1, v, Some(u), g[v])
  }

  ghost function Branches(g: Graph, depth: nat, v: string, skip: Option<string>, ws: seq<string>): nat
    requires Simple(g) && forall w :: w in ws ==> w in g
    decreases depth, |ws| + 1
  {
    if ws == [] then 0 else
    (if skip == Some(ws[0]) then 0 else Branch(g, depth, v, ws[0])) + Branches(g, depth, v, skip, ws[1..])
  }

  lemma {:induction false} BranchesSettle(g: Graph, depth: nat, p: seq<string>, skip: Option<string>, ws: seq<string>)
    requires Forest(g) && p != [] && |g| < |p| + 1 + depth
    requires forall w :: w in ws ==> w in g && (skip != Some(w) ==> Straight(g, p + [w]))
    ensures Branches(g, depth, p[|p| - 1], skip, ws) == Branches(g, depth + 1, p[|p| - 1], skip, ws)
    decreases depth, |ws| + 1
  {
    if ws != [] {
      if skip != Some(ws[0]) {
        BranchSettles(g, depth, p + [ws[0]]);
      }
      BranchesSettle(g, depth, p, skip, ws[1..]);
    }
  }

  /** In a forest, looking deeper than there are nodes finds nothing more. */
  lemma {:induction false} BranchSettles(g: Graph, depth: nat, p: seq<string>)
    requires Forest(g) && Straight(g, p) && 2 <= |p| && |g| < |p| + depth
    ensures Branch(g, depth, p[|p| - 2], p[|p| - 1]) == Branch(g, depth + 1, p[|p| - 2], p[|p| - 1])
    decreases depth, 0
  {
    StraightIsShort(g, p);
    var u, v := p[|p| - 2], p[|p| - 1];
    StraightGoesOn(g, p);
    BranchesSettle(g, depth - 1, p, Some(u), g[v]);
  }

  /** How many nodes a frame sent from u to v still has to visit. */
  ghost function Beyond(g: Graph, u: string, v: string): nat
    requires Simple(g) && v in g
  {
    Branch(g, |g|, u, v)
  }

  /** A frame's share is one more than the shares of the frames it is forwarded as. */
  lemma BeyondSplits(g: Graph, u: string, v: string)
    requires Forest(g) && u in g && v in g[u]
    ensures Beyond(g, u, v) == 1 + Branches(g, |g|, v, Some(u), g[v])
  {
    assert Straight(g, [u, v]);
    BranchSettles(g, |g|, [u, v]);
  }

  /** No node is counted twice: beyond an edge lie fewer nodes than there are. */
  ghost predicate Extends(g: Graph, p: seq<string>, q: seq<string>, x: string) {
    Straight(g, q) && p <= q && q[|q| - 1] == x
  }

  ghost predicate Behind(g: Graph, p: seq<string>, x: string) {
    p != [] && exists q :: Extends(g, p, q, x)
  }

  lemma {:induction false} OneWay(g: Graph, p: seq<string>, q: seq<string>)
    requires Forest(g) && Straight(g, p) && Straight(g, q)
    requires p[0] == q[0] && p[|p| - 1] == q[|q| - 1]
    ensures p == q
    decreases |p|
  {
    StraightIsDistinct(g, p);
    StraightIsDistinct(g, q);
    if |p| >= 2 && |q| >= 2 {
      var o, v := p[0], p[|p| - 1];
      assert Leads(g, p, o, p[|p| - 2], v) && Leads(g, q, o, q[|q| - 2], v);
      AwayFromOneSide(g, o, p[|p| - 2], q[|q| - 2], v);
      OneWay(g, p[..|p| - 1], q[..|q| - 1]);
      assert p == p[..|p| - 1] + [v] && q == q[..|q| - 1] + [v];
    }
  }

  /** An edge away from o does not lead back towards it. */
  lemma AwayIsOneWay(g: Graph, o: string, u: string, v: string)
    requires Forest(g) && Away(g, o, u, v)
    ensures !Away(g, o, v, u)
  {
    if Away(g, o, v, u) {
      var p :| Leads(g, p, o, u, v);
      var q :| Leads(g, q, o, v, u);
      var k := |q| - 3;
      assert 0 <= k ==> q[k] != q[k + 2];
      OneWay(g, p, q[..|q| - 1]);
    }
  }

  lemma BehindOneSide(g: Graph, p: seq<string>, w: string, w': string, x: string)
    requires Forest(g) && p != [] && Behind(g, p + [w], x) && Behind(g, p + [w'], x)
    ensures w == w'
  {
    var q :| Extends(g, p + [w], q, x);
    var q' :| Extends(g, p + [w'], q', x);
    assert q[|p|] == (p + [w])[|p|] && q'[|p|] == (p + [w'])[|p|];
    assert q[0] == (p + [w])[0] && q'[0] == (p + [w'])[0];
    OneWay(g, q, q');
  }

  lemma BehindIsNew(g: Graph, p: seq<string>, w: string, x: string)
    requires Forest(g) && p != [] && Behind(g, p + [w], x)
    ensures Behind(g, p, x) && x !in p
  {
    hide Cycle;
    var q :| Extends(g, p + [w], q, x);
    assert p <= p + [w] <= q;
    assert Extends(g, p, q, x);
    StraightIsDistinct(g, q);
  }

  ghost predicate BehindSome(g: Graph, p: seq<string>, skip: Option<string>, ws: seq<string>, x: string) {
    exists w :: w in ws && skip != Some(w) && Behind(g, p + [w], x)
  }

  lemma BehindOneOf(g: Graph, p: seq<string>, skip: Option<string>, ws: seq<string>, x: string)
    requires Forest(g) && p != [] && Distinct(ws) && ws != []
    requires BehindSome(g, p, skip, ws[1..], x)
    ensures BehindSome(g, p, skip, ws, x) && !Behind(g, p + [ws[0]], x)
  {
    var w :| w in ws[1..] && skip != Some(w) && Behind(g, p + [w], x);
    if Behind(g, p + [ws[0]], x) {
      BehindOneSide(g, p, ws[0], w, x);
    }
  }

  lemma BranchesOfFirst(g: Graph, depth: nat, v: string, skip: Option<string>, ws: seq<string>)
    requires Simple(g) && ws != [] && forall w :: w in ws ==> w in g
    ensures Branches(g, depth, v, skip, ws)
         == (if skip == Some(ws[0]) then 0 else Branch(g, depth, v, ws[0])) + Branches(g, depth, v, skip, ws[1..])
  {
  }

  ghost predicate AllBehind(g: Graph, q: seq<string>, nodes: set<string>) {
    forall x :: x in nodes ==> Behind(g, q, x)
  }

  ghost predicate AllBehindSome(
    g: Graph, p: seq<string>, skip: Option<string>, ws: seq<string>, nodes: set<string>)
  {
    forall x :: x in nodes ==> BehindSome(g, p, skip, ws, x)
  }

  /** The nodes that lie behind q and one more step are new, and behind q; with its own end there is one more. */
  lemma BelowIsBehind(
    g: Graph, q: seq<string>, skip: Option<string>, ws: seq<string>, below: set<string>) returns (nodes: set<string>)
    requires Forest(g) && q != [] && Straight(g, q) && AllBehindSome(g, q, skip, ws, below)
    ensures |nodes| == 1 + |below| && AllBehind(g, q, nodes)
  {
    var v := q[|q| - 1];
    assert Extends(g, q, q, v);
    assert Behind(g, q, v);
    hide Behind, Forest, Straight;
    forall x | x in below
      ensures x != v && Behind(g, q, x)
    {
      var w :| w in ws && skip != Some(w) && Behind(g, q + [w], x);
      BehindIsNew(g, q, w, x);
    }
    nodes := Union({v}, below);
  }

  lemma ReadyToBranch(g: Graph, q: seq<string>)
    requires Forest(g) && 2 <= |q| && q[|q| - 1] in g && Straight(g, q)
    ensures Simple(g) && Distinct(g[q[|q| - 1]])
    ensures forall w :: w in g[q[|q| - 1]] ==> w in g && (Some(q[|q| - 2]) != Some(w) ==> Straight(g, q + [w]))
  {
    StraightGoesOn(g, q);
  }

  lemma {:induction false} BranchNodes(g: Graph, depth: nat, q: seq<string>) returns (nodes: set<string>)
    requires Forest(g) && 2 <= |q| && q[|q| - 1] in g && Straight(g, q)
    ensures |nodes| == Branch(g, depth, q[|q| - 2], q[|q| - 1]) && AllBehind(g, q, nodes)
    decreases depth, 0
  {
    hide Branches, Straight, Distinct, Cycle, AllBehindSome, AllBehind;
    if depth == 0 {
      nodes := {};
      NoneBehind(g, q);
    } else {
      var u, v := q[|q| - 2], q[|q| - 1];
      ReadyToBranch(g, q);
      hide Forest, Simple;
      var below := BranchesNodes(g, depth - 1, q, Some(u), g[v]);
      nodes := BelowIsBehind(g, q, Some(u), g[v], below);
    }
  }

  lemma NoneBehind(g: Graph, q: seq<string>)
    ensures AllBehind(g, q, {})
  {
  }

  /** What lies behind the first way and behind the others has nothing in common. */
  lemma WaysAreApart(
    g: Graph, p: seq<string>, skip: Option<string>, ws: seq<string>, first: set<string>, rest: set<string>)
    requires Forest(g) && p != [] && ws != [] && Distinct(ws) && AllBehindSome(g, p, skip, ws[1..], rest)
    ensures AllBehindSome(g, p, skip, ws, rest)
    ensures skip != Some(ws[0]) && AllBehind(g, p + [ws[0]], first) ==>
              first !! rest && AllBehindSome(g, p, skip, ws, first)
  {
    hide Forest, Straight, Behind;
    assert ws[0] in ws;
    forall x | x in rest
      ensures BehindSome(g, p, skip, ws, x) && !Behind(g, p + [ws[0]], x)
    {
      BehindOneOf(g, p, skip, ws, x);
    }
  }

  lemma {:induction false} BranchesNodes(
    g: Graph, depth: nat, p: seq<string>, skip: Option<string>, ws: seq<string>) returns (nodes: set<string>)
    requires Forest(g) && p != [] && Distinct(ws)
    requires forall w :: w in ws ==> w in g && (skip != Some(w) ==> Straight(g, p + [w]))
    ensures |nodes| == Branches(g, depth, p[|p| - 1], skip, ws) && AllBehindSome(g, p, skip, ws, nodes)
    decreases depth, |ws| + 1
  {
    if ws == [] {
      return {};
    }
    var way := p + [ws[0]];
    assert way[|way| - 2] == p[|p| - 1] && way[|way| - 1] == ws[0];
    assert Distinct(ws[1..]) && ws[0] in ws && forall w :: w in ws[1..] ==> w in ws;
    BranchesOfFirst(g, depth, p[|p| - 1], skip, ws);
    hide Branch, Branches, Straight, Forest, Distinct, AllBehind, AllBehindSome;
    var rest := BranchesNodes(g, depth, p, skip, ws[1..]);
    if skip == Some(ws[0]) {
      WaysAreApart(g, p, skip, ws, {}, rest);
      return rest;
    }
    var first := BranchNodes(g, depth, way);
    WaysAreApart(g, p, skip, ws, first, rest);
    BothAreBehind(g, p, skip, ws, first, rest);
    nodes := Union(first, rest);
  }

  lemma BothAreBehind(
    g: Graph, p: seq<string>, skip: Option<string>, ws: seq<string>, a: set<string>, b: set<string>)
    requires AllBehindSome(g, p, skip, ws, a) && AllBehindSome(g, p, skip, ws, b)
    ensures AllBehindSome(g, p, skip, ws, a + b)
  {
  }

  function Union(a: set<string>, b: set<string>): (c: set<string>)
    requires a !! b
    ensures |c| == |a| + |b| && forall x :: x in c ==> x in a || x in b
  {
    a + b
  }

  lemma BeyondIsBounded(g: Graph, u: string, v: string)
    requires Forest(g) && u in g && v in g[u]
    ensures Beyond(g, u, v) < |g|
  {
    assert [u] + [v] == [u, v] && Straight(g, [u, v]);
    var nodes := BranchNodes(g, |g|, [u, v]);
    forall x | x in nodes
      ensures x in g.Keys - {u}
    {
      BehindIsNew(g, [u], v, x);
      var q :| Extends(g, [u] + [v], q, x);
    }
    SubsetIsSmaller(nodes, g.Keys - {u});
  }

  lemma BranchesAreBounded(g: Graph, v: string)
    requires Forest(g) && v in g
    ensures Branches(g, |g|, v, None, g[v]) < |g|
  {
    forall w | w in g[v]
      ensures Straight(g, [v] + [w])
    {
    }
    var nodes := BranchesNodes(g, |g|, [v], None, g[v]);
    forall x | x in nodes
      ensures x in g.Keys - {v}
    {
      var w :| w in g[v] && Behind(g, [v] + [w], x);
      BehindIsNew(g, [v], w, x);
      var q :| Extends(g, [v] + [w], q, x);
    }
    SubsetIsSmaller(nodes, g.Keys - {v});
  }

  lemma {:induction false} SubsetIsSmaller(a: set<string>, b: set<string>)
    requires a <= b
    ensures |a| <= |b|
  {
    assert b == a + (b - a);
  }
}
