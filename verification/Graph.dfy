/** Directed graphs given by an edge list per node, with reachability stated through explicit paths. */
module Graph {
  import opened Strings

  /** `g[n]` lists the nodes `n` needs, in declaration order and possibly with repeats. */
  type Digraph = map<string, seq<string>>

  /** The needs of `n`; a node that is not in the map has none (Go's zero value). */
  function Needs(g: Digraph, n: string): seq<string> {
    if n in g then g[n] else []
  }

  /** Each node of `p` needs the next. */
  ghost predicate IsChain(g: Digraph, p: seq<string>) {
    forall i, j :: 0 <= i < j < |p| && j == i + 1 ==> p[j] in Needs(g, p[i])
  }

  ghost predicate IsPath(g: Digraph, p: seq<string>) {
    |p| > 0 && IsChain(g, p)
  }

  ghost predicate PathFromTo(g: Digraph, p: seq<string>, a: string, b: string) {
    IsPath(g, p) && |p| >= 2 && p[0] == a && p[|p| - 1] == b
  }

  /** `b` is reached from `a` by one or more needs edges. */
  ghost predicate Reach(g: Digraph, a: string, b: string) {
    exists p :: PathFromTo(g, p, a, b)
  }

  ghost predicate Acyclic(g: Digraph) {
    forall n :: !Reach(g, n, n)
  }

  /** Every needed node is itself declared. */
  ghost predicate Closed(g: Digraph) {
    forall n, d :: n in g && d in g[n] ==> d in g
  }

  /** Every node that occurs anywhere in the graph. */
  function Nodes(g: Digraph): set<string> {
    g.Keys + set n, d | n in g && d in g[n] :: d
  }

  lemma EdgeReaches(g: Digraph, a: string, b: string)
    requires b in Needs(g, a)
    ensures Reach(g, a, b)
  {
    assert PathFromTo(g, [a, b], a, b);
  }

  lemma ReachTransitive(g: Digraph, a: string, b: string, c: string)
    requires Reach(g, a, b) && Reach(g, b, c)
    ensures Reach(g, a, c)
  {
    var p :| PathFromTo(g, p, a, b);
    var q :| PathFromTo(g, q, b, c);
    var r := p + q[1..];
    forall i, j | 0 <= i < j < |r| && j == i + 1 ensures r[j] in Needs(g, r[i]) {
      if i >= |p| - 1 { assert r[i] == q[i - (|p| - 1)] && r[j] == q[j - (|p| - 1)]; }
    }
    assert PathFromTo(g, r, a, c);
  }

  lemma EdgeThenReach(g: Digraph, a: string, b: string, c: string)
    requires b in Needs(g, a) && (b == c || Reach(g, b, c))
    ensures Reach(g, a, c)
  {
    EdgeReaches(g, a, b);
    if b != c { ReachTransitive(g, a, b, c); }
  }

  /** A reached node is either a direct need or reached from one. */
  lemma ReachUnfold(g: Digraph, a: string, c: string) returns (b: string)
    requires Reach(g, a, c)
    ensures b in Needs(g, a) && (b == c || Reach(g, b, c))
  {
    var p :| PathFromTo(g, p, a, c);
    b := p[1];
    if |p| > 2 { assert PathFromTo(g, p[1..], b, c); }
  }

  ghost predicate ClosedUnderNeeds(g: Digraph, s: set<string>) {
    forall n, d :: n in s && d in Needs(g, n) ==> d in s
  }

  lemma {:induction false} PathStaysIn(g: Digraph, p: seq<string>, s: set<string>)
    requires IsPath(g, p) && |p| >= 2
    requires ClosedUnderNeeds(g, s) && forall d :: d in Needs(g, p[0]) ==> d in s
    ensures p[|p| - 1] in s
    decreases |p|
  {
    if |p| > 2 { PathStaysIn(g, p[1..], s); }
  }

  /** A set that holds a node's needs and is closed under needs holds everything the node reaches. */
  lemma ReachStaysIn(g: Digraph, a: string, b: string, s: set<string>)
    requires Reach(g, a, b)
    requires ClosedUnderNeeds(g, s) && forall d :: d in Needs(g, a) ==> d in s
    ensures b in s
  {
    var p :| PathFromTo(g, p, a, b);
    PathStaysIn(g, p, s);
  }

  /** Each node of `order` comes after all its needs. */
  ghost predicate NeedsFirst(g: Digraph, order: seq<string>) {
    forall i, d :: 0 <= i < |order| && d in Needs(g, order[i]) ==> d in order[..i]
  }

  /** Everything a node of an ordered list reaches comes strictly earlier. */
  lemma ReachIsEarlier(g: Digraph, order: seq<string>, i: nat, b: string)
    requires NeedsFirst(g, order) && i < |order| && Reach(g, order[i], b)
    ensures b in order[..i]
  {
    ReachStaysIn(g, order[i], b, Elems(order[..i]));
  }

  /** An order that covers every declared node and respects needs rules out cycles. */
  lemma OrderImpliesAcyclic(g: Digraph, order: seq<string>)
    requires NeedsFirst(g, order) && forall n :: n in g ==> n in order
    ensures Acyclic(g)
  {
    forall n ensures !Reach(g, n, n) {
      if Reach(g, n, n) {
        var d := ReachUnfold(g, n, n);
        var i := FirstIndex(order, n);
        ReachIsEarlier(g, order, i, n);
        assert false;
      }
    }
  }

  lemma {:induction false} FirstIndex(s: seq<string>, x: string) returns (i: nat)
    requires x in s
    ensures i < |s| && s[i] == x && x !in s[..i]
  {
    i := 0;
    while s[i] != x
      invariant i < |s| && x !in s[..i]
      decreases |s| - i
    {
      assert s[..i + 1] == s[..i] + [s[i]];
      i := i + 1;
      assert i < |s|;
    }
  }

  lemma NodesClosed(g: Digraph)
    ensures ClosedUnderNeeds(g, Nodes(g))
  {}

  /** Two graphs with the same needs inside a set closed under them. */
  ghost predicate AgreeOn(g: Digraph, h: Digraph, s: set<string>) {
    forall n :: n in s ==> Needs(g, n) == Needs(h, n) && forall d :: d in Needs(g, n) ==> d in s
  }

  lemma {:induction false} PathWithin(g: Digraph, h: Digraph, s: set<string>, p: seq<string>, i: nat)
    requires AgreeOn(g, h, s) && IsPath(g, p) && p[0] in s && i < |p|
    ensures p[i] in s
  {
    if i > 0 {
      PathWithin(g, h, s, p, i - 1);
      assert p[i] in Needs(g, p[i - 1]);
    }
  }

  /** From inside such a set both graphs reach the same nodes. */
  lemma SharedReach(g: Digraph, h: Digraph, s: set<string>, a: string, b: string)
    requires AgreeOn(g, h, s) && a in s
    ensures Reach(g, a, b) <==> Reach(h, a, b)
  {
    assert AgreeOn(h, g, s);
    if p :| PathFromTo(g, p, a, b) {
      forall i | 0 <= i < |p| ensures p[i] in s { PathWithin(g, h, s, p, i); }
      assert PathFromTo(h, p, a, b);
    }
    if p :| PathFromTo(h, p, a, b) {
      forall i | 0 <= i < |p| ensures p[i] in s { PathWithin(h, g, s, p, i); }
      assert PathFromTo(g, p, a, b);
    }
  }
}
