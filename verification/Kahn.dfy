/** Kahn's algorithm with a sorted ready list, and what its result is among all possible orders. */
module Kahn {
  import opened Wrappers
  import opened Graph
  import opened Strings
  import opened Pipeline

  /* ---------- orders ---------- */

  /** A list of all declared nodes, each once and after all its needs. */
  ghost predicate ValidOrder(g: Digraph, order: seq<string>) {
    NoDuplicates(order) && (forall n :: n in order <==> n in g) && NeedsFirst(g, order)
  }

  /** `n` is not yet done but all its needs are. */
  ghost predicate Available(g: Digraph, done: seq<string>, n: string) {
    n in g && n !in done && forall d :: d in g[n] ==> d in done
  }

  /** Lexicographic order on lists of names. */
  predicate ListLess(a: seq<string>, b: seq<string>) {
    b != [] && (a == [] || Less(a[0], b[0]) || (a[0] == b[0] && ListLess(a[1..], b[1..])))
  }

  ghost predicate LeastOrder(g: Digraph, order: seq<string>) {
    ValidOrder(g, order) && forall other :: ValidOrder(g, other) && other != order ==> ListLess(order, other)
  }

  /** Every element is the smallest node available when it is taken. */
  ghost predicate Greedy(g: Digraph, order: seq<string>) {
    forall i :: 0 <= i < |order| ==> Available(g, order[..i], order[i]) && SmallestAvailable(g, order[..i], order[i])
  }

  ghost predicate SmallestAvailable(g: Digraph, done: seq<string>, n: string) {
    forall m :: Available(g, done, m) ==> !Less(m, n)
  }

  /** Where a greedy order first differs from a valid one, it holds the smaller name. */
  lemma GreedyWinsFirstDifference(g: Digraph, a: seq<string>, b: seq<string>, k: nat)
    requires Greedy(g, a) && ValidOrder(g, b) && k < |a| && k < |b|
    requires a[..k] == b[..k] && a[k] != b[k]
    ensures Less(a[k], b[k])
  {
    assert SmallestAvailable(g, a[..k], a[k]);
    LessTotal(a[k], b[k]);
  }

  lemma {:induction false} ListLessAt(a: seq<string>, b: seq<string>, k: nat)
    requires k < |a| && k < |b| && a[..k] == b[..k] && Less(a[k], b[k])
    ensures ListLess(a, b)
  {
    if k > 0 {
      assert a[0] == a[..k][0] == b[..k][0] == b[0];
      assert a[1..][..k - 1] == a[..k][1..] && b[1..][..k - 1] == b[..k][1..];
      ListLessAt(a[1..], b[1..], k - 1);
    }
  }

  lemma {:induction false} FirstDifference(a: seq<string>, b: seq<string>) returns (k: nat)
    requires |a| == |b| && a != b
    ensures k < |a| && a[..k] == b[..k] && a[k] != b[k]
  {
    k := 0;
    while a[k] == b[k]
      invariant k < |a| && a[..k] == b[..k]
      decreases |a| - k
    {
      assert a[..k + 1] == a[..k] + [a[k]] && b[..k + 1] == b[..k] + [b[k]];
      assert a == a[..k + 1] + a[k + 1..] && b == b[..k + 1] + b[k + 1..];
      k := k + 1;
    }
  }

  lemma GreedyIsLeast(g: Digraph, order: seq<string>)
    requires Greedy(g, order) && forall n :: n in g ==> n in order
    ensures LeastOrder(g, order)
  {
    forall other | ValidOrder(g, other) && other != order ensures ListLess(order, other) {
      SameLength(order, other);
      var k := FirstDifference(order, other);
      GreedyWinsFirstDifference(g, order, other, k);
      ListLessAt(order, other, k);
    }
  }

  lemma {:induction false} ListLessAsymmetric(a: seq<string>, b: seq<string>)
    requires ListLess(a, b)
    ensures !ListLess(b, a)
  {
    if a != [] {
      LessTotal(a[0], b[0]);
      if a[0] == b[0] { ListLessAsymmetric(a[1..], b[1..]); }
    }
  }

  /** The result depends on the graph alone. */
  lemma LeastOrderUnique(g: Digraph, a: seq<string>, b: seq<string>)
    requires LeastOrder(g, a) && LeastOrder(g, b)
    ensures a == b
  {
    if a != b { ListLessAsymmetric(a, b); }
  }

  lemma {:induction false} SetOfDistinct(s: seq<string>)
    requires NoDuplicates(s)
    ensures |Elems(s)| == |s|
  {
    if s != [] {
      SetOfDistinct(s[1..]);
      assert (Elems(s)) == Elems(s[1..]) + {s[0]};
    }
  }

  lemma SameLength(a: seq<string>, b: seq<string>)
    requires NoDuplicates(a) && NoDuplicates(b) && forall n :: n in a <==> n in b
    ensures |a| == |b|
  {
    SetOfDistinct(a);
    SetOfDistinct(b);
    assert (Elems(a)) == (Elems(b));
  }

  /** When nothing is available but something is left, no valid order exists. */
  lemma StuckMeansNoOrder(g: Digraph, out: seq<string>, order: seq<string>)
    requires ValidOrder(g, order) && forall m :: !Available(g, out, m)
    ensures forall n :: n in g ==> n in out
  {
    forall i | 0 <= i < |order| ensures order[i] in out {
      StuckPrefix(g, out, order, i);
    }
  }

  lemma {:induction false} StuckPrefix(g: Digraph, out: seq<string>, order: seq<string>, i: nat)
    requires ValidOrder(g, order) && (forall m :: !Available(g, out, m)) && i < |order|
    ensures order[i] in out
    decreases i
  {
    forall d | d in g[order[i]] ensures d in out {
      assert d in Needs(g, order[i]);
      var j :| 0 <= j < i && order[..i][j] == d;
      StuckPrefix(g, out, order, j);
    }
    assert !Available(g, out, order[i]);
  }

  /* ---------- counting open needs ---------- */

  /** How many entries of `needs` are not done yet, repeats counted. */
  function Pending(needs: seq<string>, done: set<string>): nat {
    if needs == [] then 0 else (if needs[0] in done then 0 else 1) + Pending(needs[1..], done)
  }

  lemma {:induction false} PendingZero(needs: seq<string>, done: set<string>)
    ensures Pending(needs, done) == 0 <==> forall d :: d in needs ==> d in done
    ensures done == {} ==> Pending(needs, done) == |needs|
  {
    if needs != [] {
      PendingZero(needs[1..], done);
      assert needs == [needs[0]] + needs[1..];
    }
  }

  lemma {:induction false} PendingAfter(needs: seq<string>, done: set<string>, n: string)
    requires n !in done
    ensures Pending(needs, done + {n}) == Pending(needs, done) - multiset(needs)[n]
  {
    if needs != [] {
      PendingAfter(needs[1..], done, n);
      assert needs == [needs[0]] + needs[1..];
      assert multiset(needs) == multiset{needs[0]} + multiset(needs[1..]);
    }
  }

  /* ---------- the algorithm ---------- */

  function Dependents(dependents: map<string, seq<string>>, d: string): seq<string> {
    if d in dependents then dependents[d] else []
  }

  /** `next` lists each node once per occurrence of `n` in its needs. */
  ghost predicate DependentsIn(g: Digraph, n: string, next: seq<string>) {
    forall m :: multiset(next)[m] == if m in g then multiset(g[m])[n] else 0
  }

  method InvertNeeds(g: Digraph, names: seq<string>) returns (dependents: map<string, seq<string>>)
    requires NoDuplicates(names) && forall n :: n in names <==> n in g
    ensures forall d :: DependentsIn(g, d, Dependents(dependents, d))
  {
    dependents := map[];
    for i := 0 to |names|
      invariant forall d, m :: multiset(Dependents(dependents, d))[m] ==
                  if m in names[..i] then multiset(g[m])[d] else 0
    {
      var n := names[i];
      assert n !in names[..i] && names[..i + 1] == names[..i] + [n];
      dependents := AddDependent(g[n], n, dependents);
    }
    assert names[..|names|] == names;
  }

  method AddDependent(needs: seq<string>, n: string, before: map<string, seq<string>>)
    returns (dependents: map<string, seq<string>>)
    ensures forall d, m :: multiset(Dependents(dependents, d))[m] ==
              multiset(Dependents(before, d))[m] + if m == n then multiset(needs)[d] else 0
  {
    dependents := before;
    for j := 0 to |needs|
      invariant forall d, m :: multiset(Dependents(dependents, d))[m] ==
                  multiset(Dependents(before, d))[m] + if m == n then multiset(needs[..j])[d] else 0
    {
      assert needs[..j + 1] == needs[..j] + [needs[j]];
      dependents := dependents[needs[j] := Dependents(dependents, needs[j]) + [n]];
    }
    assert needs[..|needs|] == needs;
  }

  /** What the main loop keeps: `out` is greedy so far, the counters are exact, `ready` is what is available. */
  ghost predicate KahnInvariant(g: Digraph, out: seq<string>, indegree: map<string, int>, ready: seq<string>) {
    && Greedy(g, out)
    && indegree.Keys == g.Keys
    && (forall m :: m in g ==> indegree[m] == Pending(g[m], Elems(out)))
    && NoDuplicates(ready)
    && (forall m :: m in ready <==> Available(g, out, m))
  }

  /** Decrement the counter of every dependent and queue those that reach zero. */
  method Release(next: seq<string>, indegree0: map<string, int>, ready0: seq<string>)
    returns (indegree: map<string, int>, ready: seq<string>)
    requires NoDuplicates(ready0) && forall m :: m in next ==> m in indegree0 && m !in ready0
    requires forall m :: m in next ==> multiset(next)[m] <= indegree0[m]
    ensures indegree.Keys == indegree0.Keys
    ensures forall m :: m in indegree ==> indegree[m] == indegree0[m] - multiset(next)[m]
    ensures NoDuplicates(ready)
    ensures forall m :: m in ready <==> m in ready0 || (m in next && indegree[m] == 0)
  {
    hide NoDuplicates;
    indegree, ready := indegree0, ready0;
    for i := 0 to |next|
      invariant indegree.Keys == indegree0.Keys
      invariant forall m :: m in indegree ==> indegree[m] == indegree0[m] - multiset(next[..i])[m]
      invariant NoDuplicates(ready)
      invariant forall m :: m in ready <==> m in ready0 || (m in next[..i] && indegree[m] == 0)
    {
      var m := next[i];
      assert m in next;
      assert next[..i + 1] == next[..i] + [m];
      CountPrefix(next, i + 1, m);
      indegree := indegree[m := indegree[m] - 1];
      if indegree[m] == 0 {
        AppendDistinct(ready, m);
        ready := ready + [m];
      }
    }
    assert next[..|next|] == next;
  }

  lemma AppendDistinct(s: seq<string>, x: string)
    requires NoDuplicates(s) && x !in s
    ensures NoDuplicates(s + [x])
  {}

  lemma ReadyIsNotNext(g: Digraph, out: seq<string>, n: string, next: seq<string>, indegree: map<string, int>,
                       ready: seq<string>)
    requires KahnInvariant(g, out, indegree, [n] + ready) && DependentsIn(g, n, next)
    ensures NoDuplicates(ready) && forall m :: m in next ==> m in indegree && m !in ready
    ensures forall m :: m in next ==> multiset(next)[m] <= indegree[m]
  {
    var all := [n] + ready;
    assert forall i :: 0 <= i < |ready| ==> all[i + 1] == ready[i];
    assert n in all;
    forall m | m in next ensures m in indegree && m !in ready && multiset(next)[m] <= indegree[m] {
      assert multiset(next)[m] > 0;
      PendingAfter(g[m], Elems(out), n);
      assert n in g[m];
      assert m in ready ==> Available(g, out, m);
    }
  }

  lemma ReleaseKeepsInvariant(g: Digraph, out: seq<string>, n: string, next: seq<string>,
                              indegree0: map<string, int>, ready0: seq<string>,
                              indegree: map<string, int>, ready: seq<string>)
    requires KahnInvariant(g, out, indegree0, [n] + ready0) && DependentsIn(g, n, next) && Greedy(g, out + [n])
    requires indegree.Keys == g.Keys && NoDuplicates(ready)
    requires forall m :: m in g ==> indegree[m] == indegree0[m] - multiset(next)[m]
    requires forall m :: m in ready <==> m in ready0 || (m in next && m in g && indegree[m] == 0)
    ensures KahnInvariant(g, out + [n], indegree, ready)
  {
    hide Pending, Greedy, NoDuplicates;
    InsideFront(n, ready0);
    assert Available(g, out, n);
    assert Elems(out + [n]) == Elems(out) + {n};
    forall m | m in g
      ensures indegree[m] == Pending(g[m], Elems(out + [n])) && (m in ready <==> Available(g, out + [n], m))
    {
      assert m in [n] + ready0 <==> Available(g, out, m);
      assert m in next <==> multiset(next)[m] > 0;
      StepCounted(g, out, n, m);
    }
  }

  lemma InsideFront(n: string, ready: seq<string>)
    requires NoDuplicates([n] + ready)
    ensures n !in ready && forall m :: m in [n] + ready <==> m == n || m in ready
  {
    var all := [n] + ready;
    assert n == all[0] && forall i :: 0 <= i < |ready| ==> all[i + 1] == ready[i];
  }

  /** How finishing `n` changes what `m` waits for. */
  lemma StepCounted(g: Digraph, out: seq<string>, n: string, m: string)
    requires m in g && Greedy(g, out) && Available(g, out, n)
    ensures (m in out || m == n) ==> multiset(g[m])[n] == 0
    ensures Pending(g[m], Elems(out) + {n}) == Pending(g[m], Elems(out)) - multiset(g[m])[n]
    ensures Available(g, out, m) <==> m !in out && Pending(g[m], Elems(out)) == 0
    ensures Available(g, out + [n], m) <==> m !in out && m != n && Pending(g[m], Elems(out) + {n}) == 0
  {
    hide Pending;
    PendingAfter(g[m], Elems(out), n);
    PendingZero(g[m], Elems(out));
    PendingZero(g[m], Elems(out) + {n});
    assert forall x :: x in out + [n] <==> x in out || x == n;
    assert n in g[m] <==> multiset(g[m])[n] > 0;
    if m in out {
      var i :| 0 <= i < |out| && out[i] == m;
      assert Available(g, out[..i], m);
    }
  }

  lemma CountPrefix(s: seq<string>, i: nat, x: string)
    requires i <= |s|
    ensures multiset(s[..i])[x] <= multiset(s)[x]
  {
    assert s == s[..i] + s[i..];
  }

  /** The counters, the inverted edges and the initial ready list. */
  method Prepare(names: seq<string>, g: Digraph)
    returns (indegree: map<string, int>, dependents: map<string, seq<string>>, ready: seq<string>)
    requires NoDuplicates(names) && forall n :: n in names <==> n in g
    ensures KahnInvariant(g, [], indegree, ready)
    ensures forall n :: DependentsIn(g, n, Dependents(dependents, n))
  {
    indegree := map[];
    for i := 0 to |names|
      invariant forall n :: n in indegree <==> n in names[..i]
      invariant forall n :: n in indegree ==> indegree[n] == |g[n]|
    {
      indegree := indegree[names[i] := |g[names[i]]|];
    }
    dependents := InvertNeeds(g, names);
    ready := [];
    for i := 0 to |names|
      invariant NoDuplicates(ready)
      invariant forall n :: n in ready <==> n in names[..i] && indegree[n] == 0
    {
      if indegree[names[i]] == 0 { ready := ready + [names[i]]; }
    }
    Start(g, indegree, ready);
  }

  /** One round: pop the smallest ready node and release its dependents. */
  method Round(g: Digraph, ghost out: seq<string>, indegree0: map<string, int>, ready0: seq<string>,
               dependents: map<string, seq<string>>)
    returns (n: string, indegree: map<string, int>, ready: seq<string>)
    requires KahnInvariant(g, out, indegree0, ready0) && ready0 != []
    requires forall n :: DependentsIn(g, n, Dependents(dependents, n))
    ensures n in g && KahnInvariant(g, out + [n], indegree, ready)
  {
    Pop(g, out, indegree0, ready0);
    var sortedReady := Sort(ready0);
    n := sortedReady[0];
    assert sortedReady == [n] + sortedReady[1..];
    var next := Sort(Dependents(dependents, n));
    SortSorts(Dependents(dependents, n));
    assert DependentsIn(g, n, next);
    ReadyIsNotNext(g, out, n, next, indegree0, sortedReady[1..]);
    indegree, ready := Release(next, indegree0, sortedReady[1..]);
    ReleaseKeepsInvariant(g, out, n, next, indegree0, sortedReady[1..], indegree, ready);
  }

  /** topoSort: the least valid order by name, or an error exactly when no valid order exists. */
  method TopoSort(names: seq<string>, steps: map<string, Step>) returns (sorted: Option<seq<Step>>)
    requires NoDuplicates(names) && forall n :: n in names <==> n in steps
    requires forall n :: n in steps ==> steps[n].name == n
    ensures sorted.None? <==> forall order :: !ValidOrder(Edges(steps), order)
    ensures sorted.Some? ==> LeastOrder(Edges(steps), Names(sorted.value))
    ensures sorted.Some? ==> StepsFrom(steps, sorted.value)
  {
    hide KahnInvariant, LeastOrder, ValidOrder, Greedy, NoDuplicates, DependentsIn, Available;
    var g := Edges(steps);
    var indegree, dependents, ready := Prepare(names, g);
    var out: seq<Step> := [];
    while |ready| > 0
      invariant KahnInvariant(g, Names(out), indegree, ready)
      invariant StepsFrom(steps, out) && |out| <= |names|
      decreases |names| - |out|
    {
      var n: string;
      n, indegree, ready := Round(g, Names(out), indegree, ready, dependents);
      InvariantMeans(g, Names(out) + [n], indegree, ready);
      assert Names(out + [steps[n]]) == Names(out) + [n];
      out := out + [steps[n]];
      Bounded(g, names, Names(out));
    }
    InvariantMeans(g, Names(out), indegree, ready);
    if |out| != |names| {
      Incomplete(g, names, Names(out));
      return None;
    }
    Complete(g, names, Names(out));
    return Some(out);
  }

  lemma InvariantMeans(g: Digraph, out: seq<string>, indegree: map<string, int>, ready: seq<string>)
    requires KahnInvariant(g, out, indegree, ready)
    ensures Greedy(g, out) && (ready == [] ==> forall m :: !Available(g, out, m))
  {}

  /** Each listed step is the one `steps` holds under its name. */
  ghost predicate StepsFrom(steps: map<string, Step>, out: seq<Step>) {
    forall i :: 0 <= i < |out| ==> out[i].name in steps && out[i] == steps[out[i].name]
  }

  lemma Incomplete(g: Digraph, names: seq<string>, out: seq<string>)
    requires NoDuplicates(names) && forall n :: n in names <==> n in g
    requires Greedy(g, out) && (forall m :: !Available(g, out, m)) && |out| != |names|
    ensures forall order :: !ValidOrder(g, order)
  {
    if order :| ValidOrder(g, order) {
      StuckMeansNoOrder(g, out, order);
      SameLength(out, names);
    }
  }

  lemma Complete(g: Digraph, names: seq<string>, out: seq<string>)
    requires NoDuplicates(names) && forall n :: n in names <==> n in g
    requires Greedy(g, out) && |out| == |names|
    ensures LeastOrder(g, out)
  {
    Covered(names, out);
    GreedyIsLeast(g, out);
  }

  lemma Start(g: Digraph, indegree: map<string, int>, ready: seq<string>)
    requires indegree.Keys == g.Keys && forall n :: n in g ==> indegree[n] == |g[n]|
    requires NoDuplicates(ready) && forall n :: n in ready <==> n in g && indegree[n] == 0
    ensures KahnInvariant(g, [], indegree, ready)
  {
    assert Elems([]) == {};
    forall m | m in g ensures indegree[m] == Pending(g[m], {}) && (m in ready <==> Available(g, [], m)) {
      PendingZero(g[m], {});
    }
  }

  /** The head of the sorted ready list is the smallest available node. */
  lemma Pop(g: Digraph, out: seq<string>, indegree: map<string, int>, ready: seq<string>)
    requires KahnInvariant(g, out, indegree, ready) && ready != []
    ensures Sort(ready) != [] && Sort(ready)[0] in g && KahnInvariant(g, out, indegree, Sort(ready))
    ensures Greedy(g, out + [Sort(ready)[0]])
  {
    SortSorts(ready);
    SortMembers(ready);
    SortStrict(ready);
    var s := Sort(ready);
    assert s[0] in ready;
    forall m | Available(g, out, m) ensures !Less(m, s[0]) {
      assert m in s;
      var j :| 0 <= j < |s| && s[j] == m;
      if j == 0 { LessTotal(m, m); }
    }
    var o := out + [s[0]];
    forall i | 0 <= i < |o| ensures Available(g, o[..i], o[i]) && SmallestAvailable(g, o[..i], o[i]) {
      if i < |out| { assert o[..i] == out[..i] && o[i] == out[i]; } else { assert o[..i] == out; }
    }
  }

  lemma Bounded(g: Digraph, names: seq<string>, order: seq<string>)
    requires Greedy(g, order) && NoDuplicates(names) && forall n :: n in names <==> n in g
    ensures |order| <= |names|
  {
    SetOfDistinct(order);
    SetOfDistinct(names);
    SubsetSize(Elems(order), Elems(names));
  }

  lemma SubsetSize<T>(a: set<T>, b: set<T>)
    requires a <= b
    ensures |a| <= |b|
    ensures |a| == |b| ==> a == b
  {
    assert b == a + (b - a);
  }

  lemma Covered(names: seq<string>, order: seq<string>)
    requires NoDuplicates(names) && NoDuplicates(order) && |names| == |order|
    requires forall n :: n in order ==> n in names
    ensures forall n :: n in names ==> n in order
  {
    SetOfDistinct(order);
    SetOfDistinct(names);
    var a, b := Elems(order), Elems(names);
    SubsetSize(a, b);
    assert a == b;
    forall n | n in names ensures n in order {
      assert n in b;
    }
  }

  /* ---------- agreement with the cycle search ---------- */

  /** On a graph whose needs are all declared, some valid order exists exactly when there is no cycle. */
  lemma OrderExistsIffAcyclic(g: Digraph)
    requires Closed(g)
    ensures Acyclic(g) <==> exists order :: ValidOrder(g, order)
  {
    if order :| ValidOrder(g, order) { OrderImpliesAcyclic(g, order); }
    if Acyclic(g) {
      var order := ExtendOrder(g, []);
      assert ValidOrder(g, order);
    }
  }

  lemma {:induction false} ExtendOrder(g: Digraph, done: seq<string>) returns (order: seq<string>)
    requires Closed(g) && Acyclic(g)
    requires NoDuplicates(done) && NeedsFirst(g, done) && forall n :: n in done ==> n in g
    ensures ValidOrder(g, order)
    decreases |g.Keys - Elems(done)|
  {
    var left := g.Keys - Elems(done);
    if left == {} {
      order := done;
      forall n | n in g ensures n in done { assert n !in left; }
    } else {
      var n := Minimal(g, left);
      var next := done + [n];
      forall i, d | 0 <= i < |next| && d in Needs(g, next[i]) ensures d in next[..i] {
        assert next[..i] == done[..i];
      }
      assert (g.Keys - Elems(next)) == left - {n};
      order := ExtendOrder(g, next);
    }
  }

  /** In an acyclic graph every nonempty set of nodes has one that needs none of the others. */
  lemma {:induction false} Minimal(g: Digraph, s: set<string>) returns (n: string)
    requires Acyclic(g) && s != {}
    ensures n in s && forall d :: d in Needs(g, n) ==> d !in s
  {
    var start :| start in s;
    n := MinimalFrom(g, s, start, {});
  }

  lemma {:induction false} MinimalFrom(g: Digraph, s: set<string>, n: string, above: set<string>) returns (r: string)
    requires Acyclic(g) && n in s && above <= s && n !in above
    requires forall a :: a in above ==> Reach(g, a, n)
    ensures r in s && forall d :: d in Needs(g, r) ==> d !in s
    decreases |s - above|
  {
    if d :| d in Needs(g, n) && d in s {
      EdgeReaches(g, n, d);
      forall a | a in above + {n} ensures Reach(g, a, d) {
        if a != n { ReachTransitive(g, a, n, d); }
      }
      assert s - (above + {n}) == (s - above) - {n};
      r := MinimalFrom(g, s, d, above + {n});
    } else {
      r := n;
    }
  }
}
