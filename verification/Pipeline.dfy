/** Pipeline specs: the step records, and the three graph searches of the pipeline compiler. */
module Pipeline {
  import opened Wrappers
  import opened Graph
  import opened Strings

  datatype Kind = App | Image | Deploy | Scale | Notify

  datatype ScaleAction = ScaleAction(app: string, replicas: int)

  datatype Step = Step(
    name: string, needs: seq<string>, app: string, image: string, command: seq<string>, env: map<string, string>,
    gpu: int, deploy: string, scale: Option<ScaleAction>, notify: string, retries: int,
    inputs: seq<string>, outputs: seq<string>, kind: Kind)

  function Edges(steps: map<string, Step>): (g: Digraph)
    ensures g.Keys == steps.Keys
  {
    map n | n in steps :: steps[n].needs
  }

  /* ---------- findCycle ---------- */

  datatype Color = Gray | Black   // a name that is not in the map is white

  /** Gray nodes are a needs path of distinct nodes; black nodes are listed after all their needs. */
  ghost predicate DfsInvariant(g: Digraph, color: map<string, Color>, stack: seq<string>, finished: seq<string>) {
    && (forall n :: n in stack <==> n in color && color[n] == Gray)
    && (forall n :: n in finished <==> n in color && color[n] == Black)
    && NoDuplicates(stack)
    && IsChain(g, stack)
    && NeedsFirst(g, finished)
  }

  lemma EnterKeepsInvariant(g: Digraph, color: map<string, Color>, stack: seq<string>, finished: seq<string>, n: string)
    requires DfsInvariant(g, color, stack, finished) && n !in color
    requires stack != [] ==> n in Needs(g, stack[|stack| - 1])
    ensures DfsInvariant(g, color[n := Gray], stack + [n], finished)
  {}

  lemma LeaveKeepsInvariant(g: Digraph, color: map<string, Color>, stack: seq<string>, finished: seq<string>, n: string)
    requires DfsInvariant(g, color, stack + [n], finished)
    requires forall d :: d in Needs(g, n) ==> d in finished
    ensures DfsInvariant(g, color[n := Black], stack, finished + [n])
  {
    var s := stack + [n];
    assert n in s;
    forall m ensures m in stack <==> m in s && m != n {
      if m in stack {
        var i :| 0 <= i < |stack| && stack[i] == m;
        assert s[i] == m && s[|stack|] == n;
      }
    }
    var f := finished + [n];
    forall i, d | 0 <= i < |f| && d in Needs(g, f[i]) ensures d in f[..i] {
      assert f[..i] == finished[..i];
    }
    var c := color[n := Black];
    assert c[n] == Black && n in f;
    forall m ensures m in f <==> m in c && c[m] == Black {
      assert m in f <==> m in finished || m == n;
    }
    assert forall m :: m in stack <==> m in c && c[m] == Gray;
    assert forall i :: 0 <= i < |stack| ==> stack[i] == s[i];
    assert NoDuplicates(stack);
    assert NeedsFirst(g, f);
  }

  lemma NeedStaysIn(g: Digraph, s: set<string>, n: string, d: string)
    requires ClosedUnderNeeds(g, s) && n in s && d in Needs(g, n)
    ensures d in s
  {}

  lemma ColourMeans(g: Digraph, color: map<string, Color>, stack: seq<string>, finished: seq<string>, n: string)
    requires DfsInvariant(g, color, stack, finished)
    ensures n in color ==> if color[n] == Gray then n in stack else n in finished
  {
    hide IsChain, NeedsFirst, NoDuplicates;
  }

  /** A gray node needed by the innermost gray node closes a cycle. */
  lemma GrayCloses(g: Digraph, color: map<string, Color>, stack: seq<string>, finished: seq<string>, dep: string)
    requires DfsInvariant(g, color, stack, finished)
    requires stack != [] && dep in stack && dep in Needs(g, stack[|stack| - 1])
    ensures Reach(g, dep, dep)
  {
    var k :| 0 <= k < |stack| && stack[k] == dep;
    assert PathFromTo(g, stack[k..] + [dep], dep, dep);
  }

  /** The state findCycle's recursive closure captures: the colours and the step it names. */
  class CycleSearch {
    const g: Digraph
    var color: map<string, Color>
    var cycleStep: string
    ghost const universe: set<string>   // every node of the graph
    ghost var stack: seq<string>        // gray nodes, outermost call first
    ghost var finished: seq<string>     // black nodes, in finishing order

    constructor (g: Digraph)
      ensures this.g == g && Valid() && stack == [] && finished == [] && color == map[]
      ensures universe == Nodes(g)
    {
      NodesClosed(g);
      this.g, universe := g, Nodes(g);
      color, cycleStep, stack, finished := map[], "", [], [];
    }

    ghost predicate Valid()
      reads this
    {
      DfsInvariant(g, color, stack, finished) && ClosedUnderNeeds(g, universe)
    }

    method Visit(n: string) returns (found: bool)
      requires Valid() && n !in color && n in universe
      requires stack != [] ==> n in Needs(g, stack[|stack| - 1])
      modifies this
      ensures color.Keys >= old(color.Keys)
      ensures found ==> Reach(g, cycleStep, cycleStep) && cycleStep in universe
      ensures !found ==> Valid() && stack == old(stack) && n in finished
      ensures !found ==> forall m :: m in old(finished) ==> m in finished
      decreases |universe - color.Keys|
    {
      hide DfsInvariant, Reach, ClosedUnderNeeds, Needs;
      EnterKeepsInvariant(g, color, stack, finished, n);
      color := color[n := Gray];
      stack := stack + [n];
      var deps := Needs(g, n);
      for i := 0 to |deps|
        invariant color.Keys >= old(color.Keys) + {n}
        invariant Valid() && stack == old(stack) + [n]
        invariant forall m :: m in old(finished) ==> m in finished
        invariant forall j :: 0 <= j < i ==> deps[j] in finished
      {
        var dep := deps[i];
        NeedStaysIn(g, universe, n, dep);
        ColourMeans(g, color, stack, finished, dep);
        if dep in color && color[dep] == Gray {
          cycleStep := dep;
          GrayCloses(g, color, stack, finished, dep);
          return true;
        } else if dep !in color {
          FewerLeft(universe, old(color.Keys), color.Keys, n);
          found := Visit(dep);
          if found { return true; }
        }
      }
      LeaveKeepsInvariant(g, color, old(stack), finished, n);
      color := color[n := Black];
      stack, finished := old(stack), finished + [n];
      return false;
    }
  }

  /** Marking a new node of the universe leaves fewer unmarked ones. */
  lemma FewerLeft<T>(universe: set<T>, before: set<T>, after: set<T>, n: T)
    requires before <= after && n in universe && n !in before && n in after
    ensures |universe - after| < |universe - before|
  {
    assert universe - before == (universe - after) + ((universe - before) * after);
    assert n in (universe - before) * after;
  }

  /** findCycle names a step on a real cycle, and finds none exactly when there is none.
      Names are the validated, hence nonempty, step names. */
  method FindCycle(names: seq<string>, steps: map<string, Step>) returns (cyc: string)
    requires forall n :: n in steps ==> n in names
    requires forall n :: n in names ==> n in steps
    requires "" !in Nodes(Edges(steps))
    ensures cyc == "" <==> Acyclic(Edges(steps))
    ensures cyc != "" ==> Reach(Edges(steps), cyc, cyc)
  {
    var g := Edges(steps);
    var search := new CycleSearch(g);
    for i := 0 to |names|
      invariant search.Valid() && search.stack == []
      invariant forall j :: 0 <= j < i ==> names[j] in search.finished
    {
      if names[i] !in search.color {
        var found := search.Visit(names[i]);
        if found { return search.cycleStep; }
      }
    }
    OrderImpliesAcyclic(g, search.finished);
    return "";
  }

  /* ---------- transitiveNeeds ---------- */

  /** The memo set transitiveNeeds' recursive closure captures. */
  class NeedsWalk {
    const g: Digraph
    ghost const universe: set<string>
    var seen: set<string>

    constructor (g: Digraph)
      ensures this.g == g && seen == {} && universe == Nodes(g) && ClosedUnderNeeds(g, universe)
    {
      NodesClosed(g);
      this.g, universe := g, Nodes(g);
      seen := {};
    }

    /** Everything newly seen is reached from `n` and is itself fully expanded. */
    method Walk(n: string)
      requires ClosedUnderNeeds(g, universe) && forall d :: d in Needs(g, n) ==> d in universe
      modifies this
      ensures seen >= old(seen) && forall d :: d in Needs(g, n) ==> d in seen
      ensures forall m :: m in seen && m !in old(seen) ==> Reach(g, n, m)
      ensures forall m, d :: m in seen && m !in old(seen) && d in Needs(g, m) ==> d in seen
      decreases |universe - seen|
    {
      var deps := Needs(g, n);
      for i := 0 to |deps|
        invariant seen >= old(seen) && forall j :: 0 <= j < i ==> deps[j] in seen
        invariant forall m :: m in seen && m !in old(seen) ==> Reach(g, n, m)
        invariant forall m, d :: m in seen && m !in old(seen) && d in Needs(g, m) ==> d in seen
      {
        var dep := deps[i];
        if dep !in seen {
          EdgeReaches(g, n, dep);
          ghost var mid := seen;
          seen := seen + {dep};
          FewerLeft(universe, old(seen), seen, dep);
          Walk(dep);
          forall m | m in seen && m !in old(seen) ensures Reach(g, n, m) {
            if m !in mid && m != dep { EdgeThenReach(g, n, dep, m); }
          }
        }
      }
    }
  }

  /** The memoised search computes exact reachability, on cyclic graphs too. */
  method TransitiveNeeds(name: string, steps: map<string, Step>) returns (upstream: set<string>)
    ensures forall m :: m in upstream <==> Reach(Edges(steps), name, m)
  {
    var g := Edges(steps);
    var walk := new NeedsWalk(g);
    walk.Walk(name);
    upstream := walk.seen;
    forall m | Reach(g, name, m) ensures m in upstream {
      ReachStaysIn(g, name, m, upstream);
    }
  }

  /* ---------- Downstream ---------- */

  /** The `seen` map that Downstream hands to dependsOn and every branch of its recursion shares. */
  class DependsSearch {
    const g: Digraph
    ghost const universe: set<string>
    var seen: set<string>

    constructor (g: Digraph)
      ensures this.g == g && seen == {} && universe == Nodes(g) && ClosedUnderNeeds(g, universe)
    {
      NodesClosed(g);
      this.g, universe := g, Nodes(g);
      seen := {};
    }

    /** A failed search leaves behind expanded nodes, none of which needs the target directly. */
    method DependsOn(from: string, target: string) returns (found: bool)
      requires ClosedUnderNeeds(g, universe) && from in universe
      modifies this
      ensures seen >= old(seen)
      ensures found ==> Reach(g, from, target)
      ensures !found ==> from in seen && Settled(g, seen - old(seen), seen, target)
      decreases |universe - seen|
    {
      if from in seen { return false; }
      ghost var before := seen;
      seen := seen + {from};
      var deps := Needs(g, from);
      for i := 0 to |deps|
        invariant seen >= before + {from}
        invariant forall j :: 0 <= j < i ==> deps[j] in seen && deps[j] != target
        invariant Settled(g, seen - before - {from}, seen, target)
      {
        var dep := deps[i];
        assert dep in Needs(g, from);
        if dep == target {
          EdgeReaches(g, from, target);
          return true;
        }
        FewerLeft(universe, before, seen, from);
        ghost var mid := seen;
        found := DependsOn(dep, target);
        if found {
          EdgeThenReach(g, from, dep, target);
          return true;
        }
        SettledJoin(g, mid - before - {from}, mid, seen - mid, seen, target);
        assert seen - before - {from} == (mid - before - {from}) + (seen - mid);
      }
      assert Settled(g, {from}, seen, target);
      SettledJoin(g, seen - before - {from}, seen, {from}, seen, target);
      assert seen - before == (seen - before - {from}) + {from};
      return false;
    }
  }

  /** Every need of a node in `done` has been seen and is not the target. */
  ghost predicate Settled(g: Digraph, done: set<string>, seen: set<string>, target: string) {
    forall m, d :: m in done && d in Needs(g, m) ==> d in seen && d != target
  }

  lemma SettledJoin(g: Digraph, a: set<string>, seenA: set<string>, b: set<string>, seenB: set<string>, target: string)
    requires Settled(g, a, seenA, target) && Settled(g, b, seenB, target) && seenA <= seenB
    ensures Settled(g, a + b, seenB, target)
  {
    forall m, d | m in a + b && d in Needs(g, m) ensures d in seenB && d != target {
      if m in a { assert d in seenA; } else { assert m in b; }
    }
  }

  /** `byName` as the compiler's clients build it: a later step of the same name replaces an earlier one. */
  function ByName(steps: seq<Step>): map<string, Step> {
    if steps == [] then map[] else ByName(steps[..|steps| - 1])[steps[|steps| - 1].name := steps[|steps| - 1]]
  }

  lemma {:induction false} ByNameHasAll(steps: seq<Step>, i: nat)
    requires i < |steps|
    ensures steps[i].name in ByName(steps)
  {
    if i < |steps| - 1 { ByNameHasAll(steps[..|steps| - 1], i); }
  }

  function Names(steps: seq<Step>): (r: seq<string>)
    ensures |r| == |steps| && forall i :: 0 <= i < |r| ==> r[i] == steps[i].name
  {
    seq(|steps|, i requires 0 <= i < |steps| => steps[i].name)
  }

  /** dependsOn with a fresh set. */
  method DependsOnFresh(g: Digraph, from: string, target: string) returns (depends: bool)
    requires from in g
    ensures depends <==> Reach(g, from, target)
  {
    var search := new DependsSearch(g);
    depends := search.DependsOn(from, target);
    if !depends {
      assert search.seen - {} == search.seen;
      NotFoundMeansUnreached(g, from, target, search.seen);
    }
  }

  /** Downstream lists, in name order, exactly the other steps that transitively need `name`. */
  method Downstream(steps: seq<Step>, name: string) returns (downstream: seq<string>)
    ensures Ascending(downstream)
    ensures forall x :: x in downstream <==>
              x in Names(steps) && x != name && Reach(Edges(ByName(steps)), x, name)
    ensures NoDuplicates(Names(steps)) ==> StrictlyAscending(downstream)
  {
    hide Reach, StrictlyAscending, Ascending;
    var byName := map[];
    for i := 0 to |steps|
      invariant byName == ByName(steps[..i])
    {
      assert steps[..i + 1][..i] == steps[..i];
      byName := byName[steps[i].name := steps[i]];
    }
    assert steps[..|steps|] == steps;
    var g := Edges(byName);
    var found: seq<string> := [];
    for i := 0 to |steps|
      invariant forall x :: x in found <==> x in Names(steps)[..i] && x != name && Reach(g, x, name)
      invariant NoDuplicates(Names(steps)) ==> NoDuplicates(found)
    {
      assert Names(steps)[..i + 1] == Names(steps)[..i] + [steps[i].name];
      if steps[i].name == name { continue; }
      ByNameHasAll(steps, i);
      var depends := DependsOnFresh(g, steps[i].name, name);
      if depends { found := found + [steps[i].name]; }
    }
    assert Names(steps)[..|steps|] == Names(steps);
    downstream := Sort(found);
    SortSorts(found);
    SortMembers(found);
    if NoDuplicates(Names(steps)) { SortStrict(found); }
  }

  lemma NotFoundMeansUnreached(g: Digraph, from: string, target: string, seen: set<string>)
    requires from in seen
    requires Settled(g, seen, seen, target)
    ensures !Reach(g, from, target)
  {
    if Reach(g, from, target) {
      ReachStaysIn(g, from, target, seen - {target});
    }
  }
}
