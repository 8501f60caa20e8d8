/** Translation of a compiled pipeline into an Argo Workflow DAG. */
module Argo {
  import opened Wrappers
  import opened Graph
  import opened Strings
  import opened Pipeline

  /** One compute step with its resolved launch data. */
  datatype ComputeStep = ComputeStep(step: Step, image: string, command: seq<string>, env: map<string, string>)

  datatype Resolved = Resolved(image: string, command: seq<string>, gpu: int)

  datatype Task = Task(name: string, template: string, dependencies: seq<string>)

  /** What a template needs to run on a GPU node. */
  datatype GPURequest = GPURequest(count: int, runtimeClass: string, nodeSelector: map<string, string>)

  datatype Template = Template(
    name: string, image: string, command: seq<string>, env: seq<(string, string)>, envSecret: Option<string>,
    gpu: Option<GPURequest>, retryLimit: Option<int>)

  datatype Workflow = Workflow(
    name: string, namespace: string, labels: map<string, string>, entrypoint: string,
    tasks: seq<Task>, templates: seq<Template>)

  const GPU_RUNTIME_CLASS := "nvidia"
  const GPU_NODE_LABELS := map["luncur.dev/gpu" := "true"]

  function SecretName(app: string): string { app + "-env" }

  predicate ComputeKind(k: Kind) { k == App || k == Image }

  predicate IsCompute(byName: map<string, Step>, n: string) { n in byName && ComputeKind(byName[n].kind) }

  /* ---------- terminal actions ---------- */

  /** No compute step transitively needs an action step. */
  ghost predicate ActionsTerminal(steps: seq<Step>) {
    forall i, m :: 0 <= i < |steps| && ComputeKind(steps[i].kind) && Reach(Edges(ByName(steps)), steps[i].name, m) ==>
      IsCompute(ByName(steps), m)
  }

  method IndexByName(steps: seq<Step>) returns (byName: map<string, Step>)
    ensures byName == ByName(steps)
  {
    byName := map[];
    for i := 0 to |steps|
      invariant byName == ByName(steps[..i])
    {
      assert steps[..i + 1][..i] == steps[..i];
      byName := byName[steps[i].name := steps[i]];
    }
    assert steps[..|steps|] == steps;
  }

  /** validateArgoTerminalActions: names an offending (compute, action) pair, or accepts. */
  method ValidateTerminalActions(steps: seq<Step>) returns (offence: Option<(string, string)>)
    ensures offence.None? <==> ActionsTerminal(steps)
    ensures offence.Some? ==>
              (exists i :: 0 <= i < |steps| && ComputeKind(steps[i].kind) && steps[i].name == offence.value.0)
                              && Reach(Edges(ByName(steps)), offence.value.0, offence.value.1)
                              && !IsCompute(ByName(steps), offence.value.1)
  {
    var byName := IndexByName(steps);
    for i := 0 to |steps|
      invariant forall j, m :: 0 <= j < i && ComputeKind(steps[j].kind) && Reach(Edges(byName), steps[j].name, m) ==>
        IsCompute(byName, m)
    {
      if !ComputeKind(steps[i].kind) { continue; }
      var needed := TransitiveNeeds(steps[i].name, byName);
      var left := needed;
      while left != {}
        invariant left <= needed && forall m :: m in needed && m !in left ==> IsCompute(byName, m)
      {
        var dep :| dep in left;
        if !IsCompute(byName, dep) { return Some((steps[i].name, dep)); }
        left := left - {dep};
      }
    }
    return None;
  }

  /* ---------- buildWorkflowCR ---------- */

  function KeepIn(needs: seq<string>, names: set<string>): (kept: seq<string>)
    ensures (forall n :: n in needs ==> n in names) ==> kept == needs
    ensures forall n :: n in kept <==> n in needs && n in names
  {
    if needs == [] then []
    else
      var init, last := needs[..|needs| - 1], needs[|needs| - 1];
      assert needs == init + [last];
      if last in names then KeepIn(init, names) + [last] else KeepIn(init, names)
  }

  method FilterComputeNeeds(needs: seq<string>, names: set<string>) returns (kept: seq<string>)
    ensures kept == KeepIn(needs, names)
  {
    kept := [];
    for i := 0 to |needs|
      invariant kept == KeepIn(needs[..i], names)
    {
      assert needs[..i + 1][..i] == needs[..i];
      if needs[i] in names { kept := kept + [needs[i]]; }
    }
    assert needs[..|needs|] == needs;
  }

  /** The environment as name/value pairs in name order. */
  method EnvSlice(env: map<string, string>) returns (pairs: seq<(string, string)>)
    ensures PairsOf(env, pairs)
  {
    hide StrictlyAscending, Ascending, PairsOf;
    var keys: seq<string> := [];
    var left := env.Keys;
    while left != {}
      invariant left <= env.Keys && NoDuplicates(keys) && |keys| + |left| == |env.Keys|
      invariant forall k :: k in keys <==> k in env && k !in left
    {
      var k :| k in left;
      keys, left := keys + [k], left - {k};
    }
    var sorted := Sort(keys);
    SortSorts(keys);
    SortMembers(keys);
    SortStrict(keys);
    pairs := [];
    for i := 0 to |sorted|
      invariant |pairs| == i && forall j :: 0 <= j < i ==> pairs[j] == (sorted[j], env[sorted[j]])
    {
      pairs := pairs + [(sorted[i], env[sorted[i]])];
    }
    PairsOfSorted(env, sorted, pairs);
  }

  lemma PairsOfSorted(env: map<string, string>, sorted: seq<string>, pairs: seq<(string, string)>)
    requires StrictlyAscending(sorted) && forall k :: k in sorted <==> k in env
    requires |pairs| == |sorted| == |env| && forall j :: 0 <= j < |pairs| ==> pairs[j] == (sorted[j], env[sorted[j]])
    ensures PairsOf(env, pairs)
  {
    hide Less;
    forall k, v ensures (k, v) in pairs <==> k in env && env[k] == v {
      if k in env && env[k] == v {
        var j :| 0 <= j < |sorted| && sorted[j] == k;
        assert pairs[j] == (k, v);
      }
    }
  }

  ghost predicate TaskOf(cs: ComputeStep, names: set<string>, task: Task) {
    task == Task(cs.step.name, "t-" + cs.step.name, KeepIn(cs.step.needs, names))
  }

  ghost predicate TemplateOf(cs: ComputeStep, t: Template) {
    && t.name == "t-" + cs.step.name && t.image == cs.image && t.command == cs.command
    && PairsOf(cs.env, t.env)
    && t.envSecret == (if cs.step.kind == App then Some(SecretName(cs.step.app)) else None)
    && t.gpu == (if cs.step.gpu > 0 then Some(GPURequest(cs.step.gpu, GPU_RUNTIME_CLASS, GPU_NODE_LABELS)) else None)
    && t.retryLimit == (if cs.step.retries > 0 then Some(cs.step.retries) else None)
  }

  /** The entries of the environment, each once and in name order. */
  ghost predicate PairsOf(env: map<string, string>, pairs: seq<(string, string)>) {
    && |pairs| == |env| && (forall i, j :: 0 <= i < j < |pairs| ==> Less(pairs[i].0, pairs[j].0))
    && (forall k, v :: (k, v) in pairs <==> k in env && env[k] == v)
  }

  function NamesOf(steps: seq<ComputeStep>): set<string> {
    set i | 0 <= i < |steps| :: steps[i].step.name
  }

  /** The DAG node and the template of one step. */
  method BuildStep(cs: ComputeStep, names: set<string>) returns (task: Task, template: Template)
    ensures TaskOf(cs, names, task) && TemplateOf(cs, template)
  {
    hide PairsOf, KeepIn;
    var name := "t-" + cs.step.name;
    var env := EnvSlice(cs.env);
    var gpu := if cs.step.gpu > 0 then Some(GPURequest(cs.step.gpu, GPU_RUNTIME_CLASS, GPU_NODE_LABELS)) else None;
    template := Template(
      name, cs.image, cs.command, env, if cs.step.kind == App then Some(SecretName(cs.step.app)) else None,
      gpu, if cs.step.retries > 0 then Some(cs.step.retries) else None);
    var deps := FilterComputeNeeds(cs.step.needs, names);
    task := Task(cs.step.name, name, deps);
  }

  /** The workflow's own data: its name and labels carry the run, and its entry point is the DAG. */
  ghost predicate HeaderOf(namespace: string, runID: string, wf: Workflow) {
    && wf.name == "pl-" + runID && wf.namespace == namespace && wf.entrypoint == "main"
    && wf.labels == map["app.kubernetes.io/managed-by" := "luncur", "luncur.dev/pipeline-run" := runID]
  }

  /** buildWorkflowCR: one DAG node and one template per compute step, in step order. */
  method BuildWorkflow(namespace: string, runID: string, steps: seq<ComputeStep>) returns (wf: Workflow)
    ensures HeaderOf(namespace, runID, wf)
    ensures |wf.tasks| == |wf.templates| == |steps|
    ensures forall i :: 0 <= i < |steps| ==> TaskOf(steps[i], NamesOf(steps), wf.tasks[i])
    ensures forall i :: 0 <= i < |steps| ==> TemplateOf(steps[i], wf.templates[i])
  {
    hide TaskOf, TemplateOf, NamesOf;
    var names := StepNames(steps);
    var tasks: seq<Task>, templates: seq<Template> := [], [];
    for i := 0 to |steps|
      invariant |tasks| == |templates| == i
      invariant forall j :: 0 <= j < i ==> TaskOf(steps[j], names, tasks[j])
      invariant forall j :: 0 <= j < i ==> TemplateOf(steps[j], templates[j])
    {
      var task, template := BuildStep(steps[i], names);
      templates := templates + [template];
      tasks := tasks + [task];
    }
    var labels := map["app.kubernetes.io/managed-by" := "luncur", "luncur.dev/pipeline-run" := runID];
    return Workflow("pl-" + runID, namespace, labels, "main", tasks, templates);
  }

  method StepNames(steps: seq<ComputeStep>) returns (names: set<string>)
    ensures names == NamesOf(steps)
  {
    hide NamesOf;
    names := {};
    NoNames();
    for i := 0 to |steps|
      invariant names == NamesOf(steps[..i])
    {
      assert steps[..i + 1] == steps[..i] + [steps[i]];
      NamesOfNext(steps[..i], steps[i]);
      names := names + {steps[i].step.name};
    }
    assert steps[..|steps|] == steps;
  }

  lemma NoNames()
    ensures NamesOf([]) == {}
  {}

  lemma NamesOfNext(steps: seq<ComputeStep>, cs: ComputeStep)
    ensures NamesOf(steps + [cs]) == NamesOf(steps) + {cs.step.name}
  {
    var all := steps + [cs];
    assert all[|steps|] == cs && forall i :: 0 <= i < |steps| ==> all[i] == steps[i];
    forall n ensures n in NamesOf(all) <==> n in NamesOf(steps) + {cs.step.name} {
      if n in NamesOf(steps) { var i :| 0 <= i < |steps| && steps[i].step.name == n; assert all[i].step.name == n; }
    }
  }

  /* ---------- what the run hands to buildWorkflowCR ---------- */

  /** The merged environment of each step. */
  type Envs = map<string, map<string, string>>

  /** What was resolved for a step; nothing if it was not. */
  ghost function LaunchOf(st: Step, resolved: map<string, Resolved>): Resolved {
    if st.name in resolved then resolved[st.name] else Resolved("", [], 0)
  }

  /** The step with what was resolved for it; an app step also has the GPU count of its app. */
  ghost predicate LaunchData(st: Step, resolved: map<string, Resolved>, env: Envs, c: ComputeStep) {
    && c.step == st.(gpu := if st.kind == App then LaunchOf(st, resolved).gpu else st.gpu)
    && c.image == LaunchOf(st, resolved).image && c.command == LaunchOf(st, resolved).command
    && c.env == if st.name in env then env[st.name] else map[]
  }

  /** The positions, in order, of exactly the app and image steps. */
  ghost predicate ComputeAt(steps: seq<Step>, at: seq<nat>) {
    && (forall i, j :: 0 <= i < j < |at| ==> at[i] < at[j])
    && (forall k :: k in at <==> 0 <= k < |steps| && (steps[k].kind == App || steps[k].kind == Image))
  }

  ghost predicate Selected(steps: seq<Step>, resolved: map<string, Resolved>, env: Envs, cs: seq<ComputeStep>,
                           at: seq<nat>) {
    && ComputeAt(steps, at) && |cs| == |at|
    && forall i :: 0 <= i < |at| ==> at[i] in at && LaunchData(steps[at[i]], resolved, env, cs[i])
  }

  /** The compute steps of a spec in order, app steps stamped with their app's GPU count. */
  method SelectCompute(steps: seq<Step>, resolved: map<string, Resolved>, env: Envs)
    returns (cs: seq<ComputeStep>, ghost at: seq<nat>)
    ensures Selected(steps, resolved, env, cs, at)
    ensures forall i :: 0 <= i < |cs| ==> cs[i].step.kind == App || cs[i].step.kind == Image
  {
    cs, at := [], [];
    for k := 0 to |steps|
      invariant Selected(steps[..k], resolved, env, cs, at)
    {
      var st := steps[k];
      assert steps[..k + 1] == steps[..k] + [st];
      if !ComputeKind(st.kind) {
        SelectsAction(steps[..k], st, resolved, env, cs, at);
        continue;
      }
      var r := if st.name in resolved then resolved[st.name] else Resolved("", [], 0);
      var stamped := st;
      if st.kind == App { stamped := st.(gpu := r.gpu); }
      var c := ComputeStep(stamped, r.image, r.command, if st.name in env then env[st.name] else map[]);
      SelectsCompute(steps[..k], st, resolved, env, cs, at, c);
      cs, at := cs + [c], at + [k];
    }
    assert steps[..|steps|] == steps;
  }

  lemma SelectsAction(init: seq<Step>, st: Step, resolved: map<string, Resolved>, env: Envs, cs: seq<ComputeStep>,
                      at: seq<nat>)
    requires Selected(init, resolved, env, cs, at) && st.kind != App && st.kind != Image
    ensures Selected(init + [st], resolved, env, cs, at)
  {
    hide LaunchData;
  }

  lemma SelectsCompute(init: seq<Step>, st: Step, resolved: map<string, Resolved>, env: Envs, cs: seq<ComputeStep>,
                       at: seq<nat>, c: ComputeStep)
    requires Selected(init, resolved, env, cs, at) && (st.kind == App || st.kind == Image)
    requires LaunchData(st, resolved, env, c)
    ensures Selected(init + [st], resolved, env, cs + [c], at + [|init|])
  {
    hide LaunchData;
    var all := at + [|init|];
    forall k ensures k in all <==> k in at || k == |init| {
      if k == |init| { assert all[|at|] == k; }
    }
    forall i | 0 <= i < |at| ensures at[i] < |init| { assert at[i] in at; }
  }

  lemma {:induction false} ByNameAt(steps: seq<Step>, k: nat)
    requires k < |steps| && NoDuplicates(Names(steps))
    ensures steps[k].name in ByName(steps) && ByName(steps)[steps[k].name] == steps[k]
  {
    var names := Names(steps);
    if k < |steps| - 1 {
      assert names[k] != names[|steps| - 1];
      assert Names(steps[..|steps| - 1]) == names[..|steps| - 1];
      ByNameAt(steps[..|steps| - 1], k);
    }
  }

  /** The selected steps are those that the workflow can order. */
  lemma SelectedExactly(steps: seq<Step>, resolved: map<string, Resolved>, env: Envs, cs: seq<ComputeStep>,
                        at: seq<nat>)
    requires NoDuplicates(Names(steps)) && Selected(steps, resolved, env, cs, at)
    ensures ExactlyComputeSteps(steps, cs)
  {
    hide ByName, NoDuplicates;
    forall i | 0 <= i < |cs| ensures SameEdges(steps, cs[i].step) && cs[i].step.name == steps[at[i]].name {
      ByNameAt(steps, at[i]);
    }
    forall n | IsCompute(ByName(steps), n) ensures exists i :: 0 <= i < |cs| && cs[i].step.name == n {
      var k := NameIndex(steps, n);
      assert k in at;
      var i :| 0 <= i < |at| && at[i] == k;
      assert cs[i].step.name == n;
    }
    forall i, j | 0 <= i < j < |cs| ensures cs[i].step.name != cs[j].step.name {
      ByNameAt(steps, at[i]);
      ByNameAt(steps, at[j]);
      DistinctNames(steps, at[i], at[j]);
    }
  }

  lemma DistinctNames(steps: seq<Step>, i: nat, j: nat)
    requires i < j < |steps| && NoDuplicates(Names(steps))
    ensures steps[i].name != steps[j].name
  {
    assert Names(steps)[i] != Names(steps)[j];
  }

  /** The selected steps are the compute steps of the spec, each once. */
  ghost predicate ExactlyComputeSteps(steps: seq<Step>, cs: seq<ComputeStep>) {
    && (forall i :: 0 <= i < |cs| ==> SameEdges(steps, cs[i].step))
    && (forall n :: IsCompute(ByName(steps), n) ==> exists i :: 0 <= i < |cs| && cs[i].step.name == n)
    && (forall i, j :: 0 <= i < j < |cs| ==> cs[i].step.name != cs[j].step.name)
  }

  /** The step is a compute step of the spec, up to its GPU stamp. */
  ghost predicate SameEdges(steps: seq<Step>, st: Step) {
    IsCompute(ByName(steps), st.name) && ByName(steps)[st.name].needs == st.needs
  }

  /* ---------- order preservation ---------- */

  /** The workflow's dependency graph as Argo reads it. */
  function TaskGraph(tasks: seq<Task>): Digraph {
    if tasks == [] then map[]
    else TaskGraph(tasks[..|tasks| - 1])[tasks[|tasks| - 1].name := tasks[|tasks| - 1].dependencies]
  }

  lemma {:induction false} TaskGraphAt(tasks: seq<Task>, i: nat)
    requires i < |tasks| && forall a, b :: 0 <= a < b < |tasks| ==> tasks[a].name != tasks[b].name
    ensures tasks[i].name in TaskGraph(tasks) && TaskGraph(tasks)[tasks[i].name] == tasks[i].dependencies
  {
    if i < |tasks| - 1 { TaskGraphAt(tasks[..|tasks| - 1], i); }
  }

  lemma {:induction false} TaskGraphKeys(tasks: seq<Task>, n: string) returns (i: nat)
    requires n in TaskGraph(tasks)
    ensures i < |tasks| && tasks[i].name == n
  {
    if tasks[|tasks| - 1].name == n { i := |tasks| - 1; } else { i := TaskGraphKeys(tasks[..|tasks| - 1], n); }
  }

  /** A path of the spec that starts at a compute step only visits compute steps. */
  lemma {:induction false} PathStaysCompute(steps: seq<Step>, p: seq<string>, i: nat)
    requires ActionsTerminal(steps) && NoDuplicates(Names(steps))
    requires IsPath(Edges(ByName(steps)), p) && IsCompute(ByName(steps), p[0]) && i < |p|
    ensures IsCompute(ByName(steps), p[i])
  {
    if i > 0 {
      assert PathFromTo(Edges(ByName(steps)), p[..i + 1], p[0], p[i]);
      var k := NameIndex(steps, p[0]);
      assert Reach(Edges(ByName(steps)), steps[k].name, p[i]);
    }
  }

  lemma {:induction false} NameIndex(steps: seq<Step>, n: string) returns (i: nat)
    requires n in ByName(steps)
    ensures i < |steps| && steps[i].name == n && steps[i] == ByName(steps)[n]
  {
    if steps[|steps| - 1].name == n { i := |steps| - 1; } else { i := NameIndex(steps[..|steps| - 1], n); }
  }

  /** Compute steps reach each other through task dependencies exactly when they do through needs. */
  ghost predicate OrderPreserved(steps: seq<Step>, tasks: seq<Task>) {
    forall a, b :: IsCompute(ByName(steps), a) && IsCompute(ByName(steps), b) ==>
      (Reach(TaskGraph(tasks), a, b) <==> Reach(Edges(ByName(steps)), a, b))
  }

  /** Nothing is dropped, and the order is that of the spec. */
  lemma TranslationPreservesOrder(steps: seq<Step>, cs: seq<ComputeStep>, tasks: seq<Task>)
    requires ActionsTerminal(steps) && NoDuplicates(Names(steps)) && ExactlyComputeSteps(steps, cs)
    requires |tasks| == |cs| && forall i :: 0 <= i < |cs| ==> TaskOf(cs[i], NamesOf(cs), tasks[i])
    ensures OrderPreserved(steps, tasks)
    ensures forall i :: 0 <= i < |cs| ==> tasks[i].dependencies == cs[i].step.needs
  {
    hide ByName, Names, NoDuplicates, ActionsTerminal, NamesOf, TaskGraph, KeepIn, Reach, SameEdges;
    var g, h, names := Edges(ByName(steps)), TaskGraph(tasks), NamesOf(cs);
    NamesAreCompute(steps, cs);
    forall i | 0 <= i < |cs| ensures tasks[i].dependencies == cs[i].step.needs {
      NothingDropped(steps, cs[i].step, names);
    }
    forall n | n in names ensures Needs(h, n) == Needs(g, n) && forall d :: d in Needs(h, n) ==> d in names {
      var i :| 0 <= i < |cs| && cs[i].step.name == n;
      TaskGraphAt(tasks, i);
      NothingDropped(steps, cs[i].step, names);
      NeedsOf(steps, cs[i].step);
    }
    forall a, b | IsCompute(ByName(steps), a) && IsCompute(ByName(steps), b)
      ensures Reach(h, a, b) <==> Reach(g, a, b)
    {
      SharedReach(h, g, names, a, b);
    }
  }

  lemma NamesAreCompute(steps: seq<Step>, cs: seq<ComputeStep>)
    requires ExactlyComputeSteps(steps, cs)
    ensures forall n :: n in NamesOf(cs) <==> IsCompute(ByName(steps), n)
    ensures forall n :: n in NamesOf(cs) <==> exists i :: 0 <= i < |cs| && cs[i].step.name == n
  {
    forall n | n in NamesOf(cs) ensures IsCompute(ByName(steps), n) {
      var i :| 0 <= i < |cs| && cs[i].step.name == n;
      assert SameEdges(steps, cs[i].step);
    }
  }

  lemma NeedsOf(steps: seq<Step>, st: Step)
    requires SameEdges(steps, st)
    ensures Needs(Edges(ByName(steps)), st.name) == st.needs
  {}

  /** The node and the template run this step: under its name and after its needs, with the image, command and
      environment resolved for it, the secret environment of its app, its GPUs and its retries. */
  ghost predicate RunsStep(st: Step, resolved: map<string, Resolved>, env: Envs, task: Task, t: Template) {
    var launch := LaunchOf(st, resolved);
    var gpus := if st.kind == App then launch.gpu else st.gpu;
    && task == Task(st.name, "t-" + st.name, st.needs)
    && t.name == "t-" + st.name && t.image == launch.image && t.command == launch.command
    && PairsOf(if st.name in env then env[st.name] else map[], t.env)
    && t.envSecret == (if st.kind == App then Some(st.app + "-env") else None)
    && t.gpu == (if gpus > 0 then Some(GPURequest(gpus, "nvidia", map["luncur.dev/gpu" := "true"])) else None)
    && t.retryLimit == (if st.retries > 0 then Some(st.retries) else None)
  }

  lemma BuiltRunsStep(st: Step, resolved: map<string, Resolved>, env: Envs, c: ComputeStep, names: set<string>,
                      task: Task, t: Template)
    requires LaunchData(st, resolved, env, c) && TaskOf(c, names, task) && TemplateOf(c, t)
    requires task.dependencies == c.step.needs
    ensures RunsStep(st, resolved, env, task, t)
  {
    hide PairsOf, KeepIn;
  }

  /** The start of an argo run: check, select the compute steps, build the workflow. It has one node and one template
      for each app or image step, in order, and nothing else. */
  method Translate(namespace: string, runID: string, steps: seq<Step>, resolved: map<string, Resolved>,
                   env: Envs)
    returns (wf: Option<Workflow>, ghost at: seq<nat>)
    requires NoDuplicates(Names(steps))
    ensures wf.Some? <==> ActionsTerminal(steps)
    ensures wf.Some? ==> HeaderOf(namespace, runID, wf.value) && OrderPreserved(steps, wf.value.tasks)
    ensures wf.Some? ==> ComputeAt(steps, at) && |wf.value.tasks| == |wf.value.templates| == |at|
    ensures wf.Some? ==> forall i :: 0 <= i < |at| ==>
              at[i] in at && RunsStep(steps[at[i]], resolved, env, wf.value.tasks[i], wf.value.templates[i])
  {
    hide ActionsTerminal, OrderPreserved, HeaderOf, ExactlyComputeSteps, TaskOf, TemplateOf, LaunchData, RunsStep;
    hide NoDuplicates, NamesOf;
    at := [];
    var offence := ValidateTerminalActions(steps);
    if offence.Some? { return None, at; }
    var cs;
    cs, at := SelectCompute(steps, resolved, env);
    var built := BuildWorkflow(namespace, runID, cs);
    SelectedExactly(steps, resolved, env, cs, at);
    TranslationPreservesOrder(steps, cs, built.tasks);
    forall i | 0 <= i < |at|
      ensures at[i] in at && RunsStep(steps[at[i]], resolved, env, built.tasks[i], built.templates[i])
    {
      BuiltRunsStep(steps[at[i]], resolved, env, cs[i], NamesOf(cs), built.tasks[i], built.templates[i]);
    }
    return Some(built), at;
  }

  lemma NothingDropped(steps: seq<Step>, st: Step, names: set<string>)
    requires ActionsTerminal(steps) && NoDuplicates(Names(steps)) && SameEdges(steps, st)
    requires forall n :: IsCompute(ByName(steps), n) ==> n in names
    ensures KeepIn(st.needs, names) == st.needs && forall n :: n in st.needs ==> n in names
  {
    forall n | n in st.needs ensures n in names {
      assert IsPath(Edges(ByName(steps)), [st.name, n]);
      PathStaysCompute(steps, [st.name, n], 1);
    }
  }
}
