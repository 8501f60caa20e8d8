/** The artifact environment of a step, and how producers and consumers of a compiled pipeline meet in it. */
module Artifacts {
  import opened Wrappers
  import opened Graph
  import opened Strings
  import opened Pipeline
  import opened Kahn
  import opened Compiler

  const OUTPUT_VAR := "LUNCUR_OUTPUT_"
  const INPUT_VAR := "LUNCUR_INPUT_"

  function Prefix(pipeline: string, run: string): string {
    "pipelines/" + pipeline + "/" + run + "/"
  }

  function ArtifactPath(prefix: string, step: string, output: string): string {
    prefix + step + "/" + output
  }

  /** `strings.SplitN(in, "/", 2)` when it has two parts. */
  function CutAtSlash(input: string): Option<(string, string)> {
    var i := IndexByte(input, '/');
    if i == -1 then None else Some((input[..i], input[i + 1..]))
  }

  function BaseEnv(pipeline: string, run: string): map<string, string> {
    map["LUNCUR_PIPELINE_ID" := pipeline, "LUNCUR_PIPELINE_RUN_ID" := run,
        "LUNCUR_ARTIFACT_PREFIX" := Prefix(pipeline, run)]
  }

  /** A variable a step's declaration sets, with its value. */
  type Binding = (string, string)

  function OutputBinding(prefix: string, step: string, output: string): Binding {
    (OUTPUT_VAR + Upper(output), ArtifactPath(prefix, step, output))
  }

  function InputVar(name: string): string {
    INPUT_VAR + Upper(name)
  }

  /** The binding an input declares; none when it has no slash. */
  function InputBinding(prefix: string, input: string): Option<Binding> {
    match CutAtSlash(input)
    case None => None
    case Some(p) => Some((InputVar(p.1), ArtifactPath(prefix, p.0, p.1)))
  }

  function InputBindings(prefix: string, inputs: seq<string>): seq<Binding> {
    if inputs == [] then []
    else
      var init := InputBindings(prefix, inputs[..|inputs| - 1]);
      match InputBinding(prefix, inputs[|inputs| - 1])
      case None => init
      case Some(b) => init + [b]
  }

  function OutputBindings(prefix: string, st: Step, n: nat): (r: seq<Binding>)
    requires n <= |st.outputs|
    ensures |r| == n && forall i :: 0 <= i < n ==> r[i] == OutputBinding(prefix, st.name, st.outputs[i])
  {
    seq(n, i requires 0 <= i < n => OutputBinding(prefix, st.name, st.outputs[i]))
  }

  /** Later bindings replace earlier ones. */
  function Overlay(env: map<string, string>, bindings: seq<Binding>): map<string, string> {
    if bindings == [] then env
    else
      var last := bindings[|bindings| - 1];
      Overlay(env, bindings[..|bindings| - 1])[last.0 := last.1]
  }

  function EnvOf(pipeline: string, run: string, st: Step): map<string, string> {
    var prefix := Prefix(pipeline, run);
    Overlay(Overlay(BaseEnv(pipeline, run), OutputBindings(prefix, st, |st.outputs|)), InputBindings(prefix, st.inputs))
  }

  lemma OverlayNextInput(env: map<string, string>, prefix: string, inputs: seq<string>, i: nat)
    requires i < |inputs|
    ensures var before := Overlay(env, InputBindings(prefix, inputs[..i]));
            Overlay(env, InputBindings(prefix, inputs[..i + 1])) ==
            match InputBinding(prefix, inputs[i])
            case None => before
            case Some(b) => before[b.0 := b.1]
  {
    hide InputBinding;
    assert inputs[..i + 1][..i] == inputs[..i];
    if InputBinding(prefix, inputs[i]).Some? {
      var before, b := InputBindings(prefix, inputs[..i]), InputBinding(prefix, inputs[i]).value;
      assert (before + [b])[..|before|] == before;
    }
  }

  method ArtifactEnv(pipeline: string, run: string, st: Step) returns (env: map<string, string>)
    ensures env == EnvOf(pipeline, run, st)
  {
    var prefix := Prefix(pipeline, run);
    env := BaseEnv(pipeline, run);
    for i := 0 to |st.outputs|
      invariant env == Overlay(BaseEnv(pipeline, run), OutputBindings(prefix, st, i))
    {
      var b := OutputBinding(prefix, st.name, st.outputs[i]);
      assert OutputBindings(prefix, st, i + 1)[..i] == OutputBindings(prefix, st, i);
      env := env[b.0 := b.1];
    }
    ghost var outputs := env;
    for i := 0 to |st.inputs|
      invariant env == Overlay(outputs, InputBindings(prefix, st.inputs[..i]))
    {
      OverlayNextInput(outputs, prefix, st.inputs, i);
      var b := InputBinding(prefix, st.inputs[i]);
      if b.None? { continue; }
      env := env[b.value.0 := b.value.1];
    }
    assert st.inputs[..|st.inputs|] == st.inputs;
  }

  /* ---------- looking a variable up ---------- */

  /** If all bindings of a variable agree, that is its value. */
  lemma {:induction false} OverlayValue(env: map<string, string>, bindings: seq<Binding>, key: string, value: string)
    requires forall b :: b in bindings && b.0 == key ==> b.1 == value
    requires (exists b :: b in bindings && b.0 == key) || (key in env && env[key] == value)
    ensures key in Overlay(env, bindings) && Overlay(env, bindings)[key] == value
  {
    if bindings != [] {
      var init, last := bindings[..|bindings| - 1], bindings[|bindings| - 1];
      assert bindings == init + [last];
      if last.0 != key {
        if b :| b in bindings && b.0 == key { assert b in init; }
        OverlayValue(env, init, key, value);
      }
    }
  }

  lemma {:induction false} InputBindingOrigin(prefix: string, inputs: seq<string>, b: Binding) returns (i: nat)
    requires b in InputBindings(prefix, inputs)
    ensures i < |inputs| && InputBinding(prefix, inputs[i]) == Some(b)
  {
    hide InputBinding;
    var init := inputs[..|inputs| - 1];
    if b in InputBindings(prefix, init) {
      i := InputBindingOrigin(prefix, init, b);
    } else {
      i := |inputs| - 1;
    }
  }

  lemma {:induction false} InputBindingPresent(prefix: string, inputs: seq<string>, i: nat)
    requires i < |inputs| && InputBinding(prefix, inputs[i]).Some?
    ensures InputBinding(prefix, inputs[i]).value in InputBindings(prefix, inputs)
  {
    hide InputBinding;
    if i < |inputs| - 1 { InputBindingPresent(prefix, inputs[..|inputs| - 1], i); }
  }

  lemma PrefixesDistinct(a: string, b: string)
    ensures OUTPUT_VAR + a != INPUT_VAR + b
    ensures OUTPUT_VAR + a == OUTPUT_VAR + b <==> a == b
    ensures INPUT_VAR + a == INPUT_VAR + b <==> a == b
  {
    assert (OUTPUT_VAR + a)[7] == 'O' && (INPUT_VAR + b)[7] == 'I';
    assert (OUTPUT_VAR + a)[|OUTPUT_VAR|..] == a && (OUTPUT_VAR + b)[|OUTPUT_VAR|..] == b;
    assert (INPUT_VAR + a)[|INPUT_VAR|..] == a && (INPUT_VAR + b)[|INPUT_VAR|..] == b;
  }

  /** Convention variables never collide with a declaration's variable. */
  lemma BaseKeysDistinct(pipeline: string, run: string, tail: string)
    ensures OUTPUT_VAR + tail !in BaseEnv(pipeline, run) && INPUT_VAR + tail !in BaseEnv(pipeline, run)
  {
    assert (OUTPUT_VAR + tail)[7] == 'O' && (INPUT_VAR + tail)[7] == 'I';
    assert "LUNCUR_PIPELINE_ID"[7] == 'P' && "LUNCUR_PIPELINE_RUN_ID"[7] == 'P' && "LUNCUR_ARTIFACT_PREFIX"[7] == 'A';
  }

  lemma PathText(pipeline: string, run: string, step: string, output: string)
    ensures ArtifactPath(Prefix(pipeline, run), step, output)
         == "pipelines/" + pipeline + "/" + run + "/" + step + "/" + output
  {}

  /** A declared output's variable holds that output's path. */
  lemma OutputVariable(pipeline: string, run: string, st: Step, k: nat)
    requires OutputsLegal(st.outputs) && k < |st.outputs|
    ensures var key := OUTPUT_VAR + Upper(st.outputs[k]);
            key in EnvOf(pipeline, run, st)
            && EnvOf(pipeline, run, st)[key] == ArtifactPath(Prefix(pipeline, run), st.name, st.outputs[k])
    ensures var key := "LUNCUR_OUTPUT_" + Upper(st.outputs[k]);
            key in EnvOf(pipeline, run, st)
            && EnvOf(pipeline, run, st)[key]
               == "pipelines/" + pipeline + "/" + run + "/" + st.name + "/" + st.outputs[k]
  {
    hide Overlay, Upper, ArtifactPath, Prefix;
    var prefix := Prefix(pipeline, run);
    var key, value := OUTPUT_VAR + Upper(st.outputs[k]), ArtifactPath(prefix, st.name, st.outputs[k]);
    var env := Overlay(BaseEnv(pipeline, run), OutputBindings(prefix, st, |st.outputs|));
    PathText(pipeline, run, st.name, st.outputs[k]);
    OutputsOnly(prefix, BaseEnv(pipeline, run), st, k);
    forall b | b in InputBindings(prefix, st.inputs) ensures b.0 != key {
      var i := InputBindingOrigin(prefix, st.inputs, b);
      PrefixesDistinct(Upper(st.outputs[k]), Upper(CutAtSlash(st.inputs[i]).value.1));
    }
    OverlayValue(env, InputBindings(prefix, st.inputs), key, value);
  }

  lemma OutputsOnly(prefix: string, base: map<string, string>, st: Step, k: nat)
    requires OutputsLegal(st.outputs) && k < |st.outputs|
    ensures var b := OutputBinding(prefix, st.name, st.outputs[k]);
            var env := Overlay(base, OutputBindings(prefix, st, |st.outputs|));
            b.0 in env && env[b.0] == b.1
  {
    hide Overlay, Upper, ArtifactPath;
    var outs := OutputBindings(prefix, st, |st.outputs|);
    forall b | b in outs && b.0 == outs[k].0 ensures b.1 == outs[k].1 {
      var j :| 0 <= j < |outs| && outs[j] == b;
      PrefixesDistinct(Upper(st.outputs[j]), Upper(st.outputs[k]));
      if j < k { } else if k < j { }
    }
    assert outs[k] in outs;
    OverlayValue(base, outs, outs[k].0, outs[k].1);
  }

  /** A wired input's variable holds the path of the output it names. */
  lemma InputVariable(pipeline: string, run: string, steps: map<string, Step>, st: Step, k: nat)
    requires InputsWired(steps, st) && k < |st.inputs|
    ensures ParseInput(st.inputs[k]).Some?
    ensures var p := ParseInput(st.inputs[k]).value;
            var key := INPUT_VAR + Upper(p.1);
            key in EnvOf(pipeline, run, st)
            && EnvOf(pipeline, run, st)[key] == ArtifactPath(Prefix(pipeline, run), p.0, p.1)
    ensures var p := ParseInput(st.inputs[k]).value;
            var key := "LUNCUR_INPUT_" + Upper(p.1);
            key in EnvOf(pipeline, run, st)
            && EnvOf(pipeline, run, st)[key] == "pipelines/" + pipeline + "/" + run + "/" + p.0 + "/" + p.1
  {
    hide Reach;
    assert InputWired(steps, st.name, st.inputs[k]);
    var prefix, p := Prefix(pipeline, run), ParseInput(st.inputs[k]).value;
    var key, value := INPUT_VAR + Upper(p.1), ArtifactPath(prefix, p.0, p.1);
    var ins := InputBindings(prefix, st.inputs);
    PathText(pipeline, run, p.0, p.1);
    InputBindingPresent(prefix, st.inputs, k);
    assert (key, value) in ins;
    forall b | b in ins && b.0 == key ensures b.1 == value {
      var i := InputBindingOrigin(prefix, st.inputs, b);
      assert InputWired(steps, st.name, st.inputs[i]);
      PrefixesDistinct(Upper(ParseInput(st.inputs[i]).value.1), Upper(p.1));
      assert InputKey(st.inputs[i]) == InputKey(st.inputs[k]);
      SameKeySameInput(steps, st, i, k);
    }
    OverlayValue(Overlay(BaseEnv(pipeline, run), OutputBindings(prefix, st, |st.outputs|)), ins, key, value);
  }

  lemma SameKeySameInput(steps: map<string, Step>, st: Step, i: nat, j: nat)
    requires InputsWired(steps, st) && i < |st.inputs| && j < |st.inputs|
    requires InputKey(st.inputs[i]) == InputKey(st.inputs[j])
    ensures st.inputs[i] == st.inputs[j]
  {}

  /* ---------- the theorems ---------- */

  lemma {:induction false} OverlayKeys(env: map<string, string>, bindings: seq<Binding>, key: string)
    ensures key in Overlay(env, bindings) <==> key in env || exists b :: b in bindings && b.0 == key
  {
    if bindings != [] {
      var init, last := bindings[..|bindings| - 1], bindings[|bindings| - 1];
      assert bindings == init + [last];
      OverlayKeys(env, init, key);
    }
  }

  lemma {:induction false} OverlayKeeps(env: map<string, string>, bindings: seq<Binding>, key: string)
    requires forall b :: b in bindings ==> b.0 != key
    ensures key in env ==> key in Overlay(env, bindings) && Overlay(env, bindings)[key] == env[key]
  {
    if bindings != [] {
      var init, last := bindings[..|bindings| - 1], bindings[|bindings| - 1];
      assert bindings == init + [last];
      OverlayKeeps(env, init, key);
    }
  }

  /** The input is `a`, a slash and `name`, cut at its first slash; either part may be empty. */
  ghost predicate CutAs(input: string, a: string, name: string) { '/' !in a && input == a + "/" + name }

  lemma CutAsExactly(input: string)
    ensures CutAtSlash(input).Some? ==> CutAs(input, CutAtSlash(input).value.0, CutAtSlash(input).value.1)
    ensures forall a, name :: CutAs(input, a, name) ==> CutAtSlash(input) == Some((a, name))
  {
    var i := IndexByte(input, '/');
    if i != -1 { assert input == input[..i] + "/" + input[i + 1..]; }
    forall a, name | CutAs(input, a, name) ensures CutAtSlash(input) == Some((a, name)) {
      IndexByteOfPrefix(a, '/', name);
      assert input == a + ['/'] + name;
      assert input[..|a|] == a && input[|a| + 1..] == name;
    }
  }

  /** The three convention variables are there with their values, and beside the declared variables there is
      nothing else. */
  lemma EnvExactly(pipeline: string, run: string, st: Step, key: string)
    ensures key in EnvOf(pipeline, run, st) <==>
            || key in {"LUNCUR_PIPELINE_ID", "LUNCUR_PIPELINE_RUN_ID", "LUNCUR_ARTIFACT_PREFIX"}
            || (exists o :: o in st.outputs && key == "LUNCUR_OUTPUT_" + Upper(o))
            || (exists x, a, name :: x in st.inputs && CutAs(x, a, name) && key == "LUNCUR_INPUT_" + Upper(name))
    ensures var env := EnvOf(pipeline, run, st);
            && "LUNCUR_PIPELINE_ID" in env && env["LUNCUR_PIPELINE_ID"] == pipeline
            && "LUNCUR_PIPELINE_RUN_ID" in env && env["LUNCUR_PIPELINE_RUN_ID"] == run
            && "LUNCUR_ARTIFACT_PREFIX" in env
            && env["LUNCUR_ARTIFACT_PREFIX"] == "pipelines/" + pipeline + "/" + run + "/"
  {
    hide Overlay, Upper, ArtifactPath, CutAtSlash;
    var prefix, base := Prefix(pipeline, run), BaseEnv(pipeline, run);
    var outs, ins := OutputBindings(prefix, st, |st.outputs|), InputBindings(prefix, st.inputs);
    OverlayKeys(base, outs, key);
    OverlayKeys(Overlay(base, outs), ins, key);
    OutputKeys(prefix, st, key);
    InputKeys(prefix, st.inputs, key);
    forall k | k in base ensures k in EnvOf(pipeline, run, st) && EnvOf(pipeline, run, st)[k] == base[k] {
      forall b | b in outs ensures b.0 != k { DeclaredIsNoConvention(pipeline, run, prefix, st, b, k); }
      OverlayKeeps(base, outs, k);
      forall b | b in ins ensures b.0 != k {
        var i := InputBindingOrigin(prefix, st.inputs, b);
        BaseKeysDistinct(pipeline, run, Upper(CutAtSlash(st.inputs[i]).value.1));
      }
      OverlayKeeps(Overlay(base, outs), ins, k);
    }
  }

  lemma DeclaredIsNoConvention(pipeline: string, run: string, prefix: string, st: Step, b: Binding, k: string)
    requires b in OutputBindings(prefix, st, |st.outputs|) && k in BaseEnv(pipeline, run)
    ensures b.0 != k
  {
    hide Upper, ArtifactPath;
    var i :| 0 <= i < |st.outputs| && b == OutputBinding(prefix, st.name, st.outputs[i]);
    BaseKeysDistinct(pipeline, run, Upper(st.outputs[i]));
  }

  lemma OutputKeys(prefix: string, st: Step, key: string)
    ensures (exists b :: b in OutputBindings(prefix, st, |st.outputs|) && b.0 == key)
       <==> exists o :: o in st.outputs && key == "LUNCUR_OUTPUT_" + Upper(o)
  {
    hide Upper, ArtifactPath;
    var outs := OutputBindings(prefix, st, |st.outputs|);
    if o :| o in st.outputs && key == "LUNCUR_OUTPUT_" + Upper(o) {
      var i :| 0 <= i < |st.outputs| && st.outputs[i] == o;
      assert outs[i] in outs && outs[i].0 == key;
    }
  }

  /** The output `model` is announced as `LUNCUR_OUTPUT_MODEL`. */
  lemma ModelVariable(prefix: string, step: string)
    ensures OutputBinding(prefix, step, "model").0 == "LUNCUR_OUTPUT_MODEL"
  {
    assert forall i :: 0 <= i < 5 ==> Upper("model")[i] == "MODEL"[i];
    assert Upper("model") == "MODEL";
  }

  lemma InputKeys(prefix: string, inputs: seq<string>, key: string)
    ensures (exists b :: b in InputBindings(prefix, inputs) && b.0 == key)
       <==> exists x, a, name :: x in inputs && CutAs(x, a, name) && key == "LUNCUR_INPUT_" + Upper(name)
  {
    hide Upper, ArtifactPath, CutAtSlash;
    if b :| b in InputBindings(prefix, inputs) && b.0 == key {
      var i := InputBindingOrigin(prefix, inputs, b);
      CutAsExactly(inputs[i]);
      assert inputs[i] in inputs;
    }
    if x, a, name :| x in inputs && CutAs(x, a, name) && key == "LUNCUR_INPUT_" + Upper(name) {
      CutAsExactly(x);
      var i :| 0 <= i < |inputs| && inputs[i] == x;
      InputBindingPresent(prefix, inputs, i);
    }
  }

  /** In every accepted pipeline an input's producer runs earlier, and the consumer's input variable
      equals the producer's output variable. */
  lemma InputMeetsOutput(raw: map<string, RawStep>, steps: map<string, Step>, order: seq<string>, pipeline: string,
                         run: string, j: nat, k: nat)
    requires WellFormed(raw) && StepsOf(raw, steps) && ValidOrder(NeedsGraph(raw), order)
    requires j < |order| && order[j] in raw && k < |raw[order[j]].inputs|
    ensures exists a, b ::
              && IsRef(raw[order[j]].inputs[k], a, b) && a in raw && a in order[..j] && b in raw[a].outputs
              && var consumer, producer := EnvOf(pipeline, run, steps[order[j]]), EnvOf(pipeline, run, steps[a]);
                 && "LUNCUR_INPUT_" + Upper(b) in consumer && "LUNCUR_OUTPUT_" + Upper(b) in producer
                 && consumer["LUNCUR_INPUT_" + Upper(b)] == producer["LUNCUR_OUTPUT_" + Upper(b)]
  {
    hide Reach, Acyclic, EnvOf, StepLegal, Upper, InputsWired, Collide;
    var n, input := order[j], raw[order[j]].inputs[k];
    var st := steps[n];
    InputsAgree(raw, steps, n);
    InputVariable(pipeline, run, steps, st, k);
    ServedIsWired(raw, steps, n, input);
    assert InputServed(raw, n, input);
    assert InputWired(steps, n, input);
    ParsesAs(input);
    var p := ParseInput(input).value;
    SameGraph(raw, steps);
    ReachIsEarlier(NeedsGraph(raw), order, j, p.0);
    var src := steps[p.0];
    var o :| 0 <= o < |src.outputs| && src.outputs[o] == p.1;
    LegalOutputs(raw, p.0);
    OutputVariable(pipeline, run, src, o);
    assert IsRef(input, p.0, p.1);
  }

  lemma LegalOutputs(raw: map<string, RawStep>, n: string)
    requires WellFormed(raw) && n in raw
    ensures OutputsLegal(raw[n].outputs)
  {
    hide Acyclic, Collide, InputServed, OutputsLegal, ValidName, NeedsGraph;
    assert StepLegal(raw[n]);
  }

  /** Distinct (step, output) pairs of valid steps have distinct artifact paths. */
  lemma PathsDistinct(prefix: string, stepA: string, outA: string, stepB: string, outB: string)
    requires ValidName(stepA) && ValidName(stepB)
    ensures ArtifactPath(prefix, stepA, outA) == ArtifactPath(prefix, stepB, outB) <==> stepA == stepB && outA == outB
  {
    var a, b := stepA + ['/'] + outA, stepB + ['/'] + outB;
    assert ArtifactPath(prefix, stepA, outA) == prefix + a && ArtifactPath(prefix, stepB, outB) == prefix + b;
    if prefix + a == prefix + b {
      assert (prefix + a)[|prefix|..] == a && (prefix + b)[|prefix|..] == b;
      assert '/' !in stepA && '/' !in stepB;
      IndexByteOfPrefix(stepA, '/', outA);
      IndexByteOfPrefix(stepB, '/', outB);
      assert a[..|stepA|] == stepA && a[|stepA| + 1..] == outA;
      assert b[..|stepB|] == stepB && b[|stepB| + 1..] == outB;
    }
  }

  /** No two different declarations of an accepted step share an environment variable. */
  lemma DeclarationsDistinct(raw: map<string, RawStep>, n: string, i: nat, j: nat)
    requires WellFormed(raw) && n in raw
    ensures i < |raw[n].outputs| && j < |raw[n].outputs| && i != j ==>
              OUTPUT_VAR + Upper(raw[n].outputs[i]) != OUTPUT_VAR + Upper(raw[n].outputs[j])
    ensures i < |raw[n].inputs| && j < |raw[n].inputs| && raw[n].inputs[i] != raw[n].inputs[j] ==>
              INPUT_VAR + InputKey(raw[n].inputs[i]) != INPUT_VAR + InputKey(raw[n].inputs[j])
    ensures i < |raw[n].outputs| && j < |raw[n].inputs| ==>
              OUTPUT_VAR + Upper(raw[n].outputs[i]) != INPUT_VAR + InputKey(raw[n].inputs[j])
  {
    hide Reach, Acyclic, InputKey, InputWired, Collide, InputServed, InputsWired;
    var rs := raw[n];
    InputsAgree(raw, Steps(raw), n);
    LegalOutputs(raw, n);
    if i < |rs.outputs| && j < |rs.outputs| { PrefixesDistinct(Upper(rs.outputs[i]), Upper(rs.outputs[j])); }
    if i < |rs.inputs| && j < |rs.inputs| {
      PrefixesDistinct(InputKey(rs.inputs[i]), InputKey(rs.inputs[j]));
      if InputKey(rs.inputs[i]) == InputKey(rs.inputs[j]) { SameKeySameInput(Steps(raw), Steps(raw)[n], i, j); }
    }
    if i < |rs.outputs| && j < |rs.inputs| { PrefixesDistinct(Upper(rs.outputs[i]), InputKey(rs.inputs[j])); }
  }
}
