/** Compilation of a parsed pipeline.yaml: every check, in order, and the exact set of accepted inputs. */
module Compiler {
  import opened Wrappers
  import opened Graph
  import opened Strings
  import opened Pipeline
  import opened Kahn
  import opened Regexp

  const MAX_YAML_BYTES := 64 * 1024

  /** One entry of the `steps` map as unmarshalled; absent fields are zero values. */
  datatype RawStep = RawStep(
    needs: seq<string>, app: string, image: string, command: seq<string>, env: map<string, string>,
    gpu: int, deploy: string, scale: Option<ScaleAction>, notify: string, retries: int,
    inputs: seq<string>, outputs: seq<string>)

  datatype CompileError =
    | TooLarge | ParseFailed | NoSteps
    | InvalidName(step: string)
    | KindCount(step: string)
    | IllegalField(step: string, field: string)
    | BadReplicas(step: string)
    | BadMessage(step: string)
    | BadEnvKey(step: string, key: string)
    | BadOutput(step: string, output: string)
    | DuplicateOutput(step: string, output: string)
    | SelfNeed(step: string)
    | UnknownNeed(step: string, need: string)
    | Cycle(step: string)
    | MalformedInput(step: string, input: string)
    | InputUnknownStep(step: string, input: string)
    | InputNotUpstream(step: string, input: string)
    | InputUndeclared(step: string, input: string)
    | InputCollision(step: string, input: string, other: string)
    | CycleInSort

  /* ---------- lexical rules ---------- */

  predicate LowerAlnum(c: char) { 'a' <= c <= 'z' || '0' <= c <= '9' }

  /** stepNameRe together with the 20-character cap. */
  predicate ValidName(n: string) {
    1 <= |n| <= 20 && LowerAlnum(n[0]) && LowerAlnum(n[|n| - 1]) &&
    forall i :: 0 <= i < |n| ==> LowerAlnum(n[i]) || n[i] == '-'
  }

  predicate KeyStart(c: char) { 'a' <= c <= 'z' || 'A' <= c <= 'Z' || c == '_' }

  /** envKeyRe. */
  predicate ValidKey(k: string) {
    k != [] && KeyStart(k[0]) && forall i :: 0 <= i < |k| ==> KeyStart(k[i]) || '0' <= k[i] <= '9'
  }

  function UpperChar(c: char): char {
    if 'a' <= c <= 'z' then ((c as int) - 32) as char else c
  }

  /** strings.ToUpper; it is only ever applied to names that match envKeyRe. */
  function Upper(s: string): (r: string)
    ensures |r| == |s| && forall i :: 0 <= i < |s| ==> r[i] == UpperChar(s[i])
  {
    if s == [] then [] else [UpperChar(s[0])] + Upper(s[1..])
  }

  /** The regular expression of step names: `[a-z0-9]([a-z0-9-]*[a-z0-9])?`. */
  ghost function StepNameRe(): Regex { Cat(Class(ALNUM), Opt(Cat(Star(Class(ALNUM_DASH)), Class(ALNUM)))) }

  /** The regular expression of environment keys and output names: `[a-zA-Z_][a-zA-Z0-9_]*`. */
  ghost function EnvKeyRe(): Regex { Cat(Class(KEY_START), Star(Class(KEY_REST))) }

  ghost const ALNUM := Union(Span('a', 'z'), Span('0', '9'))
  ghost const ALNUM_DASH := Union(ALNUM, Span('-', '-'))
  ghost const KEY_START := Union(Span('a', 'z'), Union(Span('A', 'Z'), Span('_', '_')))
  ghost const KEY_REST := Union(KEY_START, Span('0', '9'))

  lemma CharClasses(c: char)
    ensures Has(ALNUM, c) <==> LowerAlnum(c)
    ensures Has(ALNUM_DASH, c) <==> LowerAlnum(c) || c == '-'
    ensures Has(KEY_START, c) <==> KeyStart(c)
    ensures Has(KEY_REST, c) <==> KeyStart(c) || '0' <= c <= '9'
  {
    assert Has(Span('A', 'Z'), c) <==> 'A' <= c <= 'Z';
    assert Has(Span('_', '_'), c) <==> c == '_';
  }

  /** Between a first and a last character of the class there is nothing else to check. */
  lemma Inner(n: string)
    requires |n| > 1 && LowerAlnum(n[0]) && LowerAlnum(n[|n| - 1])
    ensures (forall i :: 0 <= i < |n| ==> LowerAlnum(n[i]) || n[i] == '-') <==> AllIn(n[1..|n| - 1], ALNUM_DASH)
  {
    hide LowerAlnum, Has;
    var mid := n[1..|n| - 1];
    forall c ensures Has(ALNUM_DASH, c) <==> LowerAlnum(c) || c == '-' { CharClasses(c); }
    if AllIn(mid, ALNUM_DASH) {
      forall i | 0 <= i < |n| ensures LowerAlnum(n[i]) || n[i] == '-' {
        if 0 < i < |n| - 1 { assert mid[i - 1] == n[i]; }
      }
    }
  }

  /** A name is valid exactly when it matches the expression and has at most twenty characters. */
  lemma ValidNameIsRegexp(n: string)
    ensures ValidName(n) <==> Matches(StepNameRe(), n) && |n| <= 20
  {
    hide Matches, LowerAlnum, AllIn, Has;
    Delimited(ALNUM, ALNUM_DASH, n);
    if n != "" {
      CharClasses(n[0]);
      CharClasses(n[|n| - 1]);
      if |n| > 1 && LowerAlnum(n[0]) && LowerAlnum(n[|n| - 1]) { Inner(n); }
    }
  }

  lemma ValidKeyIsRegexp(k: string)
    ensures ValidKey(k) <==> Matches(EnvKeyRe(), k)
  {
    hide Matches, KeyStart, Has;
    ClassThenMany(KEY_START, KEY_REST, k);
    if k != "" {
      forall i | 0 <= i < |k| ensures Has(KEY_REST, k[i]) <==> KeyStart(k[i]) || '0' <= k[i] <= '9' {
        CharClasses(k[i]);
      }
      CharClasses(k[0]);
      assert k == [k[0]] + k[1..];
    }
  }

  /** Upper-casing maps `a` to `z` onto `A` to `Z`, in order, and leaves everything else as it is. */
  lemma UpperExactly(s: string, i: nat)
    requires i < |s|
    ensures |Upper(s)| == |s|
    ensures 'a' <= s[i] <= 'z' ==>
              'A' <= Upper(s)[i] <= 'Z' && Upper(s)[i] as int - 'A' as int == s[i] as int - 'a' as int
    ensures !('a' <= s[i] <= 'z') ==> Upper(s)[i] == s[i]
  {}

  /** `step/name`, cut at the first slash, both sides nonempty. */
  function ParseInput(input: string): Option<(string, string)> {
    var i := IndexByte(input, '/');
    if i <= 0 || i == |input| - 1 then None else Some((input[..i], input[i + 1..]))
  }

  /** An input parses exactly when it is a nonempty slash-free step name, a slash and a nonempty output name. */
  lemma ParseInputExact(input: string, a: string, b: string)
    ensures ParseInput(input) == Some((a, b)) <==> a != [] && b != [] && '/' !in a && input == a + ['/'] + b
  {
    var i := IndexByte(input, '/');
    if '/' !in a && input == a + ['/'] + b {
      IndexByteOfPrefix(a, '/', b);
      assert input[..|a|] == a && input[|a| + 1..] == b;
    }
    if i != -1 { assert input == input[..i] + ['/'] + input[i + 1..]; }
  }

  /** The name part of an input, upper-cased: the tail of its environment variable. */
  function InputKey(input: string): string {
    match ParseInput(input)
    case Some(p) => Upper(p.1)
    case None => ""
  }

  /* ---------- what a legal spec is ---------- */

  predicate HasKind(rs: RawStep, k: Kind) {
    match k
    case App => rs.app != ""
    case Image => rs.image != ""
    case Deploy => rs.deploy != ""
    case Scale => rs.scale.Some?
    case Notify => rs.notify != ""
  }

  ghost predicate OnlyKind(rs: RawStep, k: Kind) {
    HasKind(rs, k) && forall other :: HasKind(rs, other) ==> other == k
  }

  ghost predicate FieldsLegal(k: Kind, rs: RawStep) {
    && (k != Image ==> rs.command == [] && rs.gpu == 0)
    && (k != App && k != Image ==> rs.env == map[] && rs.retries == 0 && rs.inputs == [] && rs.outputs == [])
  }

  /** The field is set although steps of this kind must not have it. */
  ghost predicate Offends(k: Kind, rs: RawStep, field: string) {
    || (field == "command" && k != Image && rs.command != [])
    || (field == "gpu" && k != Image && rs.gpu != 0)
    || (field == "env" && k != App && k != Image && rs.env != map[])
    || (field == "retries" && k != App && k != Image && rs.retries != 0)
    || (field == "inputs" && k != App && k != Image && rs.inputs != [])
    || (field == "outputs" && k != App && k != Image && rs.outputs != [])
  }

  ghost predicate ValuesLegal(k: Kind, rs: RawStep) {
    && (k == Scale && rs.scale.Some? ==> 0 <= rs.scale.value.replicas <= 50)
    && (k == Notify ==> 1 <= ByteLen(rs.notify) <= 500)
    && (forall key :: key in rs.env ==> ValidKey(key))
    && OutputsLegal(rs.outputs)
  }

  ghost predicate StepLegal(rs: RawStep) {
    exists k :: OnlyKind(rs, k) && FieldsLegal(k, rs) && ValuesLegal(k, rs)
  }

  /** The input names a declared output of a transitively needed step. */
  ghost predicate InputWired(steps: map<string, Step>, name: string, input: string) {
    var p := ParseInput(input);
    p.Some? && p.value.0 in steps && Reach(Edges(steps), name, p.value.0) && p.value.1 in steps[p.value.0].outputs
  }

  ghost predicate InputsWired(steps: map<string, Step>, st: Step) {
    && (forall i :: 0 <= i < |st.inputs| ==> InputWired(steps, st.name, st.inputs[i]))
    && (forall i, j :: 0 <= i < j < |st.inputs| && InputKey(st.inputs[i]) == InputKey(st.inputs[j]) ==>
          st.inputs[i] == st.inputs[j])
  }

  ghost predicate NeedsDeclared(steps: map<string, Step>) {
    forall n :: n in steps ==> OwnNeedsDeclared(steps, n)
  }

  ghost predicate OwnNeedsDeclared(steps: map<string, Step>, n: string)
    requires n in steps
  {
    forall d :: d in steps[n].needs ==> d != n && d in steps
  }

  /** Kind of a legal step; any kind for an illegal one. */
  function KindOf(rs: RawStep): (k: Kind)
    ensures forall only :: OnlyKind(rs, only) ==> k == only
  {
    assert HasKind(rs, App) <==> rs.app != "";
    assert HasKind(rs, Image) <==> rs.image != "";
    assert HasKind(rs, Deploy) <==> rs.deploy != "";
    assert HasKind(rs, Scale) <==> rs.scale.Some?;
    if rs.app != "" then App else if rs.image != "" then Image else if rs.deploy != "" then Deploy
    else if rs.scale.Some? then Scale else Notify
  }

  /** The step carries everything the raw step says, under its name, and its kind if the raw step has one kind. */
  ghost predicate CompiledFrom(name: string, rs: RawStep, st: Step) {
    && st.name == name && st.needs == rs.needs && st.app == rs.app && st.image == rs.image
    && st.command == rs.command && st.env == rs.env && st.gpu == rs.gpu && st.deploy == rs.deploy
    && st.scale == rs.scale && st.notify == rs.notify && st.retries == rs.retries
    && st.inputs == rs.inputs && st.outputs == rs.outputs
    && forall k :: OnlyKind(rs, k) ==> st.kind == k
  }

  function ToStep(name: string, rs: RawStep): (st: Step)
    ensures CompiledFrom(name, rs, st)
  {
    Step(name, rs.needs, rs.app, rs.image, rs.command, rs.env, rs.gpu, rs.deploy, rs.scale, rs.notify, rs.retries,
         rs.inputs, rs.outputs, KindOf(rs))
  }

  /** The compiled steps of the raw ones. */
  ghost predicate StepsOf(raw: map<string, RawStep>, steps: map<string, Step>) {
    steps.Keys == raw.Keys && forall n :: n in raw ==> CompiledFrom(n, raw[n], steps[n])
  }

  function Steps(raw: map<string, RawStep>): (steps: map<string, Step>)
    ensures StepsOf(raw, steps)
  {
    map n | n in raw :: ToStep(n, raw[n])
  }

  /* ---------- accepted pipelines, in terms of the input ---------- */

  /** The needs as they are written. */
  ghost function NeedsGraph(raw: map<string, RawStep>): Digraph { map n | n in raw :: raw[n].needs }

  /** The input is written as step `a`, a slash, and output `b`. */
  ghost predicate IsRef(input: string, a: string, b: string) {
    a != [] && b != [] && '/' !in a && input == a + "/" + b
  }

  /** The input names an output of a step that this one needs, directly or not. */
  ghost predicate InputServed(raw: map<string, RawStep>, n: string, input: string) {
    exists a, b :: IsRef(input, a, b) && a in raw && Reach(NeedsGraph(raw), n, a) && b in raw[a].outputs
  }

  /** Two inputs that would share an environment variable. */
  ghost predicate Collide(x: string, y: string) {
    exists a, b, c, d :: IsRef(x, a, b) && IsRef(y, c, d) && Upper(b) == Upper(d)
  }

  /** Exactly the pipelines Compile accepts. */
  ghost predicate WellFormed(raw: map<string, RawStep>) {
    && raw != map[]
    && (forall n :: n in raw ==> ValidName(n) && StepLegal(raw[n]))
    && (forall n, d :: n in raw && d in raw[n].needs ==> d != n && d in raw)
    && Acyclic(NeedsGraph(raw))
    && (forall n, x :: n in raw && x in raw[n].inputs ==> InputServed(raw, n, x))
    && (forall n, x, y :: n in raw && x in raw[n].inputs && y in raw[n].inputs && Collide(x, y) ==> x == y)
  }

  /* ---------- the same, in terms of the compiled steps ---------- */

  ghost predicate StepsWellFormed(raw: map<string, RawStep>) {
    && raw != map[]
    && (forall n :: n in raw ==> ValidName(n) && StepLegal(raw[n]))
    && NeedsDeclared(Steps(raw))
    && Acyclic(Edges(Steps(raw)))
    && (forall n :: n in raw ==> InputsWired(Steps(raw), Steps(raw)[n]))
  }

  ghost predicate InputError(steps: map<string, Step>, st: Step, e: CompileError) {
    match e
    case MalformedInput(n, i) => n == st.name && i in st.inputs && ParseInput(i).None?
    case InputUnknownStep(n, i) => n == st.name && i in st.inputs && ParseInput(i).Some?
                                   && ParseInput(i).value.0 !in steps
    case InputNotUpstream(n, i) => n == st.name && i in st.inputs && ParseInput(i).Some?
                                   && !Reach(Edges(steps), n, ParseInput(i).value.0)
    case InputUndeclared(n, i) => n == st.name && i in st.inputs && ParseInput(i).Some?
                                  && ParseInput(i).value.0 in steps
                                  && ParseInput(i).value.1 !in steps[ParseInput(i).value.0].outputs
    case InputCollision(n, a, b) => n == st.name && a in st.inputs && b in st.inputs
                                    && ParseInput(a).Some? && ParseInput(b).Some?
                                    && a != b && InputKey(a) == InputKey(b)
    case _ => false
  }

  predicate IsInputError(e: CompileError) {
    e.MalformedInput? || e.InputUnknownStep? || e.InputNotUpstream? || e.InputUndeclared? || e.InputCollision?
  }

  /** What an error about one step on its own reports is there. */
  ghost predicate OneStepJustified(raw: map<string, RawStep>, e: CompileError) {
    && OneStepError(e) && e.step in raw
    && var rs := raw[e.step];
       && (e.InvalidName? ==> !ValidName(e.step))
       && (e.KindCount? ==> forall k :: !OnlyKind(rs, k))
       && (e.IllegalField? ==> exists k :: OnlyKind(rs, k) && Offends(k, rs, e.field))
       && (e.BadReplicas? ==> HasKind(rs, Scale) && !(0 <= rs.scale.value.replicas <= 50))
       && (e.BadMessage? ==> HasKind(rs, Notify) && !(1 <= ByteLen(rs.notify) <= 500))
       && (e.BadEnvKey? ==> e.key in rs.env && !ValidKey(e.key))
       && (e.BadOutput? ==> e.output in rs.outputs && !ValidKey(e.output))
       && (e.DuplicateOutput? ==> RepeatsOutput(rs.outputs, e.output))
  }

  /** The violation an error reports really is there. */
  ghost predicate StepsJustified(raw: map<string, RawStep>, e: CompileError) {
    || (e == NoSteps && raw == map[])
    || OneStepJustified(raw, e)
    || NeedError(Steps(raw), e)
    || (e.Cycle? && Reach(Edges(Steps(raw)), e.step, e.step))
    || (IsInputError(e) && e.step in raw && InputError(Steps(raw), Steps(raw)[e.step], e))
  }

  /** A need of the step is the step itself, or no step at all. */
  ghost predicate NeedJustified(raw: map<string, RawStep>, e: CompileError) {
    || (e.SelfNeed? && e.step in raw && e.step in raw[e.step].needs)
    || (e.UnknownNeed? && e.step in raw && e.need in raw[e.step].needs && e.need !in raw)
  }

  /** An input of the step is not written as `a/b`, or not for a step `a` that is there, or not for one it needs, or
      not for an output `b` of that, or shares its variable with another. */
  ghost predicate InputJustified(raw: map<string, RawStep>, e: CompileError) {
    && IsInputError(e) && e.step in raw && e.input in raw[e.step].inputs
    && (e.MalformedInput? ==> forall a, b :: !IsRef(e.input, a, b))
    && (e.InputUnknownStep? ==> exists a, b :: IsRef(e.input, a, b) && a !in raw)
    && (e.InputNotUpstream? ==> exists a, b :: IsRef(e.input, a, b) && !Reach(NeedsGraph(raw), e.step, a))
    && (e.InputUndeclared? ==> exists a, b :: IsRef(e.input, a, b) && a in raw && b !in raw[a].outputs)
    && (e.InputCollision? ==> e.other in raw[e.step].inputs && e.input != e.other && Collide(e.input, e.other))
  }

  /** The same, in terms of the input. */
  ghost predicate Justified(raw: map<string, RawStep>, e: CompileError) {
    || (e == NoSteps && raw == map[])
    || OneStepJustified(raw, e)
    || NeedJustified(raw, e)
    || (e.Cycle? && Reach(NeedsGraph(raw), e.step, e.step))
    || InputJustified(raw, e)
  }

  lemma SameGraph(raw: map<string, RawStep>, steps: map<string, Step>)
    requires StepsOf(raw, steps)
    ensures Edges(steps) == NeedsGraph(raw)
  {}

  lemma ParsesAs(input: string)
    ensures ParseInput(input).Some? ==> IsRef(input, ParseInput(input).value.0, ParseInput(input).value.1)
    ensures forall a, b :: IsRef(input, a, b) ==> ParseInput(input) == Some((a, b))
  {
    hide ParseInput;
    var p := ParseInput(input);
    if p.Some? { ParseInputExact(input, p.value.0, p.value.1); }
    forall a, b | IsRef(input, a, b) ensures p == Some((a, b)) { ParseInputExact(input, a, b); }
  }

  lemma ServedIsWired(raw: map<string, RawStep>, steps: map<string, Step>, n: string, input: string)
    requires StepsOf(raw, steps) && n in raw
    ensures InputServed(raw, n, input) <==> InputWired(steps, n, input)
  {
    hide Reach, ParseInput, NeedsGraph, Edges;
    SameGraph(raw, steps);
    ParsesAs(input);
  }

  lemma CollideIsSameKey(x: string, y: string)
    requires ParseInput(x).Some? && ParseInput(y).Some?
    ensures Collide(x, y) <==> InputKey(x) == InputKey(y)
  {
    hide ParseInput, Upper;
    ParsesAs(x);
    ParsesAs(y);
  }

  lemma InputsAgree(raw: map<string, RawStep>, steps: map<string, Step>, n: string)
    requires StepsOf(raw, steps) && n in raw
    ensures InputsWired(steps, steps[n]) <==>
            && (forall x :: x in raw[n].inputs ==> InputServed(raw, n, x))
            && (forall x, y :: x in raw[n].inputs && y in raw[n].inputs && Collide(x, y) ==> x == y)
  {
    hide Reach, InputServed, InputWired, Collide, InputKey;
    var st := steps[n];
    forall x ensures InputServed(raw, n, x) <==> InputWired(steps, n, x) { ServedIsWired(raw, steps, n, x); }
    if forall x :: x in raw[n].inputs ==> InputServed(raw, n, x) {
      forall x, y | x in raw[n].inputs && y in raw[n].inputs ensures Collide(x, y) <==> InputKey(x) == InputKey(y) {
        WiredParses(steps, n, x);
        WiredParses(steps, n, y);
        CollideIsSameKey(x, y);
      }
      KeysApart(st.inputs);
    }
  }

  lemma WiredParses(steps: map<string, Step>, n: string, input: string)
    requires InputWired(steps, n, input)
    ensures ParseInput(input).Some?
  {}

  /** A condition on pairs of positions is one on pairs of members. */
  lemma KeysApart(inputs: seq<string>)
    ensures (forall i, j :: 0 <= i < j < |inputs| && InputKey(inputs[i]) == InputKey(inputs[j]) ==>
               inputs[i] == inputs[j])
       <==> (forall x, y :: x in inputs && y in inputs && InputKey(x) == InputKey(y) ==> x == y)
  {
    hide InputKey;
    if forall i, j :: 0 <= i < j < |inputs| && InputKey(inputs[i]) == InputKey(inputs[j]) ==> inputs[i] == inputs[j] {
      forall x, y | x in inputs && y in inputs && InputKey(x) == InputKey(y) ensures x == y {
        var i :| 0 <= i < |inputs| && inputs[i] == x;
        var j :| 0 <= j < |inputs| && inputs[j] == y;
      }
    }
  }

  lemma WellFormedAgrees(raw: map<string, RawStep>)
    ensures WellFormed(raw) <==> StepsWellFormed(raw)
  {
    hide Reach, Acyclic, InputsWired, InputServed, Collide, StepLegal, ValidName;
    SameGraph(raw, Steps(raw));
    forall n | n in raw
      ensures InputsWired(Steps(raw), Steps(raw)[n]) <==>
              && (forall x :: x in raw[n].inputs ==> InputServed(raw, n, x))
              && (forall x, y :: x in raw[n].inputs && y in raw[n].inputs && Collide(x, y) ==> x == y)
    {
      InputsAgree(raw, Steps(raw), n);
    }
  }

  lemma JustifiedAgrees(raw: map<string, RawStep>, e: CompileError)
    requires StepsJustified(raw, e)
    ensures Justified(raw, e)
  {
    hide Reach, InputError, InputJustified, OneStepJustified, NeedJustified, NeedsGraph, Edges, CompiledFrom, NeedError;
    SameGraph(raw, Steps(raw));
    if IsInputError(e) && e.step in raw && InputError(Steps(raw), Steps(raw)[e.step], e) {
      InputErrorAgrees(raw, Steps(raw), e);
    } else if NeedError(Steps(raw), e) {
      NeedErrorAgrees(raw, Steps(raw), e);
    }
  }

  lemma NeedErrorAgrees(raw: map<string, RawStep>, steps: map<string, Step>, e: CompileError)
    requires StepsOf(raw, steps) && NeedError(steps, e)
    ensures NeedJustified(raw, e)
  {
    assert CompiledFrom(e.step, raw[e.step], steps[e.step]);
  }

  lemma InputErrorAgrees(raw: map<string, RawStep>, steps: map<string, Step>, e: CompileError)
    requires IsInputError(e) && e.step in raw && StepsOf(raw, steps) && InputError(steps, steps[e.step], e)
    ensures InputJustified(raw, e)
  {
    hide Reach, InputKey, Collide, ParseInput, NeedsGraph, Edges;
    assert CompiledFrom(e.step, raw[e.step], steps[e.step]);
    SameGraph(raw, steps);
    ParsesAs(e.input);
    if e.InputCollision? { CollideIsSameKey(e.input, e.other); }
  }

  /* ---------- the checks ---------- */

  function KindSet(rs: RawStep): (kinds: set<Kind>)
    ensures forall k :: k in kinds <==> HasKind(rs, k)
  {
    (if rs.app != "" then {App} else {}) + (if rs.image != "" then {Image} else {})
    + (if rs.deploy != "" then {Deploy} else {}) + (if rs.scale.Some? then {Scale} else {})
    + (if rs.notify != "" then {Notify} else {})
  }

  lemma SizeOne<T>(s: set<T>)
    ensures |s| == 1 <==> exists x :: s == {x}
  {
    if |s| == 1 {
      var x :| x in s;
      assert |s - {x}| == 0;
      assert s == {x};
    }
  }

  /** deriveKind: exactly one kind has to be set. */
  method DeriveKind(rs: RawStep) returns (k: Option<Kind>)
    ensures k.None? <==> forall kind :: !OnlyKind(rs, kind)
    ensures k.Some? ==> OnlyKind(rs, k.value) && k.value == KindOf(rs)
  {
    var kinds := KindSet(rs);
    SizeOne(kinds);
    if |kinds| != 1 {
      forall kind ensures !OnlyKind(rs, kind) {
        assert OnlyKind(rs, kind) ==> kinds == {kind};
      }
      return None;
    }
    var only :| only in kinds;
    assert OnlyKind(rs, only);
    return Some(only);
  }

  /** checkFieldLegality: the first field that does not belong to the step's kind. */
  function IllegalFieldOf(k: Kind, rs: RawStep): (field: Option<string>)
    ensures field.None? <==> FieldsLegal(k, rs)
    ensures field.Some? ==> Offends(k, rs, field.value)
  {
    if k != Image && |rs.command| > 0 then Some("command")
    else if k != Image && rs.gpu != 0 then Some("gpu")
    else if k == App || k == Image then None
    else if |rs.env| > 0 then Some("env")
    else if rs.retries != 0 then Some("retries")
    else if |rs.inputs| > 0 then Some("inputs")
    else if |rs.outputs| > 0 then Some("outputs")
    else None
  }

  method CheckEnvKeys(name: string, rs: RawStep) returns (err: Option<CompileError>)
    ensures err.None? <==> forall key :: key in rs.env ==> ValidKey(key)
    ensures err.Some? ==> exists key :: key in rs.env && !ValidKey(key) && err.value == BadEnvKey(name, key)
  {
    var keys := rs.env.Keys;
    while keys != {}
      invariant keys <= rs.env.Keys && forall key :: key in rs.env && key !in keys ==> ValidKey(key)
    {
      var key :| key in keys;
      if !ValidKey(key) { return Some(BadEnvKey(name, key)); }
      keys := keys - {key};
    }
    return None;
  }

  ghost predicate OutputsLegal(outputs: seq<string>) {
    && (forall i :: 0 <= i < |outputs| ==> ValidKey(outputs[i]))
    && (forall i, j :: 0 <= i < j < |outputs| ==> Upper(outputs[i]) != Upper(outputs[j]))
  }

  function UpperSet(outputs: seq<string>): set<string> {
    set j | 0 <= j < |outputs| :: Upper(outputs[j])
  }

  ghost predicate RepeatsOutput(outputs: seq<string>, o: string) {
    exists i, j :: 0 <= i < j < |outputs| && outputs[j] == o && Upper(outputs[i]) == Upper(o)
  }

  method CheckOutputs(name: string, outputs: seq<string>) returns (err: Option<CompileError>)
    ensures err.None? <==> OutputsLegal(outputs)
    ensures err.Some? ==>
              || (err.value.BadOutput? && err.value.step == name
                  && err.value.output in outputs && !ValidKey(err.value.output))
              || (err.value.DuplicateOutput? && err.value.step == name && RepeatsOutput(outputs, err.value.output))
  {
    var seen: set<string> := {};
    for i := 0 to |outputs|
      invariant seen == UpperSet(outputs[..i]) && OutputsLegal(outputs[..i])
    {
      assert outputs[..i + 1][..i] == outputs[..i];
      var o := outputs[i];
      if !ValidKey(o) { return Some(BadOutput(name, o)); }
      if Upper(o) in seen {
        ghost var j :| 0 <= j < i && Upper(outputs[..i][j]) == Upper(o);
        assert Upper(outputs[j]) == Upper(o);
        return Some(DuplicateOutput(name, o));
      }
      seen := seen + {Upper(o)};
    }
    assert outputs[..|outputs|] == outputs;
    return None;
  }

  /** checkStepValues. */
  method CheckStepValues(name: string, k: Kind, rs: RawStep) returns (err: Option<CompileError>)
    requires OnlyKind(rs, k)
    ensures err.None? <==> ValuesLegal(k, rs)
    ensures err.Some? ==> OneStepJustified(map[name := rs], err.value)
  {
    if k == Scale && (rs.scale.value.replicas < 0 || rs.scale.value.replicas > 50) { return Some(BadReplicas(name)); }
    if k == Notify && (ByteLen(rs.notify) == 0 || ByteLen(rs.notify) > 500) { return Some(BadMessage(name)); }
    err := CheckEnvKeys(name, rs);
    if err.Some? { return; }
    err := CheckOutputs(name, rs.outputs);
  }

  /** The four per-step checks. */
  method CheckStep(name: string, rs: RawStep) returns (err: Option<CompileError>)
    ensures err.None? <==> ValidName(name) && StepLegal(rs)
    ensures err.Some? ==> OneStepJustified(map[name := rs], err.value)
  {
    if !ValidName(name) { return Some(InvalidName(name)); }
    var k := DeriveKind(rs);
    if k.None? { return Some(KindCount(name)); }
    if IllegalFieldOf(k.value, rs).Some? { return Some(IllegalField(name, IllegalFieldOf(k.value, rs).value)); }
    err := CheckStepValues(name, k.value, rs);
  }

  /** The errors that concern one step on its own. */
  predicate OneStepError(e: CompileError) {
    e.InvalidName? || e.KindCount? || e.IllegalField? || e.BadReplicas? || e.BadMessage? || e.BadEnvKey?
    || e.BadOutput? || e.DuplicateOutput?
  }

  ghost predicate NeedError(steps: map<string, Step>, e: CompileError) {
    match e
    case SelfNeed(n) => n in steps && n in steps[n].needs
    case UnknownNeed(n, d) => n in steps && d in steps[n].needs && d !in steps
    case _ => false
  }

  method CheckNeeds(names: seq<string>, steps: map<string, Step>) returns (err: Option<CompileError>)
    requires forall n :: n in names <==> n in steps
    ensures err.None? <==> NeedsDeclared(steps)
    ensures err.Some? ==> NeedError(steps, err.value)
  {
    for i := 0 to |names|
      invariant forall j :: 0 <= j < i ==> OwnNeedsDeclared(steps, names[j])
    {
      var needs := steps[names[i]].needs;
      for j := 0 to |needs|
        invariant forall k :: 0 <= k < j ==> needs[k] != names[i] && needs[k] in steps
      {
        if needs[j] == names[i] { return Some(SelfNeed(names[i])); }
        if needs[j] !in steps { return Some(UnknownNeed(names[i], needs[j])); }
      }
    }
    return None;
  }

  /** What is wrong with one input taken alone. */
  function InputFault(steps: map<string, Step>, upstream: set<string>, name: string,
                      input: string): (err: Option<CompileError>) {
    match ParseInput(input)
    case None => Some(MalformedInput(name, input))
    case Some(p) =>
      if p.0 !in steps then Some(InputUnknownStep(name, input))
      else if p.0 !in upstream then Some(InputNotUpstream(name, input))
      else if p.1 !in steps[p.0].outputs then Some(InputUndeclared(name, input))
      else None
  }

  lemma InputFaultIsWiring(steps: map<string, Step>, upstream: set<string>, st: Step, input: string)
    requires input in st.inputs && forall m :: m in upstream <==> Reach(Edges(steps), st.name, m)
    ensures InputFault(steps, upstream, st.name, input).None? <==> InputWired(steps, st.name, input)
    ensures InputFault(steps, upstream, st.name, input).Some? ==>
              InputError(steps, st, InputFault(steps, upstream, st.name, input).value)
  {}

  /** The input checks of one step: declared upstream outputs, and no two inputs on one variable. */
  method CheckInputs(st: Step, steps: map<string, Step>) returns (err: Option<CompileError>)
    ensures err.None? <==> InputsWired(steps, st)
    ensures err.Some? ==> InputError(steps, st, err.value) && err.value.step == st.name
  {
    hide InputWired, InputFault, ParseInput, Reach, InputKey;
    var upstream := TransitiveNeeds(st.name, steps);
    var inputEnv: map<string, string> := map[];
    for i := 0 to |st.inputs|
      invariant forall j :: 0 <= j < i ==> InputWired(steps, st.name, st.inputs[j])
      invariant forall j :: 0 <= j < i ==> Recorded(inputEnv, st.inputs[j])
      invariant forall k :: k in inputEnv ==>
                  inputEnv[k] in st.inputs && InputKey(inputEnv[k]) == k && ParseInput(inputEnv[k]).Some?
    {
      var input := st.inputs[i];
      assert input in st.inputs;
      err := InputFault(steps, upstream, st.name, input);
      InputFaultIsWiring(steps, upstream, st, input);
      if err.Some? { return; }
      WiredParses(steps, st.name, input);
      var key := InputKey(input);
      if key in inputEnv && inputEnv[key] != input {
        CollisionBreaksWiring(steps, st, inputEnv[key], input);
        return Some(InputCollision(st.name, inputEnv[key], input));
      }
      inputEnv := inputEnv[key := input];
    }
    return None;
  }

  /** `input` is the input registered under its variable. */
  ghost predicate Recorded(inputEnv: map<string, string>, input: string) {
    InputKey(input) in inputEnv && inputEnv[InputKey(input)] == input
  }

  lemma CollisionBreaksWiring(steps: map<string, Step>, st: Step, a: string, b: string)
    requires a in st.inputs && b in st.inputs && a != b && InputKey(a) == InputKey(b)
    ensures !InputsWired(steps, st)
  {}

  /** The map's keys as a list, in Go's unspecified iteration order. */
  method KeyList<V>(m: map<string, V>) returns (names: seq<string>)
    ensures NoDuplicates(names) && forall n :: n in names <==> n in m
  {
    names := [];
    var left := m.Keys;
    while left != {}
      invariant left <= m.Keys && NoDuplicates(names)
      invariant forall n :: n in names <==> n in m && n !in left
    {
      var n :| n in left;
      names, left := names + [n], left - {n};
    }
  }

  /** A pipeline with a real violation is not well-formed. */
  lemma ViolationMeansIllFormed(raw: map<string, RawStep>, e: CompileError)
    requires Justified(raw, e)
    ensures !WellFormed(raw)
  {
    hide Reach, Collide, Acyclic;
    if OneStepError(e) {
      IllegalStep(raw, e);
    } else if e.Cycle? {
      CycleIsNotAcyclic(NeedsGraph(raw), e.step);
    } else if IsInputError(e) && !e.InputCollision? {
      UnservedInput(raw, e);
    }
  }

  /** An input is written in one way only, so what one reading lacks no other has. */
  lemma UnservedInput(raw: map<string, RawStep>, e: CompileError)
    requires Justified(raw, e) && IsInputError(e) && !e.InputCollision?
    ensures e.step in raw && e.input in raw[e.step].inputs && !InputServed(raw, e.step, e.input)
  {
    hide Reach, ParseInput;
    ParsesAs(e.input);
  }

  lemma CycleIsNotAcyclic(g: Digraph, n: string)
    requires Reach(g, n, n)
    ensures !Acyclic(g)
  {}

  lemma IllegalStep(raw: map<string, RawStep>, e: CompileError)
    requires OneStepJustified(raw, e)
    ensures e.step in raw && !(ValidName(e.step) && StepLegal(raw[e.step]))
  {}

  lemma AllChecksPass(raw: map<string, RawStep>)
    requires raw != map[] && (forall n :: n in raw ==> ValidName(n) && StepLegal(raw[n]))
    requires NeedsDeclared(Steps(raw)) && Acyclic(Edges(Steps(raw)))
    requires forall n :: n in Steps(raw) ==> InputsWired(Steps(raw), Steps(raw)[n])
    ensures StepsWellFormed(raw)
  {}

  lemma ErrorsAreJustified(raw: map<string, RawStep>, e: CompileError)
    requires
      || (e == NoSteps && raw == map[])
      || OneStepJustified(raw, e)
      || NeedError(Steps(raw), e)
      || (e.Cycle? && Reach(Edges(Steps(raw)), e.step, e.step))
      || (IsInputError(e) && e.step in Steps(raw) && InputError(Steps(raw), Steps(raw)[e.step], e))
    ensures StepsJustified(raw, e)
  {}

  method SortNames(unsorted: seq<string>) returns (names: seq<string>)
    requires NoDuplicates(unsorted)
    ensures StrictlyAscending(names) && NoDuplicates(names) && forall n :: n in names <==> n in unsorted
  {
    names := Sort(unsorted);
    SortMembers(unsorted);
    SortStrict(unsorted);
  }

  method CheckSteps(names: seq<string>, raw: map<string, RawStep>) returns (err: Option<CompileError>)
    requires forall n :: n in names <==> n in raw
    ensures err.None? <==> forall n :: n in raw ==> ValidName(n) && StepLegal(raw[n])
    ensures err.Some? ==> OneStepJustified(raw, err.value)
  {
    for i := 0 to |names|
      invariant forall j :: 0 <= j < i ==> ValidName(names[j]) && StepLegal(raw[names[j]])
    {
      err := CheckStep(names[i], raw[names[i]]);
      if err.Some? {
        return;
      }
    }
    return None;
  }

  method CheckAllInputs(names: seq<string>, steps: map<string, Step>) returns (err: Option<CompileError>)
    requires forall n :: n in names <==> n in steps
    requires forall n :: n in steps ==> steps[n].name == n
    ensures err.None? <==> forall n :: n in steps ==> InputsWired(steps, steps[n])
    ensures err.Some? ==>
              IsInputError(err.value) && err.value.step in steps && InputError(steps, steps[err.value.step], err.value)
  {
    for i := 0 to |names|
      invariant forall j :: 0 <= j < i ==> InputsWired(steps, steps[names[j]])
    {
      err := CheckInputs(steps[names[i]], steps);
      if err.Some? { return; }
    }
    return None;
  }

  /** Every check between sorting the names and the topological sort, in the source's order. */
  method Validate(names: seq<string>, raw: map<string, RawStep>) returns (err: Option<CompileError>)
    requires raw != map[] && forall n :: n in names <==> n in raw
    ensures err.None? ==> WellFormed(raw)
    ensures err.Some? ==> Justified(raw, err.value)
  {
    hide *;
    err := CheckAll(names, raw, Steps(raw));
    if err.Some? { JustifiedAgrees(raw, err.value); } else { WellFormedAgrees(raw); }
  }

  method CheckAll(names: seq<string>, raw: map<string, RawStep>, steps: map<string, Step>)
    returns (err: Option<CompileError>)
    requires raw != map[] && steps == Steps(raw) && forall n :: n in names <==> n in raw
    ensures err.None? ==> StepsWellFormed(raw)
    ensures err.Some? ==> StepsJustified(raw, err.value)
  {
    hide *;
    err := CheckSteps(names, raw);
    if err.Some? { ErrorsAreJustified(raw, err.value); return; }
    StepsKeepNames(raw);
    err := CheckNeeds(names, steps);
    if err.Some? { ErrorsAreJustified(raw, err.value); return; }
    EdgesDeclared(raw);
    var cyc := FindCycle(names, steps);
    if cyc != "" { ErrorsAreJustified(raw, Cycle(cyc)); return Some(Cycle(cyc)); }
    err := CheckAllInputs(names, steps);
    if err.Some? { ErrorsAreJustified(raw, err.value); return; }
    AllChecksPass(raw);
  }

  /** The step is the raw step of its name, and of the only kind that sets. */
  ghost predicate CompiledIn(raw: map<string, RawStep>, st: Step) {
    st.name in raw && CompiledFrom(st.name, raw[st.name], st) && OnlyKind(raw[st.name], st.kind)
  }

  lemma StepsAreCompiled(raw: map<string, RawStep>, out: seq<Step>, i: nat)
    requires WellFormed(raw) && StepsFrom(Steps(raw), out) && i < |out|
    ensures CompiledIn(raw, out[i])
  {
    hide Acyclic, InputServed, Collide, FieldsLegal, ValuesLegal, ValidName, NeedsGraph;
    var n := out[i].name;
    assert n in raw && StepLegal(raw[n]);
  }

  lemma NothingCompiles(raw: map<string, RawStep>)
    requires |raw| == 0
    ensures Justified(raw, NoSteps) && !WellFormed(raw)
  {
    hide Acyclic, InputServed, Collide, StepLegal, ValidName, NeedsGraph;
  }

  /** Compile accepts exactly the well-formed pipelines and returns their steps in the least valid order. */
  method Compile(size: nat, parsed: Option<map<string, RawStep>>) returns (spec: Result<seq<Step>, CompileError>)
    ensures spec.Ok? <==> size <= 65536 && parsed.Some? && WellFormed(parsed.value)
    ensures spec.Ok? ==> LeastOrder(NeedsGraph(parsed.value), Names(spec.value))
    ensures spec.Ok? ==> forall i :: 0 <= i < |spec.value| ==> CompiledIn(parsed.value, spec.value[i])
    ensures spec == Err(TooLarge) ==> size > 65536
    ensures spec == Err(ParseFailed) ==> parsed.None?
    ensures spec.Err? && spec.error != TooLarge && spec.error != ParseFailed ==>
              parsed.Some? && Justified(parsed.value, spec.error)
  {
    assert MAX_YAML_BYTES == 65536;
    hide *;
    if size > MAX_YAML_BYTES { return Err(TooLarge); }
    if parsed.None? { return Err(ParseFailed); }
    var raw := parsed.value;
    if |raw| == 0 {
      NothingCompiles(raw);
      return Err(NoSteps);
    }
    var names := KeyList(raw);
    names := SortNames(names);
    var err := Validate(names, raw);
    if err.Some? {
      ViolationMeansIllFormed(raw, err.value);
      SpecificError(raw, err.value);
      return Err(err.value);
    }
    WellFormedHasOrder(raw);
    StepsKeepNames(raw);
    var sorted := TopoSort(names, Steps(raw));
    SameGraph(raw, Steps(raw));
    forall i | 0 <= i < |sorted.value| ensures CompiledIn(raw, sorted.value[i]) {
      StepsAreCompiled(raw, sorted.value, i);
    }
    return Ok(sorted.value);
  }

  lemma SpecificError(raw: map<string, RawStep>, e: CompileError)
    requires Justified(raw, e)
    ensures !e.TooLarge? && !e.ParseFailed? && !e.CycleInSort?
  {}

  lemma StepsKeepNames(raw: map<string, RawStep>)
    ensures forall n :: n in Steps(raw) <==> n in raw
    ensures forall n :: n in Steps(raw) ==> Steps(raw)[n].name == n
  {}

  /** The cycle check makes topoSort's own error exit unreachable. */
  lemma WellFormedHasOrder(raw: map<string, RawStep>)
    requires WellFormed(raw)
    ensures exists order :: ValidOrder(NeedsGraph(raw), order)
    ensures forall n :: n in Steps(raw) ==> Steps(raw)[n].name == n
  {
    SameGraph(raw, Steps(raw));
    WellFormedAgrees(raw);
    EdgesDeclared(raw);
    OrderExistsIffAcyclic(Edges(Steps(raw)));
  }

  lemma EdgesDeclared(raw: map<string, RawStep>)
    requires NeedsDeclared(Steps(raw)) && forall n :: n in raw ==> ValidName(n)
    ensures Closed(Edges(Steps(raw))) && "" !in Nodes(Edges(Steps(raw)))
    ensures forall n :: n in Steps(raw) <==> n in raw
  {}
}
