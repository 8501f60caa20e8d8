/** The Argo engine's tick: folding workflow node states into step rows, launching actions, finishing the run. */
module ArgoTick {
  import opened Wrappers
  import opened Strings
  import opened Pipeline
  import opened Argo

  datatype State = Pending | Running | Done | Failed | Skipped

  predicate Final(s: State) { s != Pending && s != Running }

  /* ---------- node states ---------- */

  datatype NodeType = PodNode | RetryNode | SkippedNode | OtherNode

  datatype Node = Node(displayName: string, nodeType: NodeType, phase: string)

  function PhaseToState(phase: string): (s: State)
    ensures s == Done <==> phase == "Succeeded"
    ensures s == Failed <==> phase in ["Failed", "Error"]
    ensures s == Skipped <==> phase in ["Omitted", "Skipped"]
    ensures s != Pending
  {
    if phase == "Pending" || phase == "Running" then Running
    else if phase == "Succeeded" then Done
    else if phase == "Failed" || phase == "Error" then Failed
    else if phase == "Omitted" || phase == "Skipped" then Skipped
    else Running
  }

  predicate WorkflowTerminal(phase: string) {
    phase == "Succeeded" || phase == "Failed" || phase == "Error"
  }

  /** Start of the run of digits that ends before position `end`. */
  function DigitsStart(s: string, end: nat): (i: nat)
    requires end <= |s|
    ensures i <= end
  {
    if end > 0 && '0' <= s[end - 1] <= '9' then DigitsStart(s, end - 1) else end
  }

  /** argoRetrySuffixRe: drop a trailing `(digits)`. */
  function StripRetrySuffix(s: string): string {
    if s == [] || s[|s| - 1] != ')' then s
    else
      var i := DigitsStart(s, |s| - 1);
      if i < |s| - 1 && i > 0 && s[i - 1] == '(' then s[..i - 1] else s
  }

  ghost predicate AllDigits(s: string) { forall i :: 0 <= i < |s| ==> '0' <= s[i] <= '9' }

  /** `s` is `base`, an opening parenthesis, at least one digit, and a closing one. */
  ghost predicate IsAttempt(s: string, base: string, digits: string) {
    digits != "" && AllDigits(digits) && s == base + "(" + digits + ")"
  }

  lemma {:induction false} DigitsStartIsLeast(s: string, end: nat)
    requires end <= |s|
    ensures AllDigits(s[DigitsStart(s, end)..end])
    ensures DigitsStart(s, end) > 0 ==> !('0' <= s[DigitsStart(s, end) - 1] <= '9')
  {
    if end > 0 && '0' <= s[end - 1] <= '9' {
      DigitsStartIsLeast(s, end - 1);
      var i := DigitsStart(s, end - 1);
      assert s[i..end] == s[i..end - 1] + [s[end - 1]];
    }
  }

  /** The name of an attempt is that of its step, and any other name is left as it is. */
  lemma StripRetrySuffixExactly(s: string)
    ensures forall base, digits :: IsAttempt(s, base, digits) ==> StripRetrySuffix(s) == base
    ensures (forall base, digits :: !IsAttempt(s, base, digits)) ==> StripRetrySuffix(s) == s
  {
    hide DigitsStart, AllDigits;
    if s != "" && s[|s| - 1] == ')' {
      var i := DigitsStart(s, |s| - 1);
      DigitsStartIsLeast(s, |s| - 1);
      if 0 < i < |s| - 1 && s[i - 1] == '(' {
        assert s == s[..i - 1] + "(" + s[i..|s| - 1] + ")";
        assert IsAttempt(s, s[..i - 1], s[i..|s| - 1]);
      }
      forall base, digits | IsAttempt(s, base, digits) ensures StripRetrySuffix(s) == base {
        StripsAttempt(s, base, digits);
      }
    }
    forall base, digits | IsAttempt(s, base, digits) ensures s != "" && s[|s| - 1] == ')' {}
  }

  lemma {:induction false} DigitsStartAt(s: string, end: nat, k: nat)
    requires k <= end <= |s| && (forall m :: k <= m < end ==> '0' <= s[m] <= '9')
    requires k > 0 ==> !('0' <= s[k - 1] <= '9')
    ensures DigitsStart(s, end) == k
  {
    if k < end { DigitsStartAt(s, end - 1, k); }
  }

  lemma StripsAttempt(s: string, base: string, digits: string)
    requires IsAttempt(s, base, digits)
    ensures StripRetrySuffix(s) == base
  {
    hide DigitsStart;
    var k := |base| + 1;
    assert s[k - 1] == '(' && s[..|base|] == base;
    assert forall m :: k <= m < |s| - 1 ==> s[m] == digits[m - k];
    DigitsStartAt(s, |s| - 1, k);
  }

  /** The phase of the last node of a type for a step, in iteration order. */
  function LastPhase(nodes: seq<Node>, t: NodeType, name: string): Option<string> {
    if nodes == [] then None
    else
      var n := nodes[|nodes| - 1];
      if n.nodeType == t && StripRetrySuffix(n.displayName) == name then Some(n.phase)
      else LastPhase(nodes[..|nodes| - 1], t, name)
  }

  /** A Retry node decides; without one a Pod node; without either a Skipped node. */
  function StateOf(nodes: seq<Node>, name: string): Option<State> {
    match (LastPhase(nodes, RetryNode, name), LastPhase(nodes, PodNode, name), LastPhase(nodes, SkippedNode, name))
    case (Some(p), _, _) => Some(PhaseToState(p))
    case (None, Some(p), _) => Some(PhaseToState(p))
    case (None, None, Some(p)) => Some(PhaseToState(p))
    case (None, None, None) => None
  }

  /** argoNodeStates, over one iteration order of the nodes map. */
  method NodeStates(nodes: seq<Node>) returns (states: map<string, State>)
    ensures forall name :: name in states <==> StateOf(nodes, name).Some?
    ensures forall name :: name in states ==> states[name] == StateOf(nodes, name).value
    ensures forall phase :: ValidObservation(Seen(states, phase))
  {
    hide StripRetrySuffix, PhaseToState, ValidObservation;
    var pod: map<string, string>, retry: map<string, string>, skipped: map<string, string> := map[], map[], map[];
    for i := 0 to |nodes|
      invariant PhaseMap(nodes[..i], PodNode, pod) && PhaseMap(nodes[..i], RetryNode, retry)
      invariant PhaseMap(nodes[..i], SkippedNode, skipped)
    {
      assert nodes[..i + 1][..i] == nodes[..i];
      var name := StripRetrySuffix(nodes[i].displayName);
      match nodes[i].nodeType {
        case PodNode => pod := pod[name := nodes[i].phase];
        case RetryNode => retry := retry[name := nodes[i].phase];
        case SkippedNode => skipped := skipped[name := nodes[i].phase];
        case OtherNode =>
      }
    }
    assert nodes[..|nodes|] == nodes;
    states := map n | n in skipped :: PhaseToState(skipped[n]);
    states := states + map n | n in pod :: PhaseToState(pod[n]);
    states := states + map n | n in retry :: PhaseToState(retry[n]);
    NeverPending(nodes, states);
  }

  /** A step that has a node is never pending, which is all that a tick assumes of what it sees. */
  lemma NeverPending(nodes: seq<Node>, states: map<string, State>)
    requires forall name :: name in states ==> StateOf(nodes, name) == Some(states[name])
    ensures forall phase :: ValidObservation(Seen(states, phase))
  {
    hide LastPhase;
  }

  ghost predicate PhaseMap(nodes: seq<Node>, t: NodeType, m: map<string, string>) {
    forall name :: if name in m then LastPhase(nodes, t, name) == Some(m[name]) else LastPhase(nodes, t, name) == None
  }

  /** All nodes of the type for the step report this phase, and there is one. */
  ghost predicate AgreedPhase(nodes: multiset<Node>, t: NodeType, name: string, phase: string) {
    && (exists n :: n in nodes && n.nodeType == t && StripRetrySuffix(n.displayName) == name)
    && (forall n :: n in nodes && n.nodeType == t && StripRetrySuffix(n.displayName) == name ==> n.phase == phase)
  }

  lemma {:induction false} AgreedPhaseIsLast(nodes: seq<Node>, t: NodeType, name: string, phase: string)
    requires AgreedPhase(multiset(nodes), t, name, phase)
    ensures LastPhase(nodes, t, name) == Some(phase)
  {
    var init, n := nodes[..|nodes| - 1], nodes[|nodes| - 1];
    assert nodes == init + [n];
    assert n in multiset(nodes);
    if !(n.nodeType == t && StripRetrySuffix(n.displayName) == name) {
      forall m | m in multiset(init) ensures m in multiset(nodes) { }
      var w :| w in multiset(nodes) && w.nodeType == t && StripRetrySuffix(w.displayName) == name;
      assert w in multiset(init);
      AgreedPhaseIsLast(init, t, name, phase);
    }
  }

  /** A step whose Retry nodes agree gets their state, whatever its attempts report and in whatever
      order the map is iterated. */
  lemma RetryDecides(nodes: seq<Node>, name: string, phase: string)
    requires AgreedPhase(multiset(nodes), RetryNode, name, phase)
    ensures StateOf(nodes, name) == Some(PhaseToState(phase))
  {
    AgreedPhaseIsLast(nodes, RetryNode, name, phase);
  }

  /** `n` reports on the step as a node of this type. */
  ghost predicate ReportsOn(n: Node, t: NodeType, name: string) {
    n.nodeType == t && StripRetrySuffix(n.displayName) == name
  }

  lemma {:induction false} LastPhaseIsReported(nodes: seq<Node>, t: NodeType, name: string)
    ensures match LastPhase(nodes, t, name)
            case None => forall n :: n in nodes ==> !ReportsOn(n, t, name)
            case Some(p) => exists n :: n in nodes && ReportsOn(n, t, name) && n.phase == p
  {
    if nodes != [] {
      var init, n := nodes[..|nodes| - 1], nodes[|nodes| - 1];
      assert nodes == init + [n];
      LastPhaseIsReported(init, t, name);
      assert n in nodes && forall m :: m in init ==> m in nodes;
    }
  }

  /** Of a step with Retry nodes, the code can report exactly the states those nodes have: each is the result
      for some iteration order of the map, and no other is. */
  lemma RetryPossibilities(nodes: seq<Node>, name: string, s: State)
    requires exists n :: n in nodes && ReportsOn(n, RetryNode, name)
    ensures (exists order :: multiset(order) == multiset(nodes) && StateOf(order, name) == Some(s))
       <==> exists n :: n in nodes && ReportsOn(n, RetryNode, name) && PhaseToState(n.phase) == s
  {
    hide StateOf, PhaseToState, ReportsOn;
    if order :| multiset(order) == multiset(nodes) && StateOf(order, name) == Some(s) {
      SameNodes(order, nodes);
      StateIsReported(order, name);
    }
    if n :| n in nodes && ReportsOn(n, RetryNode, name) && PhaseToState(n.phase) == s {
      var order := LastPlaced(nodes, n);
      LastDecides(order, name);
      assert multiset(order) == multiset(nodes) && StateOf(order, name) == Some(s);
    }
  }

  lemma SameNodes(a: seq<Node>, b: seq<Node>)
    requires multiset(a) == multiset(b)
    ensures forall n :: n in a <==> n in b
  {
    forall n ensures n in a <==> n in b {
      assert n in a <==> n in multiset(a);
      assert n in b <==> n in multiset(b);
    }
  }

  lemma StateIsReported(nodes: seq<Node>, name: string)
    requires exists n :: n in nodes && ReportsOn(n, RetryNode, name)
    ensures exists n ::
              n in nodes && ReportsOn(n, RetryNode, name) && StateOf(nodes, name) == Some(PhaseToState(n.phase))
  {
    LastPhaseIsReported(nodes, RetryNode, name);
  }

  /** The order that visits `n` last. */
  lemma LastPlaced(nodes: seq<Node>, n: Node) returns (order: seq<Node>)
    requires n in nodes
    ensures multiset(order) == multiset(nodes) && order != [] && order[|order| - 1] == n
  {
    var i :| 0 <= i < |nodes| && nodes[i] == n;
    order := nodes[..i] + nodes[i + 1..] + [n];
    assert nodes == nodes[..i] + [n] + nodes[i + 1..];
  }

  lemma LastDecides(nodes: seq<Node>, name: string)
    requires nodes != [] && ReportsOn(nodes[|nodes| - 1], RetryNode, name)
    ensures StateOf(nodes, name) == Some(PhaseToState(nodes[|nodes| - 1].phase))
  {}

  /* ---------- the run's rows ---------- */

  datatype Row = Row(name: string, state: State, attempt: nat)

  datatype RunStatus = Active | RunDone | RunFailed | Stopped

  /** FinishStep's SQL guard: done only from running, failed and skipped from running or pending. */
  predicate MayFinish(from: State, to: State) {
    match to
    case Done => from == Running
    case Failed | Skipped => from == Running || from == Pending
    case _ => false
  }

  /** The run's persistent rows, as the store's guarded updates change them. */
  class RunStore {
    var rows: seq<Row>
    var status: RunStatus
    var warning: string

    constructor (rows: seq<Row>)
      ensures this.rows == rows && status == Active && warning == ""
    {
      this.rows, status, warning := rows, Active, "";
    }

    method FinishStep(i: nat, state: State) returns (ok: bool)
      requires i < |rows|
      modifies this`rows
      ensures ok <==> match old(rows)[i].state
                      case Running => state == Done || state == Failed || state == Skipped
                      case Pending => state == Failed || state == Skipped
                      case _ => false
      ensures rows == if ok then old(rows)[i := old(rows)[i].(state := state)] else old(rows)
    {
      ok := MayFinish(rows[i].state, state);
      if ok { rows := rows[i := rows[i].(state := state)]; }
    }

    method MarkStepRunning(i: nat, attempt: nat) returns (ok: bool)
      requires i < |rows|
      modifies this`rows
      ensures ok <==> old(rows)[i].state == Pending || old(rows)[i].state == Running
      ensures rows == if ok then old(rows)[i := old(rows)[i].(state := Running, attempt := attempt)] else old(rows)
    {
      ok := rows[i].state == Pending || rows[i].state == Running;
      if ok { rows := rows[i := rows[i].(state := Running, attempt := attempt)]; }
    }

    method FinishRun(to: RunStatus) returns (ok: bool)
      requires to != Active
      modifies this`status
      ensures ok <==> old(status) == Active
      ensures status == if ok then to else old(status)
    {
      ok := status == Active;
      if ok { status := to; }
    }
  }

  /* ---------- one tick, as a function ---------- */

  /** What the tick reads about the workflow; a failed read ends the tick. */
  datatype Observation = Unreadable | Missing | Seen(states: map<string, State>, phase: string)

  predicate ValidObservation(obs: Observation) {
    obs.Seen? ==> forall n :: n in obs.states ==> obs.states[n] != Pending
  }

  /** How a launched action ends within the tick; a gated deploy stays running. */
  datatype Outcome = StaysRunning | Succeeds | Fails

  function StateAfter(o: Outcome): State {
    match o case StaysRunning => Running case Succeeds => Done case Fails => Failed
  }

  function Lookup(spec: seq<Step>, name: string): Option<Step> {
    if spec == [] then None else if spec[0].name == name then Some(spec[0]) else Lookup(spec[1..], name)
  }

  predicate ComputeRow(spec: seq<Step>, name: string) {
    var st := Lookup(spec, name);
    st.Some? && ComputeKind(st.value.kind)
  }

  predicate ActionRow(spec: seq<Step>, name: string) {
    var st := Lookup(spec, name);
    st.Some? && !ComputeKind(st.value.kind)
  }

  /** The state the workflow dictates for a running compute step; Running when it dictates none. */
  function Dictated(name: string, obs: Observation): (s: State) {
    match obs
    case Unreadable => Running
    case Missing => Failed
    case Seen(states, phase) =>
      var s := if name in states then states[name] else Running;
      if WorkflowTerminal(phase) && s == Running then (if phase == "Succeeded" then Skipped else Failed) else s
  }

  function HarvestRow(spec: seq<Step>, row: Row, obs: Observation): Row {
    if ComputeRow(spec, row.name) && row.state == Running then row.(state := Dictated(row.name, obs)) else row
  }

  function Harvest(spec: seq<Step>, rows: seq<Row>, obs: Observation): (r: seq<Row>)
    ensures |r| == |rows| && forall i :: 0 <= i < |rows| ==> r[i] == HarvestRow(spec, rows[i], obs)
  {
    seq(|rows|, i requires 0 <= i < |rows| => HarvestRow(spec, rows[i], obs))
  }

  /** State of the last row of that name. */
  function RowState(rows: seq<Row>, name: string): Option<State> {
    if rows == [] then None
    else if rows[|rows| - 1].name == name then Some(rows[|rows| - 1].state)
    else RowState(rows[..|rows| - 1], name)
  }

  /** allRowNeedsDone. */
  predicate NeedsDone(rows: seq<Row>, needs: seq<string>) {
    forall i :: 0 <= i < |needs| ==> RowState(rows, needs[i]) == Some(Done)
  }

  predicate Launchable(spec: seq<Step>, rows: seq<Row>, row: Row) {
    row.state == Pending && ActionRow(spec, row.name) && NeedsDone(rows, Lookup(spec, row.name).value.needs)
  }

  function LaunchRow(spec: seq<Step>, rows: seq<Row>, row: Row, outcome: string -> Outcome): Row {
    if Launchable(spec, rows, row)
    then row.(state := StateAfter(outcome(row.name)), attempt := row.attempt + 1)
    else row
  }

  function Launch(spec: seq<Step>, rows: seq<Row>, outcome: string -> Outcome): (r: seq<Row>)
    ensures |r| == |rows| && forall i :: 0 <= i < |rows| ==> r[i] == LaunchRow(spec, rows, rows[i], outcome)
  {
    seq(|rows|, i requires 0 <= i < |rows| => LaunchRow(spec, rows, rows[i], outcome))
  }

  predicate Unfinished(spec: seq<Step>, rows: seq<Row>) {
    exists i :: 0 <= i < |rows| && Lookup(spec, rows[i].name).Some? && !Final(rows[i].state)
  }

  predicate AllDone(spec: seq<Step>, rows: seq<Row>) {
    forall i :: 0 <= i < |rows| && Lookup(spec, rows[i].name).Some? ==> rows[i].state == Done
  }

  datatype Run = Run(rows: seq<Row>, status: RunStatus)

  function TickRun(spec: seq<Step>, run: Run, obs: Observation, outcome: string -> Outcome): Run {
    if obs.Unreadable? then run
    else
      var harvested := Harvest(spec, run.rows, obs);
      Run(Launch(spec, harvested, outcome),
          if run.status != Active || Unfinished(spec, harvested) then run.status
          else if AllDone(spec, harvested) then RunDone else RunFailed)
  }

  /* ---------- one tick, in terms of the rows ---------- */

  /** The spec's step of that name. */
  ghost predicate Describes(spec: seq<Step>, st: Step, name: string) {
    exists k :: 0 <= k < |spec| && spec[k] == st && st.name == name && forall j :: 0 <= j < k ==> spec[j].name != name
  }

  /** `after` is `row` once its workflow has been looked at: a running image or app step takes the final state its
      node has, and without one it ends with the workflow. */
  ghost predicate Harvested(spec: seq<Step>, row: Row, obs: Observation, after: Row) {
    if row.state == Running && exists st :: Describes(spec, st, row.name) && (st.kind == App || st.kind == Image) then
      && after.name == row.name && after.attempt == row.attempt
      && match obs
         case Unreadable => after.state == Running
         case Missing => after.state == Failed
         case Seen(states, phase) =>
           if row.name in states && states[row.name] != Running then after.state == states[row.name]
           else if phase == "Succeeded" then after.state == Skipped
           else if phase == "Failed" || phase == "Error" then after.state == Failed
           else after.state == Running
    else
      after == row
  }

  /** The last row of that name is done. */
  ghost predicate DoneIn(rows: seq<Row>, name: string) {
    exists i :: 0 <= i < |rows| && rows[i].name == name && rows[i].state == Done
                && forall j :: i < j < |rows| ==> rows[j].name != name
  }

  /** `after` is `row` once actions have been launched: a pending action all of whose needs are done is started,
      and has already ended unless it stays running. */
  ghost predicate Launched(spec: seq<Step>, rows: seq<Row>, row: Row, outcome: Outcome, after: Row) {
    if row.state == Pending && exists st :: Describes(spec, st, row.name) && st.kind != App && st.kind != Image
                                            && forall d :: d in st.needs ==> DoneIn(rows, d) then
      && after.name == row.name && after.attempt == row.attempt + 1
      && match outcome
         case StaysRunning => after.state == Running
         case Succeeds => after.state == Done
         case Fails => after.state == Failed
    else
      after == row
  }

  /** What an active run becomes with these rows: done or failed once none that the spec knows is unfinished. */
  ghost predicate Concluded(spec: seq<Step>, rows: seq<Row>, status: RunStatus) {
    var known := set i | 0 <= i < |rows| && exists st :: Describes(spec, st, rows[i].name);
    if exists i :: i in known && (rows[i].state == Pending || rows[i].state == Running) then status == Active
    else if forall i :: i in known ==> rows[i].state == Done then status == RunDone
    else status == RunFailed
  }

  /** One tick that could read the workflow: every row is harvested, actions are launched from what that gives, and
      the same rows decide whether the run is over. */
  ghost predicate Ticked(spec: seq<Step>, before: Run, obs: Observation, outcome: string -> Outcome, mid: seq<Row>,
                         after: Run) {
    && |before.rows| == |mid| == |after.rows|
    && (forall i :: 0 <= i < |mid| ==> Harvested(spec, before.rows[i], obs, mid[i]))
    && (forall i :: 0 <= i < |mid| ==> Launched(spec, mid, mid[i], outcome(mid[i].name), after.rows[i]))
    && (if before.status == Active then Concluded(spec, mid, after.status) else after.status == before.status)
  }

  lemma {:induction false} LookupDescribes(spec: seq<Step>, name: string)
    ensures forall st :: Describes(spec, st, name) <==> Lookup(spec, name) == Some(st)
  {
    if spec != [] {
      LookupDescribes(spec[1..], name);
      forall st ensures Describes(spec, st, name) <==> Lookup(spec, name) == Some(st) {
        DescribesNext(spec, st, name);
      }
    }
  }

  lemma DescribesNext(spec: seq<Step>, st: Step, name: string)
    requires spec != []
    ensures spec[0].name == name ==> (Describes(spec, st, name) <==> st == spec[0])
    ensures spec[0].name != name ==> (Describes(spec, st, name) <==> Describes(spec[1..], st, name))
  {
    var rest := spec[1..];
    if spec[0].name == name {
      assert st == spec[0] ==> spec[0] == st;
    } else {
      if k :| 0 <= k < |spec| && spec[k] == st && st.name == name && forall j :: 0 <= j < k ==> spec[j].name != name {
        assert rest[k - 1] == st && forall j :: 0 <= j < k - 1 ==> rest[j] == spec[j + 1];
      }
      if k :| 0 <= k < |rest| && rest[k] == st && st.name == name && forall j :: 0 <= j < k ==> rest[j].name != name {
        assert spec[k + 1] == st && forall j :: 0 < j < k + 1 ==> spec[j] == rest[j - 1];
      }
    }
  }

  lemma {:induction false} RowStateIsDone(rows: seq<Row>, name: string)
    ensures DoneIn(rows, name) <==> RowState(rows, name) == Some(Done)
  {
    hide DoneIn;
    if rows == [] {
      NoneDone(name);
    } else {
      RowStateIsDone(rows[..|rows| - 1], name);
      DoneNext(rows, name);
    }
  }

  lemma NoneDone(name: string)
    ensures !DoneIn([], name)
  {}

  lemma DoneNext(rows: seq<Row>, name: string)
    requires rows != []
    ensures rows[|rows| - 1].name == name ==> (DoneIn(rows, name) <==> rows[|rows| - 1].state == Done)
    ensures rows[|rows| - 1].name != name ==> (DoneIn(rows, name) <==> DoneIn(rows[..|rows| - 1], name))
  {
    var n := |rows| - 1;
    var init := rows[..n];
    if rows[n].name == name {
      if i :| 0 <= i < |rows| && rows[i].name == name && rows[i].state == Done
              && forall j :: i < j < |rows| ==> rows[j].name != name { assert i == n; }
    } else {
      if i :| 0 <= i < |rows| && rows[i].name == name && rows[i].state == Done
              && forall j :: i < j < |rows| ==> rows[j].name != name {
        assert init[i] == rows[i] && forall j :: i < j < n ==> init[j] == rows[j];
      }
      if i :| 0 <= i < n && init[i].name == name && init[i].state == Done
              && forall j :: i < j < n ==> init[j].name != name {
        assert rows[i] == init[i] && forall j :: i < j < n ==> rows[j] == init[j];
      }
    }
  }

  lemma HarvestRowIsHarvested(spec: seq<Step>, row: Row, obs: Observation)
    requires ValidObservation(obs)
    ensures Harvested(spec, row, obs, HarvestRow(spec, row, obs))
  {
    hide Describes, Lookup;
    LookupDescribes(spec, row.name);
  }

  lemma LaunchRowIsLaunched(spec: seq<Step>, rows: seq<Row>, row: Row, outcome: string -> Outcome)
    ensures Launched(spec, rows, row, outcome(row.name), LaunchRow(spec, rows, row, outcome))
  {
    hide Describes, Lookup, RowState, DoneIn;
    LookupDescribes(spec, row.name);
    forall d ensures DoneIn(rows, d) <==> RowState(rows, d) == Some(Done) { RowStateIsDone(rows, d); }
  }

  lemma StatusIsConcluded(spec: seq<Step>, rows: seq<Row>)
    ensures Concluded(spec, rows, if Unfinished(spec, rows) then Active else if AllDone(spec, rows) then RunDone
                                  else RunFailed)
  {
    hide Describes, Lookup;
    forall i | 0 <= i < |rows|
      ensures Lookup(spec, rows[i].name).Some? <==> exists st :: Describes(spec, st, rows[i].name)
    {
      LookupDescribes(spec, rows[i].name);
    }
  }

  /** The tick function says what the tick does to every row and to the run. */
  lemma TickRunIsTicked(spec: seq<Step>, run: Run, obs: Observation, outcome: string -> Outcome)
    requires ValidObservation(obs) && !obs.Unreadable?
    ensures Ticked(spec, run, obs, outcome, Harvest(spec, run.rows, obs), TickRun(spec, run, obs, outcome))
  {
    hide Harvested, Launched, HarvestRow, LaunchRow, Concluded, Unfinished, AllDone;
    var mid := Harvest(spec, run.rows, obs);
    forall i | 0 <= i < |mid|
      ensures Harvested(spec, run.rows[i], obs, mid[i])
      ensures Launched(spec, mid, mid[i], outcome(mid[i].name), TickRun(spec, run, obs, outcome).rows[i])
    {
      HarvestRowIsHarvested(spec, run.rows[i], obs);
      LaunchRowIsLaunched(spec, mid, mid[i], outcome);
    }
    StatusIsConcluded(spec, mid);
  }

  /* ---------- the tick itself ---------- */

  method AllRowNeedsDone(byName: map<string, Row>, rows: seq<Row>, needs: seq<string>) returns (all: bool)
    requires RowIndex(rows, byName)
    ensures all <==> NeedsDone(rows, needs)
  {
    for i := 0 to |needs|
      invariant forall j :: 0 <= j < i ==> RowState(rows, needs[j]) == Some(Done)
    {
      if needs[i] !in byName || byName[needs[i]].state != Done { return false; }
    }
    return true;
  }

  ghost predicate RowIndex(rows: seq<Row>, byName: map<string, Row>) {
    forall n :: if n in byName then RowState(rows, n) == Some(byName[n].state) else RowState(rows, n) == None
  }

  /** Finish one running compute row if the workflow has decided it. */
  method HarvestOne(store: RunStore, i: nat, spec: seq<Step>, obs: Observation) returns (row: Row)
    requires ValidObservation(obs) && !obs.Unreadable? && i < |store.rows|
    modifies store`rows
    ensures row == HarvestRow(spec, old(store.rows)[i], obs)
    ensures store.rows == old(store.rows)[i := row]
  {
    row := store.rows[i];
    if ComputeRow(spec, row.name) && row.state == Running {
      var newState := Dictated(row.name, obs);
      if newState != Running {
        var ok := store.FinishStep(i, newState);
        if ok { row := row.(state := newState); }
      }
    }
  }

  /** First loop of the tick: finish the running compute rows the workflow has decided. */
  method HarvestRows(store: RunStore, spec: seq<Step>, obs: Observation) returns (byName: map<string, Row>)
    requires ValidObservation(obs) && !obs.Unreadable?
    modifies store`rows
    ensures store.rows == Harvest(spec, old(store.rows), obs)
    ensures RowIndex(store.rows, byName)
  {
    ghost var rows0 := store.rows;
    byName := map[];
    for i := 0 to |store.rows|
      invariant |store.rows| == |rows0|
      invariant store.rows[..i] == Harvest(spec, rows0, obs)[..i] && store.rows[i..] == rows0[i..]
      invariant RowIndex(store.rows[..i], byName)
    {
      ghost var before := store.rows;
      assert before[i] == before[i..][0] == rows0[i];
      var row := HarvestOne(store, i, spec, obs);
      assert store.rows[..i + 1] == before[..i] + [row];
      assert store.rows[i + 1..] == before[i..][1..];
      byName := byName[row.name := row];
    }
    assert store.rows[..|rows0|] == store.rows;
    assert Harvest(spec, rows0, obs)[..|rows0|] == Harvest(spec, rows0, obs);
  }

  /** pipelineLaunchStep for an action: pending, then running, then its outcome. */
  method LaunchAction(store: RunStore, i: nat, outcome: Outcome)
    requires i < |store.rows| && store.rows[i].state == Pending
    modifies store`rows
    ensures var row := old(store.rows)[i];
            store.rows == old(store.rows)[i := row.(state := StateAfter(outcome), attempt := row.attempt + 1)]
  {
    var started := store.MarkStepRunning(i, store.rows[i].attempt + 1);
    if outcome != StaysRunning {
      var ok := store.FinishStep(i, StateAfter(outcome));
    }
  }

  /** Second loop of the tick: launch ready actions and scan the harvested rows for the finish decision. */
  method LaunchActions(store: RunStore, spec: seq<Step>, byName: map<string, Row>, outcome: string -> Outcome)
    returns (unfinished: bool, allDone: bool)
    requires RowIndex(store.rows, byName)
    modifies store`rows
    ensures store.rows == Launch(spec, old(store.rows), outcome)
    ensures unfinished <==> Unfinished(spec, old(store.rows))
    ensures allDone <==> AllDone(spec, old(store.rows))
  {
    var rows := store.rows;
    unfinished, allDone := false, true;
    for i := 0 to |rows|
      invariant |store.rows| == |rows|
      invariant forall j :: 0 <= j < |rows| ==>
                  store.rows[j] == if j < i then LaunchRow(spec, rows, rows[j], outcome) else rows[j]
      invariant unfinished <==> Unfinished(spec, rows[..i])
      invariant allDone <==> AllDone(spec, rows[..i])
    {
      var row := rows[i];
      assert rows[..i + 1] == rows[..i] + [row];
      ScanNext(spec, rows[..i], row);
      var st := Lookup(spec, row.name);
      if st.None? { continue; }
      match row.state {
        case Pending =>
          unfinished, allDone := true, false;
          var ready := AllRowNeedsDone(byName, rows, st.value.needs);
          if !ComputeKind(st.value.kind) && ready { LaunchAction(store, i, outcome(row.name)); }
        case Running => unfinished, allDone := true, false;
        case Done =>
        case _ => allDone := false;
      }
    }
    assert rows[..|rows|] == rows;
  }

  /** pipelineTickArgoRun: the tick moves the stored run exactly as TickRun says. */
  method Tick(store: RunStore, spec: seq<Step>, obs: Observation, outcome: string -> Outcome)
    returns (ghost mid: seq<Row>)
    requires ValidObservation(obs)
    modifies store
    ensures if obs.Unreadable? then store.rows == old(store.rows) && store.status == old(store.status)
            else Ticked(spec, old(Run(store.rows, store.status)), obs, outcome, mid, Run(store.rows, store.status))
    ensures Run(store.rows, store.status) == TickRun(spec, old(Run(store.rows, store.status)), obs, outcome)
    ensures store.warning
         == if obs.Missing? && old(store.warning) == "" then "argo workflow missing" else old(store.warning)
  {
    hide Ticked, Harvest, Launch, Unfinished, AllDone;
    mid := store.rows;
    if obs.Unreadable? { return; }
    TickRunIsTicked(spec, Run(store.rows, store.status), obs, outcome);
    mid := Harvest(spec, store.rows, obs);
    if obs.Missing? && store.warning == "" { store.warning := "argo workflow missing"; }
    var byName := HarvestRows(store, spec, obs);
    var unfinished, allDone := LaunchActions(store, spec, byName, outcome);
    if !unfinished {
      var ok := store.FinishRun(if allDone then RunDone else RunFailed);
    }
  }

  lemma ScanNext(spec: seq<Step>, rows: seq<Row>, row: Row)
    ensures Unfinished(spec, rows + [row]) <==>
            Unfinished(spec, rows) || (Lookup(spec, row.name).Some? && !Final(row.state))
    ensures AllDone(spec, rows + [row]) <==> AllDone(spec, rows) && (Lookup(spec, row.name).Some? ==> row.state == Done)
  {
    var all := rows + [row];
    assert all[|rows|] == row && forall i :: 0 <= i < |rows| ==> all[i] == rows[i];
    if AllDone(spec, all) {
      forall i | 0 <= i < |rows| && Lookup(spec, rows[i].name).Some? ensures rows[i].state == Done {
        assert all[i] == rows[i];
      }
    }
  }
}
