/** Runs of the Argo engine over any number of ticks: what they keep, and when they end. */
module ArgoRuns {
  import opened Wrappers
  import opened Strings
  import opened Pipeline
  import opened Argo
  import opened ArgoTick

  /* ---------- whole runs ---------- */

  datatype TickInput = TickInput(obs: Observation, outcome: string -> Outcome)

  /** Ticks in sequence; the engine only picks up active runs. */
  function RunTicks(spec: seq<Step>, run: Run, ticks: seq<TickInput>): Run {
    if ticks == [] then run
    else
      var before := RunTicks(spec, run, ticks[..|ticks| - 1]);
      var t := ticks[|ticks| - 1];
      if before.status == Active then TickRun(spec, before, t.obs, t.outcome) else before
  }

  /** One row per step of the spec, under distinct names. */
  ghost predicate RowsMatch(spec: seq<Step>, rows: seq<Row>) {
    && |rows| == |spec| && NoDuplicates(Names(spec))
    && forall i :: 0 <= i < |rows| ==> rows[i].name == spec[i].name
  }

  lemma {:induction false} LookupAt(spec: seq<Step>, i: nat)
    requires i < |spec| && NoDuplicates(Names(spec))
    ensures Lookup(spec, spec[i].name) == Some(spec[i])
  {
    if i > 0 {
      var names := Names(spec);
      assert names[0] != names[i];
      assert Names(spec[1..]) == names[1..];
      LookupAt(spec[1..], i - 1);
    }
  }

  lemma {:induction false} RowStateAt(rows: seq<Row>, i: nat)
    requires i < |rows| && forall a, b :: 0 <= a < b < |rows| ==> rows[a].name != rows[b].name
    ensures RowState(rows, rows[i].name) == Some(rows[i].state)
  {
    if i < |rows| - 1 { RowStateAt(rows[..|rows| - 1], i); }
  }

  lemma {:induction false} RowStateOrigin(rows: seq<Row>, name: string) returns (i: nat)
    requires RowState(rows, name).Some?
    ensures i < |rows| && rows[i].name == name && RowState(rows, name) == Some(rows[i].state)
  {
    if rows[|rows| - 1].name == name { i := |rows| - 1; } else { i := RowStateOrigin(rows[..|rows| - 1], name); }
  }

  /** A later list in which every row keeps its name, and its state if that was final. */
  ghost predicate Advances(before: seq<Row>, after: seq<Row>) {
    && |before| == |after|
    && forall i :: 0 <= i < |before| ==>
         before[i].name == after[i].name && (Final(before[i].state) ==> after[i] == before[i])
  }

  /** A final row never changes, over any run of ticks. */
  lemma {:induction false} FinalRowsStay(spec: seq<Step>, run: Run, ticks: seq<TickInput>, i: nat)
    requires i <= |ticks|
    ensures Advances(RunTicks(spec, run, ticks[..i]).rows, RunTicks(spec, run, ticks).rows)
    decreases |ticks|
  {
    if i < |ticks| {
      var init := ticks[..|ticks| - 1];
      assert init[..i] == ticks[..i];
      FinalRowsStay(spec, run, init, i);
    } else {
      assert ticks[..i] == ticks;
    }
  }

  /** Every action row that has left pending has all its needs done. */
  ghost predicate ActionsAfterNeeds(spec: seq<Step>, rows: seq<Row>) {
    forall i :: 0 <= i < |rows| && ActionRow(spec, rows[i].name) && rows[i].state != Pending ==>
      NeedsDone(rows, Lookup(spec, rows[i].name).value.needs)
  }

  /** Needs that are done stay done when rows advance. */
  lemma NeedsStayDone(spec: seq<Step>, before: seq<Row>, after: seq<Row>, needs: seq<string>)
    requires RowsMatch(spec, before) && Advances(before, after) && NeedsDone(before, needs)
    ensures NeedsDone(after, needs)
  {
    DistinctRows(spec, before);
    DistinctRows(spec, after);
    forall k | 0 <= k < |needs| ensures RowState(after, needs[k]) == Some(Done) {
      var i := RowStateOrigin(before, needs[k]);
      RowStateAt(after, i);
    }
  }

  lemma DistinctRows(spec: seq<Step>, rows: seq<Row>)
    requires RowsMatch(spec, rows)
    ensures forall a, b :: 0 <= a < b < |rows| ==> rows[a].name != rows[b].name
  {}

  lemma TickKeepsActionsAfterNeeds(spec: seq<Step>, run: Run, obs: Observation, outcome: string -> Outcome)
    requires RowsMatch(spec, run.rows) && ActionsAfterNeeds(spec, run.rows)
    ensures RowsMatch(spec, TickRun(spec, run, obs, outcome).rows)
    ensures ActionsAfterNeeds(spec, TickRun(spec, run, obs, outcome).rows)
  {
    if !obs.Unreadable? {
      var mid := Harvest(spec, run.rows, obs);
      var after := Launch(spec, mid, outcome);
      forall i | 0 <= i < |after| && ActionRow(spec, after[i].name) && after[i].state != Pending
        ensures NeedsDone(after, Lookup(spec, after[i].name).value.needs)
      {
        var needs := Lookup(spec, after[i].name).value.needs;
        assert mid[i] == run.rows[i];
        if mid[i].state == Pending {
          NeedsStayDone(spec, mid, after, needs);
        } else {
          NeedsStayDone(spec, run.rows, after, needs);
        }
      }
    }
  }

  /** Actions launch only after all their needs are done, over any run from freshly created rows. */
  lemma {:induction false} ActionsRunAfterNeeds(spec: seq<Step>, run: Run, ticks: seq<TickInput>)
    requires RowsMatch(spec, run.rows)
    requires forall i :: 0 <= i < |run.rows| && ActionRow(spec, run.rows[i].name) ==> run.rows[i].state == Pending
    ensures RowsMatch(spec, RunTicks(spec, run, ticks).rows) && ActionsAfterNeeds(spec, RunTicks(spec, run, ticks).rows)
  {
    if ticks != [] {
      ActionsRunAfterNeeds(spec, run, ticks[..|ticks| - 1]);
      var t := ticks[|ticks| - 1];
      TickKeepsActionsAfterNeeds(spec, RunTicks(spec, run, ticks[..|ticks| - 1]), t.obs, t.outcome);
    }
  }

  /** The run's status tells the truth about its rows. */
  ghost predicate StatusSound(run: Run) {
    match run.status
    case RunDone => forall i :: 0 <= i < |run.rows| ==> run.rows[i].state == Done
    case RunFailed => (forall i :: 0 <= i < |run.rows| ==> Final(run.rows[i].state))
                      && exists i :: 0 <= i < |run.rows| && run.rows[i].state != Done
    case _ => true
  }

  /** A run finishes only when no row is pending or running, as done exactly when all rows are done. */
  lemma {:induction false} FinishesSoundly(spec: seq<Step>, run: Run, ticks: seq<TickInput>)
    requires RowsMatch(spec, run.rows) && run.status == Active
    ensures RowsMatch(spec, RunTicks(spec, run, ticks).rows) && StatusSound(RunTicks(spec, run, ticks))
  {
    if ticks != [] {
      var before := RunTicks(spec, run, ticks[..|ticks| - 1]);
      FinishesSoundly(spec, run, ticks[..|ticks| - 1]);
      var t := ticks[|ticks| - 1];
      if before.status == Active && !t.obs.Unreadable? {
        var mid := Harvest(spec, before.rows, t.obs);
        forall i | 0 <= i < |mid| ensures Lookup(spec, mid[i].name).Some? { LookupAt(spec, i); }
        if !Unfinished(spec, mid) {
          assert forall i :: 0 <= i < |mid| ==> Final(mid[i].state);
          assert Launch(spec, mid, t.outcome) == mid;
        }
      }
    }
  }

  /** After a tick that sees a missing or terminal workflow no compute row is left running. */
  lemma EndedWorkflowLeavesNoneRunning(spec: seq<Step>, run: Run, obs: Observation, outcome: string -> Outcome, i: nat)
    requires obs.Missing? || (obs.Seen? && WorkflowTerminal(obs.phase))
    requires ValidObservation(obs) && i < |run.rows| && ComputeRow(spec, run.rows[i].name)
    ensures TickRun(spec, run, obs, outcome).rows[i].state != Running
    ensures run.rows[i].state == Running ==> Final(TickRun(spec, run, obs, outcome).rows[i].state)
  {}

  /* ---------- what the tick cannot do ---------- */

  /** An action the tick will never move again: still running, or waiting on a need that ended otherwise. */
  ghost predicate StuckRow(spec: seq<Step>, rows: seq<Row>, i: nat)
    requires i < |rows|
  {
    && ActionRow(spec, rows[i].name)
    && (|| rows[i].state == Running
        || (rows[i].state == Pending && NeedsLost(rows, Lookup(spec, rows[i].name).value.needs)))
  }

  /** Some need ended without being done. */
  ghost predicate NeedsLost(rows: seq<Row>, needs: seq<string>) {
    exists k :: 0 <= k < |needs| && FinalNotDone(rows, needs[k])
  }

  predicate FinalNotDone(rows: seq<Row>, name: string) {
    var s := RowState(rows, name);
    s.Some? && Final(s.value) && s.value != Done
  }

  lemma FinalNotDoneStays(spec: seq<Step>, before: seq<Row>, after: seq<Row>, name: string)
    requires RowsMatch(spec, before) && Advances(before, after) && FinalNotDone(before, name)
    ensures FinalNotDone(after, name)
  {
    DistinctRows(spec, before);
    DistinctRows(spec, after);
    var i := RowStateOrigin(before, name);
    RowStateAt(after, i);
  }

  /** One stuck action keeps the run active forever: the tick neither harvests a gated deploy nor
      skips an action whose need failed. */
  lemma {:induction false} StuckForever(spec: seq<Step>, run: Run, ticks: seq<TickInput>, i: nat)
    requires RowsMatch(spec, run.rows) && run.status == Active && i < |run.rows| && StuckRow(spec, run.rows, i)
    ensures var after := RunTicks(spec, run, ticks);
            after.status == Active && RowsMatch(spec, after.rows) && StuckRow(spec, after.rows, i)
            && after.rows[i] == run.rows[i]
  {
    if ticks != [] {
      StuckForever(spec, run, ticks[..|ticks| - 1], i);
      var before := RunTicks(spec, run, ticks[..|ticks| - 1]);
      var t := ticks[|ticks| - 1];
      if !t.obs.Unreadable? { StuckTick(spec, before, t.obs, t.outcome, i); }
    }
  }

  lemma StuckTick(spec: seq<Step>, run: Run, obs: Observation, outcome: string -> Outcome, i: nat)
    requires RowsMatch(spec, run.rows) && run.status == Active && i < |run.rows| && StuckRow(spec, run.rows, i)
    requires !obs.Unreadable?
    ensures var after := TickRun(spec, run, obs, outcome);
            after.status == Active && RowsMatch(spec, after.rows) && StuckRow(spec, after.rows, i)
            && after.rows[i] == run.rows[i]
  {
    hide Lookup, RowState, NoDuplicates, FinalNotDone;
    var mid := Harvest(spec, run.rows, obs);
    var after := Launch(spec, mid, outcome);
    assert mid[i] == run.rows[i];
    var needs := Lookup(spec, run.rows[i].name).value.needs;
    if run.rows[i].state == Pending {
      var k :| 0 <= k < |needs| && FinalNotDone(run.rows, needs[k]);
      FinalNotDoneStays(spec, run.rows, mid, needs[k]);
      FinalNotDoneStays(spec, run.rows, after, needs[k]);
      LostIsNotDone(mid, needs, k);
    }
    assert !Launchable(spec, mid, mid[i]);
  }

  lemma LostIsNotDone(rows: seq<Row>, needs: seq<string>, k: nat)
    requires k < |needs| && FinalNotDone(rows, needs[k])
    ensures !NeedsDone(rows, needs)
  {}

  ghost predicate NamedBefore(spec: seq<Step>, i: nat, name: string)
    requires i <= |spec|
  {
    exists j :: 0 <= j < i && spec[j].name == name
  }

  /** A spec in compiled order: every need is an earlier step. */
  ghost predicate NeedsEarlier(spec: seq<Step>) {
    forall i, d :: 0 <= i < |spec| && d in spec[i].needs ==> NamedBefore(spec, i, d)
  }

  lemma FirstUnfinishedIsLaunchable(spec: seq<Step>, rows: seq<Row>, first: nat)
    requires RowsMatch(spec, rows) && NeedsEarlier(spec) && first < |rows|
    requires !Final(rows[first].state) && forall j :: 0 <= j < first ==> Final(rows[j].state)
    requires !ComputeRow(spec, rows[first].name) && !StuckRow(spec, rows, first)
    ensures Launchable(spec, rows, rows[first])
  {
    hide StuckRow, NeedsDone, NeedsLost, Lookup, NoDuplicates;
    LookupAt(spec, first);
    DistinctRows(spec, rows);
    NotStuck(spec, rows, first);
    var needs := spec[first].needs;
    forall k | 0 <= k < |needs| ensures RowState(rows, needs[k]) == Some(Done) {
      assert NamedBefore(spec, first, needs[k]);
      var j :| 0 <= j < first && spec[j].name == needs[k];
      RowStateAt(rows, j);
    }
    AllNeedsDone(rows, needs);
  }

  lemma NotStuck(spec: seq<Step>, rows: seq<Row>, i: nat)
    requires i < |rows| && ActionRow(spec, rows[i].name) && !Final(rows[i].state) && !StuckRow(spec, rows, i)
    ensures rows[i].state == Pending
    ensures forall k :: 0 <= k < |Lookup(spec, rows[i].name).value.needs| ==>
              !FinalNotDone(rows, Lookup(spec, rows[i].name).value.needs[k])
  {}

  lemma AllNeedsDone(rows: seq<Row>, needs: seq<string>)
    requires forall k :: 0 <= k < |needs| ==> RowState(rows, needs[k]) == Some(Done)
    ensures NeedsDone(rows, needs)
  {}

  /** Being stuck is the only obstacle: once every compute row is final, a tick of a run without a stuck
      action finishes the run or moves a pending action. */
  lemma UnstuckProgresses(spec: seq<Step>, run: Run, obs: Observation, outcome: string -> Outcome)
    requires RowsMatch(spec, run.rows) && NeedsEarlier(spec) && run.status == Active && !obs.Unreadable?
    requires forall i :: 0 <= i < |run.rows| && ComputeRow(spec, run.rows[i].name) ==> Final(run.rows[i].state)
    requires forall i :: 0 <= i < |run.rows| ==> !StuckRow(spec, run.rows, i)
    ensures var after := TickRun(spec, run, obs, outcome);
            || after.status != Active
            || exists i :: 0 <= i < |run.rows| && run.rows[i].state == Pending && after.rows[i].state != Pending
  {
    hide StuckRow, NeedsEarlier, NeedsDone, Lookup, RowsMatch;
    var rows := run.rows;
    assert Harvest(spec, rows, obs) == rows;
    if i :| 0 <= i < |rows| && !Final(rows[i].state) {
      var first := FirstUnfinished(rows, i);
      FirstUnfinishedIsLaunchable(spec, rows, first);
      assert TickRun(spec, run, obs, outcome).rows[first].state != Pending;
    }
  }

  lemma {:induction false} FirstUnfinished(rows: seq<Row>, i: nat) returns (first: nat)
    requires i < |rows| && !Final(rows[i].state)
    ensures first <= i && !Final(rows[first].state) && forall j :: 0 <= j < first ==> Final(rows[j].state)
  {
    if j :| 0 <= j < i && !Final(rows[j].state) { first := FirstUnfinished(rows, j); } else { first := i; }
  }

  /* ---------- when a run ends ---------- */

  ghost predicate ComputeFinal(spec: seq<Step>, rows: seq<Row>) {
    forall i :: 0 <= i < |rows| && ComputeRow(spec, rows[i].name) ==> Final(rows[i].state)
  }

  ghost predicate AllReadable(ticks: seq<TickInput>) { forall i :: 0 <= i < |ticks| ==> !ticks[i].obs.Unreadable? }

  /** The ticks that could read the workflow. */
  function ReadableOf(ticks: seq<TickInput>): seq<TickInput> {
    if ticks == [] then []
    else
      var init, t := ReadableOf(ticks[..|ticks| - 1]), ticks[|ticks| - 1];
      if t.obs.Unreadable? then init else init + [t]
  }

  /** A tick that cannot read the workflow changes nothing, so leaving it out leaves the run as it is. */
  lemma {:induction false} UnreadableTicksSkip(spec: seq<Step>, run: Run, ticks: seq<TickInput>)
    ensures AllReadable(ReadableOf(ticks))
    ensures RunTicks(spec, run, ReadableOf(ticks)) == RunTicks(spec, run, ticks)
  {
    if ticks != [] {
      var init, t := ticks[..|ticks| - 1], ticks[|ticks| - 1];
      var read := ReadableOf(init);
      UnreadableTicksSkip(spec, run, init);
      if !t.obs.Unreadable? { assert (read + [t])[..|read|] == read; }
    }
  }

  lemma {:induction false} ReadableConcat(a: seq<TickInput>, b: seq<TickInput>)
    ensures ReadableOf(a + b) == ReadableOf(a) + ReadableOf(b)
  {
    if b == [] {
      assert a + b == a;
    } else {
      assert (a + b)[..|a + b| - 1] == a + b[..|b| - 1];
      ReadableConcat(a, b[..|b| - 1]);
    }
  }

  ghost predicate NoneStuck(spec: seq<Step>, rows: seq<Row>) {
    forall i :: 0 <= i < |rows| ==> !StuckRow(spec, rows, i)
  }

  function PendingRows(rows: seq<Row>): nat {
    if rows == [] then 0 else PendingRows(rows[..|rows| - 1]) + if rows[|rows| - 1].state == Pending then 1 else 0
  }

  /** No row becomes pending again. */
  ghost predicate NoNewPending(before: seq<Row>, after: seq<Row>) {
    |before| == |after| && forall i :: 0 <= i < |before| ==> (after[i].state == Pending ==> before[i].state == Pending)
  }

  lemma {:induction false} PendingNeverGrows(before: seq<Row>, after: seq<Row>)
    requires NoNewPending(before, after)
    ensures PendingRows(after) <= PendingRows(before) <= |before|
  {
    if before != [] { PendingNeverGrows(before[..|before| - 1], after[..|after| - 1]); }
  }

  lemma {:induction false} PendingDrops(before: seq<Row>, after: seq<Row>, i: nat)
    requires NoNewPending(before, after) && i < |before| && before[i].state == Pending && after[i].state != Pending
    ensures PendingRows(after) < PendingRows(before)
  {
    if i == |before| - 1 {
      PendingNeverGrows(before[..i], after[..i]);
    } else {
      PendingDrops(before[..|before| - 1], after[..|after| - 1], i);
    }
  }

  /** What a tick keeps of a run whose compute rows are final. */
  lemma TickKeeps(spec: seq<Step>, run: Run, t: TickInput)
    requires RowsMatch(spec, run.rows) && ComputeFinal(spec, run.rows) && run.status == Active
    ensures var after := TickRun(spec, run, t.obs, t.outcome);
            && RowsMatch(spec, after.rows) && ComputeFinal(spec, after.rows) && NoNewPending(run.rows, after.rows)
            && after.status != Stopped
  {
    hide Lookup, NeedsDone, NoDuplicates;
    var after := TickRun(spec, run, t.obs, t.outcome);
    forall i | 0 <= i < |run.rows|
      ensures after.rows[i].name == run.rows[i].name
      ensures after.rows[i].state == Pending ==> run.rows[i].state == Pending
      ensures ComputeRow(spec, run.rows[i].name) ==> after.rows[i] == run.rows[i]
    {}
  }

  /** As long as the run is active and nothing is stuck, every tick has used up a pending row. */
  lemma {:induction false} TicksUsePending(spec: seq<Step>, run: Run, ticks: seq<TickInput>)
    requires RowsMatch(spec, run.rows) && NeedsEarlier(spec) && run.status == Active
    requires ComputeFinal(spec, run.rows) && AllReadable(ticks)
    ensures var after := RunTicks(spec, run, ticks);
            && RowsMatch(spec, after.rows) && ComputeFinal(spec, after.rows) && after.status != Stopped
            && (after.status == Active && NoneStuck(spec, after.rows) ==>
                  PendingRows(after.rows) + |ticks| <= |run.rows|)
  {
    hide TickRun, RowsMatch, NeedsEarlier, ComputeFinal, StuckRow, NoNewPending;
    if ticks == [] {
      PendingOfAll(run.rows);
    } else {
      var init, t := ticks[..|ticks| - 1], ticks[|ticks| - 1];
      var before := RunTicks(spec, run, init);
      TicksUsePending(spec, run, init);
      if before.status == Active {
        TickKeeps(spec, before, t);
        var after := TickRun(spec, before, t.obs, t.outcome);
        SameLengths(spec, before.rows, after.rows);
        forall i | 0 <= i < |before.rows| && StuckRow(spec, before.rows, i) ensures !NoneStuck(spec, after.rows) {
          StuckTick(spec, before, t.obs, t.outcome, i);
        }
        if after.status == Active && NoneStuck(spec, after.rows) {
          ComputeFinalOpens(spec, before.rows);
          UnstuckProgresses(spec, before, t.obs, t.outcome);
          var i :| 0 <= i < |before.rows| && before.rows[i].state == Pending && after.rows[i].state != Pending;
          PendingDrops(before.rows, after.rows, i);
        }
      }
    }
  }

  lemma PendingOfAll(rows: seq<Row>)
    ensures PendingRows(rows) <= |rows|
  {
    PendingNeverGrows(rows, rows);
  }

  lemma SameLengths(spec: seq<Step>, a: seq<Row>, b: seq<Row>)
    requires RowsMatch(spec, a) && RowsMatch(spec, b)
    ensures |a| == |b| == |spec|
  {}

  lemma ComputeFinalOpens(spec: seq<Step>, rows: seq<Row>)
    requires ComputeFinal(spec, rows)
    ensures forall i :: 0 <= i < |rows| && ComputeRow(spec, rows[i].name) ==> Final(rows[i].state)
  {}

  /** A finished run has no stuck row. */
  lemma {:induction false} FinishedIsUnstuck(spec: seq<Step>, run: Run, ticks: seq<TickInput>)
    requires RowsMatch(spec, run.rows) && run.status == Active
    requires var after := RunTicks(spec, run, ticks); after.status != Active && after.status != Stopped
    ensures NoneStuck(spec, RunTicks(spec, run, ticks).rows)
  {
    FinishesSoundly(spec, run, ticks);
  }

  /** Once the compute rows are final and the readable ticks outnumber the rows, the run has ended exactly when
      no action is stuck. */
  lemma {:induction false} EndsUnlessStuck(spec: seq<Step>, run: Run, ticks: seq<TickInput>)
    requires RowsMatch(spec, run.rows) && NeedsEarlier(spec) && run.status == Active
    requires ComputeFinal(spec, run.rows) && |ReadableOf(ticks)| > |run.rows|
    ensures RunTicks(spec, run, ticks).status != Active <==> NoneStuck(spec, RunTicks(spec, run, ticks).rows)
  {
    hide RunTicks, NoneStuck, PendingRows, ReadableOf;
    UnreadableTicksSkip(spec, run, ticks);
    TicksUsePending(spec, run, ReadableOf(ticks));
    if RunTicks(spec, run, ticks).status != Active { FinishedIsUnstuck(spec, run, ticks); }
  }

  /* ---------- when a run ends, from its inputs ---------- */

  /** Action rows that have not been launched are pending; the others are where their outcome puts them. */
  ghost predicate OutcomesHold(spec: seq<Step>, rows: seq<Row>, outcome: string -> Outcome) {
    forall i :: 0 <= i < |rows| && ActionRow(spec, rows[i].name) ==>
      rows[i].state == Pending || rows[i].state == StateAfter(outcome(rows[i].name))
  }

  /** The ticks see the same outcome for each action. */
  ghost predicate SameOutcomes(ticks: seq<TickInput>, outcome: string -> Outcome) {
    forall i :: 0 <= i < |ticks| ==> ticks[i].outcome == outcome
  }

  ghost predicate ActionsPending(spec: seq<Step>, rows: seq<Row>) {
    forall i :: 0 <= i < |rows| && ActionRow(spec, rows[i].name) ==> rows[i].state == Pending
  }

  /** A need that will be met: a compute row that is done, or an action that succeeds. */
  ghost predicate Met(spec: seq<Step>, rows: seq<Row>, outcome: string -> Outcome, name: string) {
    if ComputeRow(spec, name) then RowState(rows, name) == Some(Done) else outcome(name) == Succeeds
  }

  /** Every action's needs will be met, and none of the actions stays running. */
  ghost predicate Clear(spec: seq<Step>, rows: seq<Row>, outcome: string -> Outcome) {
    forall i :: 0 <= i < |spec| && ActionRow(spec, spec[i].name) ==>
      outcome(spec[i].name) != StaysRunning && forall d :: d in spec[i].needs ==> Met(spec, rows, outcome, d)
  }

  /** Compute rows keep their final states and actions end as their outcomes say. */
  lemma {:induction false} TicksKeepOutcomes(spec: seq<Step>, run: Run, ticks: seq<TickInput>,
                                             outcome: string -> Outcome)
    requires RowsMatch(spec, run.rows) && ComputeFinal(spec, run.rows) && SameOutcomes(ticks, outcome)
    requires OutcomesHold(spec, run.rows, outcome)
    ensures var after := RunTicks(spec, run, ticks).rows;
            && RowsMatch(spec, after) && Advances(run.rows, after) && OutcomesHold(spec, after, outcome)
  {
    hide Lookup, NeedsDone, NoDuplicates;
    if ticks != [] {
      var init, t := ticks[..|ticks| - 1], ticks[|ticks| - 1];
      TicksKeepOutcomes(spec, run, init, outcome);
      assert t.outcome == outcome;
    }
  }

  /** At the end a need is done exactly when it was going to be met, if its row is final at all. */
  lemma {:induction false} NeedIsDone(spec: seq<Step>, before: seq<Row>, after: seq<Row>,
                                      outcome: string -> Outcome, j: nat)
    requires RowsMatch(spec, before) && RowsMatch(spec, after) && Advances(before, after) && ComputeFinal(spec, before)
    requires OutcomesHold(spec, after, outcome) && j < |spec|
    ensures RowState(after, spec[j].name) == Some(after[j].state)
    ensures Final(after[j].state) ==> (after[j].state == Done <==> Met(spec, before, outcome, spec[j].name))
  {
    hide NoDuplicates;
    LookupAt(spec, j);
    DistinctRows(spec, before);
    DistinctRows(spec, after);
    RowStateAt(before, j);
    RowStateAt(after, j);
  }

  /** In a compiled spec a need is the name of some step. */
  lemma NeedIndex(spec: seq<Step>, i: nat, d: string) returns (j: nat)
    requires NeedsEarlier(spec) && i < |spec| && d in spec[i].needs
    ensures j < |spec| && spec[j].name == d
  {
    assert NamedBefore(spec, i, d);
    j :| 0 <= j < i && spec[j].name == d;
  }

  /** A clear run leaves no action stuck. */
  lemma {:induction false} ClearIsUnstuck(spec: seq<Step>, before: seq<Row>, after: seq<Row>,
                                          outcome: string -> Outcome)
    requires RowsMatch(spec, before) && RowsMatch(spec, after) && Advances(before, after) && ComputeFinal(spec, before)
    requires NeedsEarlier(spec) && OutcomesHold(spec, after, outcome) && Clear(spec, before, outcome)
    ensures NoneStuck(spec, after)
  {
    hide NeedsEarlier, Advances, Met, NoDuplicates, Lookup;
    forall i | 0 <= i < |after| ensures !StuckRow(spec, after, i) {
      LookupAt(spec, i);
      if ActionRow(spec, after[i].name) {
        var needs := spec[i].needs;
        forall k | 0 <= k < |needs| ensures !FinalNotDone(after, needs[k]) {
          var j := NeedIndex(spec, i, needs[k]);
          NeedIsDone(spec, before, after, outcome, j);
        }
      }
    }
  }

  /** In a finished run every action's needs were met and none stayed running; it is done exactly when
      everything was met. */
  lemma {:induction false} FinishedIsClear(spec: seq<Step>, before: seq<Row>, end: Run, outcome: string -> Outcome)
    requires RowsMatch(spec, before) && RowsMatch(spec, end.rows) && Advances(before, end.rows)
    requires ComputeFinal(spec, before)
    requires NeedsEarlier(spec) && OutcomesHold(spec, end.rows, outcome) && ActionsAfterNeeds(spec, end.rows)
    requires end.status != Active && end.status != Stopped && StatusSound(end)
    ensures Clear(spec, before, outcome)
    ensures end.status == RunDone <==> forall i :: 0 <= i < |spec| ==> Met(spec, before, outcome, spec[i].name)
  {
    hide NeedsEarlier, Advances, Met, NoDuplicates, Lookup, ComputeRow, NeedsDone;
    var rows := end.rows;
    assert forall i :: 0 <= i < |spec| ==> Final(rows[i].state);
    forall i | 0 <= i < |spec| ensures rows[i].state == Done <==> Met(spec, before, outcome, spec[i].name) {
      NeedIsDone(spec, before, rows, outcome, i);
    }
    forall i | 0 <= i < |spec| && ActionRow(spec, spec[i].name)
      ensures outcome(spec[i].name) != StaysRunning && forall d :: d in spec[i].needs ==> Met(spec, before, outcome, d)
    {
      assert rows[i].name == spec[i].name;
      LookupAt(spec, i);
      forall d | d in spec[i].needs ensures Met(spec, before, outcome, d) {
        var j := NeedIndex(spec, i, d);
        NeedIsDone(spec, before, rows, outcome, j);
        DoneNeed(rows, spec[i].needs, d);
      }
    }
  }

  lemma DoneNeed(rows: seq<Row>, needs: seq<string>, d: string)
    requires NeedsDone(rows, needs) && d in needs
    ensures RowState(rows, d) == Some(Done)
  {}

  lemma {:induction false} AllMetIsClear(spec: seq<Step>, rows: seq<Row>, outcome: string -> Outcome)
    requires NeedsEarlier(spec) && forall i :: 0 <= i < |spec| ==> Met(spec, rows, outcome, spec[i].name)
    ensures Clear(spec, rows, outcome)
  {
    hide NeedsEarlier;
    forall i, d | 0 <= i < |spec| && d in spec[i].needs ensures Met(spec, rows, outcome, d) {
      var j := NeedIndex(spec, i, d);
    }
  }

  /** Once the compute rows are final, the outcomes alone decide whether the run ends, and whether it ends as
      done. */
  lemma {:induction false} EndsExactly(spec: seq<Step>, run: Run, ticks: seq<TickInput>, outcome: string -> Outcome)
    requires RowsMatch(spec, run.rows) && NeedsEarlier(spec) && run.status == Active
    requires ComputeFinal(spec, run.rows) && OutcomesHold(spec, run.rows, outcome) && ActionsAfterNeeds(spec, run.rows)
    requires SameOutcomes(ReadableOf(ticks), outcome) && |ReadableOf(ticks)| > |run.rows|
    ensures RunTicks(spec, run, ticks).status != Active <==> Clear(spec, run.rows, outcome)
    ensures RunTicks(spec, run, ticks).status == RunDone <==>
            forall i :: 0 <= i < |spec| ==> Met(spec, run.rows, outcome, spec[i].name)
  {
    hide RunTicks, RowsMatch, NeedsEarlier, Clear, Met, NoneStuck, ActionsAfterNeeds, StatusSound, Advances;
    hide ReadableOf;
    var end, read := RunTicks(spec, run, ticks), ReadableOf(ticks);
    EndsUnlessStuck(spec, run, ticks);
    UnreadableTicksSkip(spec, run, ticks);
    TicksUsePending(spec, run, read);
    TicksKeepOutcomes(spec, run, read, outcome);
    TicksKeepActionsAfterNeeds(spec, run, ticks);
    FinishesSoundly(spec, run, ticks);
    if end.status != Active { FinishedIsClear(spec, run.rows, end, outcome); }
    if Clear(spec, run.rows, outcome) { ClearIsUnstuck(spec, run.rows, end.rows, outcome); }
    if forall i :: 0 <= i < |spec| ==> Met(spec, run.rows, outcome, spec[i].name) {
      AllMetIsClear(spec, run.rows, outcome);
    }
  }

  lemma {:induction false} TicksAppend(spec: seq<Step>, run: Run, a: seq<TickInput>, b: seq<TickInput>)
    ensures RunTicks(spec, run, a + b) == RunTicks(spec, RunTicks(spec, run, a), b)
  {
    hide TickRun;
    if b == [] {
      assert a + b == a;
    } else {
      TicksAppend(spec, run, a, b[..|b| - 1]);
      assert (a + b)[..|a + b| - 1] == a + b[..|b| - 1];
    }
  }

  lemma {:induction false} TicksAfterEnd(spec: seq<Step>, run: Run, ticks: seq<TickInput>)
    requires run.status != Active
    ensures RunTicks(spec, run, ticks) == run
  {
    if ticks != [] { TicksAfterEnd(spec, run, ticks[..|ticks| - 1]); }
  }

  /** A whole run, from pending actions: if the compute rows are final after the first `k` ticks and more readable
      ticks follow than there are rows, it ends exactly when every need of an action is then met and no action stays
      running, and it ends as done exactly when every compute row is done and every action succeeds. */
  lemma {:induction false} WholeRunEndsExactly(spec: seq<Step>, run: Run, ticks: seq<TickInput>, k: nat,
                                               outcome: string -> Outcome)
    requires RowsMatch(spec, run.rows) && NeedsEarlier(spec) && run.status == Active && ActionsPending(spec, run.rows)
    requires SameOutcomes(ReadableOf(ticks), outcome) && k <= |ticks| && |ReadableOf(ticks[k..])| > |spec|
    requires ComputeFinal(spec, RunTicks(spec, run, ticks[..k]).rows)
    ensures var rows := RunTicks(spec, run, ticks[..k]).rows;
            && (RunTicks(spec, run, ticks).status != Active <==> Clear(spec, rows, outcome))
            && (RunTicks(spec, run, ticks).status == RunDone <==>
                  forall i :: 0 <= i < |spec| ==> Met(spec, rows, outcome, spec[i].name))
  {
    hide RunTicks, NeedsEarlier, Clear, Met, ActionsAfterNeeds, StatusSound, ComputeFinal, Lookup, ReadableOf;
    var first, rest := ticks[..k], ticks[k..];
    var mid := RunTicks(spec, run, first);
    assert ticks == first + rest;
    ReadableConcat(first, rest);
    OutcomesOfParts(ReadableOf(first), ReadableOf(rest), outcome);
    UnreadableTicksSkip(spec, run, first);
    TicksAppend(spec, run, first, rest);
    FinishesSoundly(spec, run, first);
    ActionsRunAfterNeeds(spec, run, first);
    TicksFollowOutcomes(spec, run, ReadableOf(first), outcome);
    if mid.status == Active {
      EndsExactly(spec, mid, rest, outcome);
    } else {
      TicksAfterEnd(spec, mid, rest);
      RowsAdvanceToThemselves(mid.rows);
      FinishedIsClear(spec, mid.rows, mid, outcome);
    }
  }

  lemma OutcomesOfParts(a: seq<TickInput>, b: seq<TickInput>, outcome: string -> Outcome)
    requires SameOutcomes(a + b, outcome)
    ensures SameOutcomes(a, outcome) && SameOutcomes(b, outcome)
  {
    forall i | 0 <= i < |a| ensures a[i].outcome == outcome { assert (a + b)[i] == a[i]; }
    forall i | 0 <= i < |b| ensures b[i].outcome == outcome { assert (a + b)[|a| + i] == b[i]; }
  }

  lemma RowsAdvanceToThemselves(rows: seq<Row>)
    ensures Advances(rows, rows)
  {}

  lemma {:induction false} TicksFollowOutcomes(spec: seq<Step>, run: Run, ticks: seq<TickInput>,
                                               outcome: string -> Outcome)
    requires RowsMatch(spec, run.rows) && SameOutcomes(ticks, outcome) && OutcomesHold(spec, run.rows, outcome)
    requires run.status == Active
    ensures OutcomesHold(spec, RunTicks(spec, run, ticks).rows, outcome) && RunTicks(spec, run, ticks).status != Stopped
  {
    hide Lookup, NeedsDone, NoDuplicates;
    if ticks != [] {
      TicksFollowOutcomes(spec, run, ticks[..|ticks| - 1], outcome);
      assert ticks[|ticks| - 1].outcome == outcome;
    }
  }

  lemma {:induction false} TicksKeepActionsAfterNeeds(spec: seq<Step>, run: Run, ticks: seq<TickInput>)
    requires RowsMatch(spec, run.rows) && ActionsAfterNeeds(spec, run.rows)
    ensures RowsMatch(spec, RunTicks(spec, run, ticks).rows) && ActionsAfterNeeds(spec, RunTicks(spec, run, ticks).rows)
  {
    if ticks != [] {
      TicksKeepActionsAfterNeeds(spec, run, ticks[..|ticks| - 1]);
      var t := ticks[|ticks| - 1];
      TickKeepsActionsAfterNeeds(spec, RunTicks(spec, run, ticks[..|ticks| - 1]), t.obs, t.outcome);
    }
  }

  /** A tick that sees the workflow missing or terminal makes all launched compute rows final. */
  lemma EndedWorkflowMakesFinal(spec: seq<Step>, run: Run, obs: Observation, outcome: string -> Outcome)
    requires obs.Missing? || (obs.Seen? && WorkflowTerminal(obs.phase))
    requires ValidObservation(obs)
    requires forall i :: 0 <= i < |run.rows| && ComputeRow(spec, run.rows[i].name) ==> run.rows[i].state != Pending
    ensures ComputeFinal(spec, TickRun(spec, run, obs, outcome).rows)
  {
    var after := TickRun(spec, run, obs, outcome).rows;
    forall i | 0 <= i < |after| && ComputeRow(spec, after[i].name) ensures Final(after[i].state) {
      EndedWorkflowLeavesNoneRunning(spec, run, obs, outcome, i);
    }
  }
}
