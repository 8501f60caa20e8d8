/** The turns of a canary / blue-green rollout: the stored record, the verdict on a step, what one turn of the step
    loop does with the record it reads, and how many turns a healthy rollout takes. */
module CanaryTurns {
  import opened Wrappers
  import opened Cluster
  import opened CanaryPlan
  import opened CanaryRouting

  /* ---------- the stored rollout record ---------- */

  datatype Phase = Starting | Stepping | PromoteRequested | AbortRequested | Promoting | Finished | Aborted

  datatype Request = Promote | Abort

  datatype Rollout = Rollout(phase: Phase, step: int, weight: int, startedAt: int, probesOK: nat, probesTotal: nat)

  function PhaseOf(r: Request): Phase { if r == Promote then PromoteRequested else AbortRequested }

  /** RequestRolloutPhase: only while starting or stepping. */
  predicate Accepts(ro: Rollout) { ro.phase == Starting || ro.phase == Stepping }

  function WithRequest(ro: Rollout, r: Option<Request>): Rollout {
    if r.Some? && Accepts(ro) then ro.(phase := PhaseOf(r.value)) else ro
  }

  /** SetRolloutStep: unconditional; the clock is stored in whole seconds. */
  function WithStep(step: int, weight: int, now: int): Rollout {
    Rollout(Stepping, step, weight, now / SECOND, 0, 0)
  }

  /** AddRolloutProbe. */
  function WithProbe(ro: Rollout, ok: bool): Rollout {
    ro.(probesOK := ro.probesOK + if ok then 1 else 0, probesTotal := ro.probesTotal + 1)
  }

  /** The phases the step loop still acts on. */
  predicate Active(p: Phase) { p == Starting || p == Stepping || p == PromoteRequested || p == AbortRequested }

  /* ---------- what the outside answers ---------- */

  /** Answers of the cluster and the renderer to the n-th call. */
  datatype Answers = Answers(patchOk: nat -> bool, deleteOk: nat -> bool, renderOk: nat -> bool,
                             hasCRD: nat -> bool, want: nat -> Option<int>)

  /** The `n` patches from call `from` on are accepted. */
  ghost predicate PatchesOk(answers: Answers, from: nat, n: nat) {
    forall i :: from <= i < from + n ==> answers.patchOk(i)
  }

  /** From call `from` on the cluster and the renderer refuse nothing. */
  ghost predicate FineFrom(answers: Answers, from: nat) {
    forall n :: n >= from ==> answers.patchOk(n) && answers.deleteOk(n) && answers.renderOk(n)
  }

  /** One turn of the step loop as the outside sees it: a request that lands before the loop reads the
      record, one that lands after, whether a newer deploy exists and whether the app's newest active
      rollout is still this one, the probe, the pods, and how far the clock moves until the hold check and
      from there to the write. A clock that is set back moves by a negative amount. */
  datatype Turn = Turn(early: Option<Request>, superseded: bool, owner: bool, probeOk: bool, restarted: bool,
                       late: Option<Request>, probing: int, writing: int)

  /** canaryTick: the sleep after a turn that waits. */
  const TICK := 10 * SECOND

  /** The facts an advance was decided on. */
  datatype Check = Check(at: int, probesOK: nat, probesTotal: nat, restarted: bool)

  /** Nothing left to wait for at a step entered at `start`: the hold has elapsed but for the sub-second
      part the record drops, no pod restarted, and the probes meet the policy. */
  ghost predicate GatePassed(pol: Policy, s: Strategy, c: Check, start: int) {
    && !c.restarted
    && HoldOver(pol, s, c.at - start / SECOND * SECOND)
    && 100 * c.probesOK >= pol.minSuccess * c.probesTotal
  }

  /** Reason enough to abort: a restart, or a rate below the policy after five probes or at the end of the hold. */
  ghost predicate GateFails(pol: Policy, s: Strategy, c: Check, start: int) {
    || c.restarted
    || (100 * c.probesOK < pol.minSuccess * c.probesTotal
        && (c.probesTotal >= 5 || HoldOver(pol, s, c.at - start / SECOND * SECOND)))
  }

  /** A hold can end early only by the dropped fraction of a second. */
  lemma GateHoldsNearly(pol: Policy, s: Strategy, c: Check, start: int)
    requires GatePassed(pol, s, c, start)
    ensures HoldOver(pol, s, c.at - start + 999_999_999)
  {}

  /** It does end early: a step entered late in a second is left before its full hold. */
  lemma HoldCanEndEarly()
    ensures exists pol, c: Check, start: int ::
              ValidPolicy(pol) && GatePassed(pol, Canary, c, start) && !HoldOver(pol, Canary, c.at - start)
  {
    var pol := Policy([10, 50], 120, 99, 600);
    var start := SECOND - 1;
    var c := Check(120 * SECOND, 12, 12, false);
    assert start / SECOND == 0;
    assert GatePassed(pol, Canary, c, start);
  }

  /** The exact rule: entering at `start`, a check at `at` passes the hold iff it is a full hold after the
      second in which the step was entered. */
  lemma EarlyExactly(pol: Policy, s: Strategy, c: Check, start: int)
    requires !c.restarted && 100 * c.probesOK >= pol.minSuccess * c.probesTotal
    ensures GatePassed(pol, s, c, start) && !HoldOver(pol, s, c.at - start) <==>
            HoldOver(pol, s, c.at - start + start % 1_000_000_000) && !HoldOver(pol, s, c.at - start)
  {}

  datatype Verdict = Wait | Advance | Fail

  /** The decision of one stepping turn after its probe is recorded. */
  function Judge(pol: Policy, s: Strategy, ro: Rollout, restarted: bool, now: int): Verdict {
    var rate := if ro.probesTotal > 0 then ro.probesOK * 100 / ro.probesTotal else 100;
    if restarted then Fail
    else if ro.probesTotal >= 5 && rate < pol.minSuccess then Fail
    else if now - ro.startedAt * SECOND >= CanaryHold(pol, s) then
      if ro.probesTotal > 0 && rate < pol.minSuccess then Fail else Advance
    else Wait
  }

  /** The floored rate test advances exactly when the gate is passed, and aborts exactly when it fails. */
  lemma JudgeIsGate(pol: Policy, s: Strategy, ro: Rollout, restarted: bool, now: int, start: int)
    requires ro.startedAt == start / SECOND && ro.probesOK <= ro.probesTotal && ro.probesTotal > 0
    ensures Judge(pol, s, ro, restarted, now) == Advance <==>
            GatePassed(pol, s, Check(now, ro.probesOK, ro.probesTotal, restarted), start)
    ensures Judge(pol, s, ro, restarted, now) == Fail <==>
            GateFails(pol, s, Check(now, ro.probesOK, ro.probesTotal, restarted), start)
  {
    hide HoldOver, CanaryHold;
    HoldOverExactly(pol, s, now - start / SECOND * SECOND);
    FlooredRateIsExact(ro.probesOK, ro.probesTotal, pol.minSuccess);
  }

  ghost predicate WellPaced(pol: Policy, s: Strategy, first: nat, applied: seq<int>, starts: seq<int>,
                            checks: seq<Check>) {
    && |applied| == |starts| && |checks| <= |applied| && FollowsPolicy(pol, s, first, applied)
    && (forall i :: 0 <= i < |checks| ==> GatePassed(pol, s, checks[i], starts[i]))
  }

  lemma EnteringKeepsPace(pol: Policy, s: Strategy, first: nat, applied: seq<int>, starts: seq<int>,
                          checks: seq<Check>, now: int)
    requires WellPaced(pol, s, first, applied, starts, checks) && first + |applied| < |CanarySteps(pol, s)|
    ensures WellPaced(pol, s, first, applied + [CanarySteps(pol, s)[first + |applied|]], starts + [now], checks)
  {
    hide CanarySteps, FollowsPolicy, WalkedThrough, GatePassed;
    StepsOfPolicy(pol, s, first, applied);
    StepsOfPolicy(pol, s, first, applied + [CanarySteps(pol, s)[first + |applied|]]);
  }

  lemma PaceBounds(pol: Policy, s: Strategy, first: nat, applied: seq<int>, starts: seq<int>, checks: seq<Check>)
    requires WellPaced(pol, s, first, applied, starts, checks)
    ensures |applied| == |starts| && |checks| <= |applied| && first + |applied| <= |CanarySteps(pol, s)|
  {
    StepsOfPolicy(pol, s, first, applied);
  }

  /** The weights are the policy's, each was held long enough, and with all of them entered none is left. */
  lemma PaceMeans(pol: Policy, s: Strategy, first: nat, applied: seq<int>, starts: seq<int>, checks: seq<Check>)
    requires WellPaced(pol, s, first, applied, starts, checks)
    ensures |applied| == |starts| && |checks| <= |applied| && FollowsPolicy(pol, s, first, applied)
    ensures forall i :: 0 <= i < |checks| ==>
              HoldOver(pol, s, checks[i].at - starts[i] / 1_000_000_000 * 1_000_000_000)
    ensures first + |applied| == |CanarySteps(pol, s)| ==> WalkedThrough(pol, s, first, applied)
  {
    hide HoldOver, CanarySteps, FollowsPolicy, WalkedThrough;
    StepsOfPolicy(pol, s, first, applied);
  }

  lemma LeavingKeepsPace(pol: Policy, s: Strategy, first: nat, applied: seq<int>, starts: seq<int>,
                         checks: seq<Check>, c: Check)
    requires WellPaced(pol, s, first, applied, starts, checks) && |checks| < |applied|
    requires GatePassed(pol, s, c, starts[|checks|])
    ensures WellPaced(pol, s, first, applied, starts, checks + [c])
  {}

  /* ---------- one turn, as a relation ---------- */

  /** What stays the same over a run of the step loop; `first` is the index of the first step it enters. */
  datatype Rules = Rules(app: App, image: string, policy: Policy, strategy: Strategy, answers: Answers, first: nat)

  /** The cluster, the calls made so far, the clock and the record between two turns; the weights entered, when
      each was entered, the facts each was left on, and the call number at which the last one was sent. */
  datatype Snap = Snap(objs: State, calls: nat, now: int, ro: Rollout, promoted: bool, applied: seq<int>,
                       starts: seq<int>, checks: seq<Check>, sentAt: nat)

  function CheckAt(a: Snap, t: Turn): int { a.now + t.probing }

  function WriteAt(a: Snap, t: Turn): int { CheckAt(a, t) + t.writing }

  function VerdictOn(pol: Policy, s: Strategy, before: Rollout, t: Turn, at: int): Verdict {
    Judge(pol, s, WithProbe(before, t.probeOk), t.restarted, at)
  }

  /** The facts this turn judges the step of its record on. */
  function CheckOf(a: Snap, t: Turn): Check {
    var ro := WithProbe(a.ro, t.probeOk);
    Check(CheckAt(a, t), ro.probesOK, ro.probesTotal, t.restarted)
  }

  /** What setCanaryWeight would apply at this call number. */
  function SentFor(r: Rules, from: nat, weight: int): Option<seq<Object>> {
    WeightObjects(r.app, r.image, r.strategy, weight, r.answers.hasCRD(from), r.answers.want(from))
  }

  /** Nothing keeps that weight from being sent. */
  ghost predicate Sendable(r: Rules, from: nat, weight: int) {
    var objs := SentFor(r, from, weight);
    r.answers.renderOk(from) && objs.Some? && PatchesOk(r.answers, from, |objs.value|)
  }

  /** Nothing keeps the stable manifests from being applied. */
  ghost predicate Promotable(r: Rules, from: nat) {
    r.answers.renderOk(from) && PatchesOk(r.answers, from, |Rendered(r.app, r.image)|)
  }

  /** The weight of the next step of the policy is in the cluster, all of it, and the step is recorded. */
  ghost predicate Enters(r: Rules, a: Snap, at: int, b: Snap) {
    var k, steps := r.first + |a.applied|, CanarySteps(r.policy, r.strategy);
    && k < |steps|
    && var objs := SentFor(r, a.calls, steps[k]);
    && objs.Some?
    && b == a.(objs := Applied(a.objs, objs.value, |objs.value|), calls := a.calls + |objs.value|, now := at,
               ro := WithStep(k, steps[k], at), applied := a.applied + [steps[k]], starts := a.starts + [at],
               sentAt := a.calls)
  }

  ghost predicate SameCourse(a: Snap, b: Snap) {
    a.applied == b.applied && a.starts == b.starts && a.checks == b.checks
  }

  /** The rollout was aborted. */
  ghost predicate Drops(a: Snap, b: Snap) { b.ro.phase == Aborted && b.promoted == a.promoted && SameCourse(a, b) }

  /** A promotion was attempted; it is under way unless something was refused. */
  ghost predicate Promotes(r: Rules, a: Snap, b: Snap) {
    b.promoted && SameCourse(a, b) && b.ro.phase == if Promotable(r, a.calls) then Promoting else Aborted
  }

  /** The next step is entered, or the rollout aborted if its weight cannot be sent. */
  ghost predicate EntersOrDrops(r: Rules, a: Snap, at: int, b: Snap, done: bool)
    requires r.first + |a.applied| < |CanarySteps(r.policy, r.strategy)|
  {
    if Sendable(r, a.calls, CanarySteps(r.policy, r.strategy)[r.first + |a.applied|]) then !done && Enters(r, a, at, b)
    else done && Drops(a, b)
  }

  /** After a step: the next one, or the promotion when there is none. */
  ghost predicate Advances(r: Rules, a: Snap, t: Turn, b: Snap, done: bool) {
    var left := a.(ro := WithProbe(a.ro, t.probeOk), now := CheckAt(a, t), checks := a.checks + [CheckOf(a, t)]);
    if r.first + |a.applied| < |CanarySteps(r.policy, r.strategy)| then EntersOrDrops(r, left, WriteAt(a, t), b, done)
    else done && Promotes(r, left, b)
  }

  /** What a stepping turn does with its verdict. */
  ghost predicate Follows(r: Rules, a: Snap, t: Turn, b: Snap, done: bool) {
    match VerdictOn(r.policy, r.strategy, a.ro, t, CheckAt(a, t))
    case Fail => done && Drops(a, b)
    case Wait => !done && b == a.(ro := WithRequest(WithProbe(a.ro, t.probeOk), t.late), now := CheckAt(a, t) + TICK)
    case Advance => Advances(r, a, t, b, done)
  }

  /** The snapshot with the record as the turn reads it. */
  function Read(a: Snap, t: Turn): Snap { a.(ro := WithRequest(a.ro, t.early)) }

  /** One turn of the step loop. */
  ghost predicate TurnMade(r: Rules, a: Snap, t: Turn, b: Snap, done: bool) {
    var read := Read(a, t);
    if t.superseded || read.ro.phase == AbortRequested then done && Drops(read, b)
    else if read.ro.phase == PromoteRequested then done && Promotes(r, read, b)
    else if read.ro.phase == Starting then
      && r.first + |a.applied| < |CanarySteps(r.policy, r.strategy)|
      && EntersOrDrops(r, read, WriteAt(a, t), b, done)
    else Follows(r, read, t, b, done)
  }

  /** A request that lands after this record was read will still be there after the turn. */
  ghost predicate Survives(r: Rules, read: Snap, t: Turn) {
    && !t.superseded && read.ro.phase == Stepping
    && VerdictOn(r.policy, r.strategy, read.ro, t, CheckAt(read, t)) == Wait
  }

  /** The cluster carries the weight entered last, as setCanaryWeight's answers had it. */
  ghost predicate Carried(r: Rules, a: Snap) {
    a.applied != [] ==>
      Carries(r.app, r.image, r.strategy, a.objs, a.applied[|a.applied| - 1],
              r.answers.hasCRD(a.sentAt), r.answers.want(a.sentAt))
  }

  lemma EnteredIsCarried(r: Rules, a: Snap, at: int, b: Snap)
    requires Enters(r, a, at, b)
    ensures Carried(r, b)
  {
    hide Applied, WeightObjects, Carries;
    var k, steps := r.first + |a.applied|, CanarySteps(r.policy, r.strategy);
    WeightArrives(r.app, r.image, r.strategy, a.objs, steps[k], r.answers.hasCRD(a.calls), r.answers.want(a.calls));
  }

  lemma CarriedStays(r: Rules, a: Snap, b: Snap)
    requires Carried(r, a) && a.objs == b.objs && a.applied == b.applied && a.sentAt == b.sentAt
    ensures Carried(r, b)
  {}

  lemma SendableMeans(r: Rules, from: nat, weight: int)
    requires Sendable(r, from, weight)
    ensures SentFor(r, from, weight).Some?
  {}

  /** A request accepted after the record was read survives the turn exactly when no newer deploy owns the app,
      that record is stepping, and the verdict on it is to wait. */
  lemma LateRequestSurvives(r: Rules, a: Snap, t: Turn, b: Snap, done: bool)
    requires TurnMade(r, a, t, b, done) && t.late.Some? && Accepts(Read(a, t).ro)
    ensures b.ro.phase == PhaseOf(t.late.value) <==> Survives(r, Read(a, t), t)
  {
    hide Judge, CheckOf, SentFor, CanarySteps, Sendable, Promotable, Applied;
  }

  /* ---------- whole runs ---------- */

  /** The run between two consecutive snapshots is one turn; only the last turn ends it, and it goes on as long
      as there are turns. */
  ghost predicate Course(r: Rules, snaps: seq<Snap>, turns: seq<Turn>, done: bool) {
    && 1 <= |snaps| <= |turns| + 1 && (done ==> |snaps| > 1) && (!done ==> |snaps| == |turns| + 1)
    && forall i :: 0 <= i < |snaps| - 1 ==> TurnMade(r, snaps[i], turns[i], snaps[i + 1], done && i == |snaps| - 2)
  }

  /** Every snapshot of the run at which the loop is still going has its weight in the cluster. */
  ghost predicate AllCarried(r: Rules, snaps: seq<Snap>, done: bool) {
    forall i :: 0 <= i < (if done then |snaps| - 1 else |snaps|) ==> Carried(r, snaps[i])
  }

  /** A run of the step loop whose weights were all in the cluster. */
  ghost predicate Walk(r: Rules, snaps: seq<Snap>, turns: seq<Turn>, done: bool) {
    Course(r, snaps, turns, done) && AllCarried(r, snaps, done)
  }

  lemma WalkStarts(r: Rules, a: Snap, turns: seq<Turn>)
    requires Carried(r, a)
    ensures Walk(r, [a], turns[..0], false)
  {}

  /** A run goes on by one turn. */
  lemma WalkStep(r: Rules, snaps: seq<Snap>, turns: seq<Turn>, b: Snap, done: bool)
    requires 1 <= |snaps| <= |turns| && Walk(r, snaps, turns[..|snaps| - 1], false)
    requires TurnMade(r, snaps[|snaps| - 1], turns[|snaps| - 1], b, done) && (!done ==> Carried(r, b))
    ensures Walk(r, snaps + [b], if done then turns else turns[..|snaps|], done)
  {
    hide TurnMade, Carried;
    var all := snaps + [b];
    forall i | 0 <= i < |all| - 1 ensures TurnMade(r, all[i], turns[i], all[i + 1], done && i == |all| - 2) {
      if i < |snaps| - 1 { assert turns[..|snaps| - 1][i] == turns[i]; }
    }
  }

  /** Every fact a step was left on, and every time a step was entered, is that of one of the turns made. */
  lemma {:induction false} CourseRecords(r: Rules, snaps: seq<Snap>, turns: seq<Turn>, done: bool, n: nat)
    requires Course(r, snaps, turns, done) && n < |snaps|
    ensures snaps[0].checks <= snaps[n].checks && snaps[0].starts <= snaps[n].starts
    ensures forall j :: |snaps[0].checks| <= j < |snaps[n].checks| ==>
              exists i :: 0 <= i < n && snaps[n].checks[j] == CheckOf(Read(snaps[i], turns[i]), turns[i])
    ensures forall j :: |snaps[0].starts| <= j < |snaps[n].starts| ==>
              exists i :: 0 <= i < n && snaps[n].starts[j] == WriteAt(snaps[i], turns[i])
  {
    hide Judge, CheckOf, WriteAt, SentFor, CanarySteps, Sendable, Promotable, Applied;
    if n > 0 {
      CourseRecords(r, snaps, turns, done, n - 1);
      TurnRecords(r, snaps[n - 1], turns[n - 1], snaps[n], done && n == |snaps| - 1);
    }
  }

  lemma TurnRecords(r: Rules, a: Snap, t: Turn, b: Snap, done: bool)
    requires TurnMade(r, a, t, b, done)
    ensures b.checks == a.checks || b.checks == a.checks + [CheckOf(Read(a, t), t)]
    ensures b.starts == a.starts || b.starts == a.starts + [WriteAt(a, t)]
  {
    hide Judge, CheckOf, SentFor, CanarySteps, Sendable, Promotable, Applied;
  }

  /** A request takes effect only while the rollout is starting or stepping, and changes nothing but the phase. */
  lemma RequestLands(ro: Rollout, r: Request)
    ensures WithRequest(ro, None) == ro
    ensures WithRequest(ro, Some(r)) ==
            if ro.phase != Starting && ro.phase != Stepping then ro
            else ro.(phase := match r case Promote => PromoteRequested case Abort => AbortRequested)
  {}

  /** A turn that goes on without entering a step leaves the cluster alone, counts its probe and sleeps ten seconds;
      a request that lands after the record was read stays. */
  lemma WaitMeans(r: Rules, a: Snap, t: Turn, b: Snap)
    requires TurnMade(r, a, t, b, false) && b.applied == a.applied && Active(a.ro.phase)
    ensures a.ro.phase == Stepping && t.early.None? && !t.superseded
    ensures b.objs == a.objs && b.calls == a.calls && b.now == a.now + t.probing + 10_000_000_000
    ensures b.ro == WithRequest(a.ro, t.late).(probesTotal := a.ro.probesTotal + 1,
                                               probesOK := if t.probeOk then a.ro.probesOK + 1 else a.ro.probesOK)
  {
    hide Judge, SentFor, CanarySteps, Sendable, Promotable, Applied, CheckOf;
  }

  /** A turn that enters a step enters the next one, and records it with the second of the clock and no probes. */
  lemma EnterMeans(r: Rules, a: Snap, t: Turn, b: Snap)
    requires TurnMade(r, a, t, b, false) && b.applied != a.applied && Active(a.ro.phase)
    ensures exists w :: b.applied == a.applied + [w]
                        && b.ro == Rollout(Stepping, r.first + |a.applied|, w, b.now / 1_000_000_000, 0, 0)
    ensures b.now == a.now + t.probing + t.writing && b.starts == a.starts + [b.now]
  {
    hide Judge, SentFor, CanarySteps, Sendable, Promotable, Applied;
    assert b.applied == a.applied + [b.ro.weight];
  }

  lemma {:induction false} AppliedGrows(r: Rules, snaps: seq<Snap>, turns: seq<Turn>, done: bool, m: nat, n: nat)
    requires Course(r, snaps, turns, done) && m <= n < |snaps|
    ensures snaps[m].applied <= snaps[n].applied
  {
    hide Judge, SentFor, CanarySteps, Sendable, Promotable, Applied, CheckOf;
    if m < n { AppliedGrows(r, snaps, turns, done, m, n - 1); }
  }

  /** How many of the turns had a good probe. */
  ghost function GoodProbes(turns: seq<Turn>): nat {
    if turns == [] then 0
    else GoodProbes(turns[..|turns| - 1]) + if turns[|turns| - 1].probeOk then 1 else 0
  }

  /** The probes a step is judged on are exactly those of the turns since it was entered. */
  lemma {:induction false} ProbesCounted(r: Rules, snaps: seq<Snap>, turns: seq<Turn>, done: bool, m: nat, n: nat)
    requires Course(r, snaps, turns, done) && m <= n < |snaps| && n < |turns| && (done ==> n < |snaps| - 1)
    requires forall i :: m <= i <= n ==> Active(snaps[i].ro.phase)
    requires snaps[m].ro.probesOK == snaps[m].ro.probesTotal == 0 && snaps[n].applied == snaps[m].applied
    ensures snaps[n].ro.probesTotal == n - m && snaps[n].ro.probesOK == GoodProbes(turns[m..n])
    ensures CheckOf(Read(snaps[n], turns[n]), turns[n])
         == Check(snaps[n].now + turns[n].probing, GoodProbes(turns[m..n + 1]), n - m + 1, turns[n].restarted)
  {
    hide TurnMade, Active;
    if m < n {
      AppliedGrows(r, snaps, turns, done, m, n - 1);
      AppliedGrows(r, snaps, turns, done, n - 1, n);
      ProbesCounted(r, snaps, turns, done, m, n - 1);
      WaitMeans(r, snaps[n - 1], turns[n - 1], snaps[n]);
      assert turns[m..n][..n - 1 - m] == turns[m..n - 1];
    }
    assert turns[m..n + 1][..n - m] == turns[m..n];
  }

  ghost predicate NoPromoteRequest(turns: seq<Turn>) {
    forall i :: 0 <= i < |turns| ==> turns[i].early != Some(Promote) && turns[i].late != Some(Promote)
  }

  /** Without a promote request only the gate of the last step leads to a promotion. */
  lemma UnrequestedPromotion(r: Rules, a: Snap, t: Turn, b: Snap, done: bool)
    requires TurnMade(r, a, t, b, done) && Active(a.ro.phase) && a.ro.phase != PromoteRequested
    requires t.early != Some(Promote) && t.late != Some(Promote)
    ensures b.ro.phase != PromoteRequested
    ensures done && b.ro.phase == Promoting ==>
              && a.ro.phase == Stepping && b.checks == a.checks + [CheckOf(Read(a, t), t)] && b.applied == a.applied
              && r.first + |b.applied| >= |CanarySteps(r.policy, r.strategy)|
  {
    hide Judge, CheckOf, SentFor, CanarySteps, Sendable, Promotable, Applied;
  }

  /* ---------- healthy rollouts ---------- */

  /** No request, no newer deploy, a healthy probe, no restart, and a clock that is not set back before the
      hold check. */
  ghost predicate NoTrouble(t: Turn) {
    && t.early.None? && t.late.None? && !t.superseded && t.probeOk && !t.restarted
    && t.probing >= 0
  }

  ghost predicate Untroubled(turns: seq<Turn>) { forall i :: 0 <= i < |turns| ==> NoTrouble(turns[i]) }

  /** Not over, nothing requested, and no probe has failed at this step. */
  predicate Healthy(ro: Rollout) { (ro.phase == Starting || ro.phase == Stepping) && ro.probesOK == ro.probesTotal }

  /** An untroubled stepping turn gets the verdict the clock gives. */
  lemma HealthyVerdict(pol: Policy, s: Strategy, before: Rollout, t: Turn, at: int)
    requires ValidPolicy(pol) && NoTrouble(t) && Healthy(before) && before.probesTotal >= 0
    ensures VerdictOn(pol, s, before, t, at)
         == if HoldOver(pol, s, at - before.startedAt * SECOND) then Advance else Wait
  {
    hide CanaryHold, HoldOver;
    HoldOverExactly(pol, s, at - before.startedAt * SECOND);
    var total := before.probesTotal + 1;
    FlooredRateIsExact(total, total, pol.minSuccess);
    MulMonotone(pol.minSuccess, 100, total);
  }

  /** The rollout is where it is because the step was only just entered, or its hold was not over at the check
      before the last sleep. */
  ghost predicate Holding(pol: Policy, s: Strategy, ro: Rollout, now: int) {
    ro.probesTotal == 0 || !HoldOver(pol, s, now - TICK - ro.startedAt * SECOND)
  }

  /** The most turns a step can wait: ticks in a hold, rounded up. */
  function HoldTurns(pol: Policy, s: Strategy): nat { (CanaryHold(pol, s) + TICK - 1) / TICK }

  /** The most turns the current step can still wait. */
  function WaitsLeft(pol: Policy, s: Strategy, ro: Rollout, now: int): nat {
    var left := ro.startedAt * SECOND + CanaryHold(pol, s) - now;
    if left <= 0 then 0 else (left + TICK - 1) / TICK
  }

  /** The most turns until the promotion: each step waits and is then left. */
  function TurnsLeft(pol: Policy, s: Strategy, ro: Rollout, now: int, entered: int): int {
    (|CanarySteps(pol, s)| - entered) * (HoldTurns(pol, s) + 1)
    + (if ro.phase == Starting then 0 else WaitsLeft(pol, s, ro, now)) + 1
  }

  /** Sleeps of ten seconds until that many seconds are over. */
  function Ticks(seconds: nat): nat { (seconds + 9) / 10 }

  /** The turns a rollout needs from its start: each step waits out the hold and is left, after one turn that
      enters the first. */
  function TurnsNeeded(pol: Policy, s: Strategy): nat {
    match s
    case Canary => |pol.steps| * (Ticks(pol.interval) + 1) + 1
    case BlueGreen => Ticks(if pol.interval < pol.blueGreenKeep then pol.blueGreenKeep else pol.interval) + 2
  }

  lemma HoldTicks(pol: Policy, s: Strategy)
    ensures HoldTurns(pol, s) == Ticks(if s == BlueGreen && pol.interval < pol.blueGreenKeep then pol.blueGreenKeep
                                       else pol.interval)
  {}

  lemma StartingNeeds(pol: Policy, s: Strategy, ro: Rollout, now: int)
    requires ro.phase == Starting
    ensures TurnsLeft(pol, s, ro, now, 0) == TurnsNeeded(pol, s)
  {
    hide HoldTurns, Ticks;
    HoldTicks(pol, s);
  }

  lemma WaitingUsesTick(pol: Policy, s: Strategy, ro: Rollout, now: int, at: int)
    requires at >= now && !HoldOver(pol, s, at - ro.startedAt * SECOND)
    ensures WaitsLeft(pol, s, ro, at + TICK) < WaitsLeft(pol, s, ro, now)
  {
    hide CanaryHold, HoldOver;
    HoldOverExactly(pol, s, at - ro.startedAt * SECOND);
  }

  lemma NewStepWaits(pol: Policy, s: Strategy, ro: Rollout, at: int)
    requires ro.startedAt == at / SECOND
    ensures WaitsLeft(pol, s, ro, at) <= HoldTurns(pol, s)
  {
    hide CanaryHold;
  }

  /** Entering the next step is worth one turn. */
  lemma EnteringUsesTurn(pol: Policy, s: Strategy, before: Rollout, now: int, after: Rollout, at: int, entered: int)
    requires after.phase == Stepping && after.startedAt == at / SECOND
    ensures TurnsLeft(pol, s, after, at, entered + 1) < TurnsLeft(pol, s, before, now, entered)
  {
    hide CanarySteps, HoldTurns, WaitsLeft;
    NewStepWaits(pol, s, after, at);
    var n, h := |CanarySteps(pol, s)| - entered, HoldTurns(pol, s) + 1;
    assert (n - 1) * h + h == n * h;
  }

  lemma SomeTurnLeft(pol: Policy, s: Strategy, ro: Rollout, now: int, entered: int)
    requires entered <= |CanarySteps(pol, s)|
    ensures TurnsLeft(pol, s, ro, now, entered) >= 1
  {
    hide CanarySteps, HoldTurns, WaitsLeft;
    MulMonotone(0, |CanarySteps(pol, s)| - entered, HoldTurns(pol, s) + 1);
  }

  /** When nothing is refused, an untroubled turn of a healthy rollout waits out the hold, enters the next step,
      or promotes after the last; it never aborts, and it uses up one of the turns that are left. */
  lemma CourseGoesOn(r: Rules, a: Snap, t: Turn, b: Snap, done: bool)
    requires ValidPolicy(r.policy) && NoTrouble(t) && Healthy(a.ro) && a.ro.probesTotal >= 0
    requires FineFrom(r.answers, a.calls) && r.app.hosts != [] && TurnMade(r, a, t, b, done)
    requires r.first + |a.applied| <= |CanarySteps(r.policy, r.strategy)|
    ensures done ==> b.ro.phase == Promoting && r.first + |b.applied| == |CanarySteps(r.policy, r.strategy)|
    ensures !done ==> && b.calls >= a.calls && b.ro.probesTotal >= 0
                      && r.first + |b.applied| <= |CanarySteps(r.policy, r.strategy)|
                      && Healthy(b.ro) && Holding(r.policy, r.strategy, b.ro, b.now)
                      && TurnsLeft(r.policy, r.strategy, b.ro, b.now, r.first + |b.applied|)
                         < TurnsLeft(r.policy, r.strategy, a.ro, a.now, r.first + |a.applied|)
  {
    hide Applied, CanaryObjects, HoldOver, CanaryHold, Judge, TurnsLeft, CanarySteps, WeightObjects, Rendered;
    assert Read(a, t) == a;
    FineSends(r, a.calls);
    if a.ro.phase == Stepping {
      HealthyVerdict(r.policy, r.strategy, a.ro, t, CheckAt(a, t));
    }
    if !done {
      if |b.applied| > |a.applied| {
        EnteringUsesTurn(r.policy, r.strategy, a.ro, a.now, b.ro, b.now, r.first + |a.applied|);
      } else {
        WaitingUsesTurn(r.policy, r.strategy, a.ro, a.now, b.ro, CheckAt(a, t), r.first + |a.applied|);
      }
    }
  }

  /** How a healthy rollout stands after `i` turns of at most `budget`. */
  ghost predicate OnTrack(r: Rules, a: Snap, i: nat, budget: int) {
    && FineFrom(r.answers, a.calls) && Healthy(a.ro) && a.ro.probesTotal >= 0
    && r.first + |a.applied| <= |CanarySteps(r.policy, r.strategy)|
    && (i > 0 ==> Holding(r.policy, r.strategy, a.ro, a.now))
    && TurnsLeft(r.policy, r.strategy, a.ro, a.now, r.first + |a.applied|) + i <= budget
  }

  lemma OnTrackGoesOn(r: Rules, a: Snap, t: Turn, b: Snap, done: bool, i: nat, budget: int)
    requires ValidPolicy(r.policy) && NoTrouble(t) && OnTrack(r, a, i, budget)
    requires r.app.hosts != [] && TurnMade(r, a, t, b, done)
    ensures done ==> b.ro.phase == Promoting && r.first + |b.applied| == |CanarySteps(r.policy, r.strategy)|
    ensures !done ==> OnTrack(r, b, i + 1, budget)
  {
    hide TurnMade, Holding, TurnsLeft, NoTrouble, CanarySteps;
    CourseGoesOn(r, a, t, b, done);
    if !done { FineStays(r.answers, a.calls, b.calls); }
  }

  lemma {:induction false} StaysOnTrack(r: Rules, snaps: seq<Snap>, turns: seq<Turn>, done: bool, i: nat, budget: int)
    requires ValidPolicy(r.policy) && r.app.hosts != [] && Untroubled(turns) && Course(r, snaps, turns, done)
    requires OnTrack(r, snaps[0], 0, budget) && i < |snaps| && (done ==> i < |snaps| - 1)
    ensures OnTrack(r, snaps[i], i, budget)
  {
    hide OnTrack, TurnMade, NoTrouble;
    if i > 0 {
      StaysOnTrack(r, snaps, turns, done, i - 1, budget);
      OnTrackGoesOn(r, snaps[i - 1], turns[i - 1], snaps[i], false, i - 1, budget);
    }
  }

  /** When nothing is refused, a healthy rollout whose turns see no trouble never aborts: it waits out its holds,
      enters every step, and promotes after the last, in at most the turns its steps, its hold and the tick allow. */
  lemma HealthyWalk(r: Rules, snaps: seq<Snap>, turns: seq<Turn>, done: bool)
    requires ValidPolicy(r.policy) && r.app.hosts != [] && Untroubled(turns) && Walk(r, snaps, turns, done)
    requires FineFrom(r.answers, snaps[0].calls) && Healthy(snaps[0].ro) && snaps[0].ro.probesTotal >= 0
    requires r.first + |snaps[0].applied| <= |CanarySteps(r.policy, r.strategy)|
    ensures var start, last := snaps[0], snaps[|snaps| - 1];
            && (done ==> last.ro.phase == Promoting
                         && r.first + |last.applied| == |CanarySteps(r.policy, r.strategy)|)
            && (!done ==> Healthy(last.ro)
                          && (turns != [] ==> Holding(r.policy, r.strategy, last.ro, last.now)))
            && (|turns| >= TurnsLeft(r.policy, r.strategy, start.ro, start.now, r.first + |start.applied|) ==> done)
  {
    hide Healthy, Holding, TurnsLeft, CanarySteps, TurnMade, NoTrouble, AllCarried, FineFrom;
    var start, n := snaps[0], |snaps| - 1;
    var budget := TurnsLeft(r.policy, r.strategy, start.ro, start.now, r.first + |start.applied|);
    if done {
      StaysOnTrack(r, snaps, turns, done, n - 1, budget);
      OnTrackGoesOn(r, snaps[n - 1], turns[n - 1], snaps[n], done, n - 1, budget);
    } else {
      StaysOnTrack(r, snaps, turns, done, n, budget);
      var last := snaps[n];
      SomeTurnLeft(r.policy, r.strategy, last.ro, last.now, r.first + |last.applied|);
    }
  }

  lemma WaitingUsesTurn(pol: Policy, s: Strategy, before: Rollout, now: int, after: Rollout, at: int, entered: int)
    requires before.phase == after.phase == Stepping && after.startedAt == before.startedAt
    requires at >= now && !HoldOver(pol, s, at - before.startedAt * SECOND)
    ensures TurnsLeft(pol, s, after, at + TICK, entered) < TurnsLeft(pol, s, before, now, entered)
  {
    hide CanarySteps, HoldTurns, WaitsLeft;
    WaitingUsesTick(pol, s, before, now, at);
    SameStart(pol, s, after, before, at + TICK);
  }

  lemma SameStart(pol: Policy, s: Strategy, a: Rollout, b: Rollout, now: int)
    requires a.startedAt == b.startedAt
    ensures WaitsLeft(pol, s, a, now) == WaitsLeft(pol, s, b, now)
  {}

  lemma FineStays(answers: Answers, from: nat, later: nat)
    requires FineFrom(answers, from) && later >= from
    ensures FineFrom(answers, later)
  {}

  lemma FineSends(r: Rules, from: nat)
    requires FineFrom(r.answers, from) && r.app.hosts != []
    ensures Promotable(r, from) && forall weight :: Sendable(r, from, weight)
  {
    hide CanaryObjects, Rendered;
  }
}
