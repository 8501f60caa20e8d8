/** Draining a node: passes of evictions with retries, in two batches, against a clock. */
module Drain {
  import opened Wrappers

  datatype PodPhase = PodPending | PodRunning | PodSucceeded | PodFailed

  datatype Pod = Pod(
    namespace: string, name: string, phase: PodPhase, deleting: bool, mirror: bool, owners: seq<string>)

  /** DaemonSet pods, mirror pods, finished pods and pods already going are left alone. */
  predicate Drainable(p: Pod) {
    p.phase != PodSucceeded && p.phase != PodFailed && !p.deleting && !p.mirror && "DaemonSet" !in p.owners
  }

  datatype Answer = Gone | NotFound | TooMany(message: string) | Refused(message: string)

  /** One eviction call and its answer. */
  datatype Call = Call(pod: Pod, answer: Answer)

  /** The pods whose eviction succeeded or that were already gone, in call order. */
  function Vanished(calls: seq<Call>): seq<Pod> {
    if calls == [] then []
    else
      var init, c := Vanished(calls[..|calls| - 1]), calls[|calls| - 1];
      if c.answer.Gone? || c.answer.NotFound? then init + [c.pod] else init
  }

  lemma {:induction false} VanishedConcat(a: seq<Call>, b: seq<Call>)
    ensures Vanished(a + b) == Vanished(a) + Vanished(b)
  {
    if b == [] {
      assert a + b == a;
    } else {
      assert (a + b)[..|a + b| - 1] == a + b[..|b| - 1];
      VanishedConcat(a, b[..|b| - 1]);
    }
  }

  datatype Progress = Progress(total: nat, evicted: nat, blocked: seq<string>)

  datatype DrainError = CordonFailed | ListFailed | EvictFailed(pod: Pod) | TimedOut(blocked: nat) | Cancelled

  /** The eviction API (per pass and position), how long passes take and sleeps overrun, and cancellation. */
  datatype World = World(answer: (nat, nat) -> Answer, work: nat -> nat, overrun: nat -> nat, cancelled: nat -> bool)

  function BlockedLine(p: Pod, a: Answer): string
    requires a.TooMany?
  {
    p.namespace + "/" + p.name + ": " + a.message
  }

  /* ---------- one pass ---------- */

  /** No answer of the pass before position `n` breaks it off. */
  ghost predicate Unbroken(w: World, pass: nat, n: nat) {
    forall k :: 0 <= k < n ==> !w.answer(pass, k).Refused?
  }

  /** How many of the first `n` pods the pass gets through before an answer breaks it off. */
  ghost function Handled(w: World, pass: nat, n: nat): (h: nat)
    ensures h <= n && Unbroken(w, pass, h) && (h < n ==> w.answer(pass, h).Refused?)
  {
    if n == 0 then 0
    else
      var h := Handled(w, pass, n - 1);
      if h == n - 1 && !w.answer(pass, n - 1).Refused? then n else h
  }

  lemma HandledAt(w: World, pass: nat, n: nat, i: nat)
    requires i <= n && Unbroken(w, pass, i) && (i < n ==> w.answer(pass, i).Refused?)
    ensures Handled(w, pass, n) == i
  {}

  /** The pods to retry among the first `n` of the pass. */
  ghost function RetryUpTo(w: World, pass: nat, pending: seq<Pod>, n: nat): seq<Pod>
    requires n <= |pending|
  {
    if n == 0 then []
    else
      var before := RetryUpTo(w, pass, pending, n - 1);
      if w.answer(pass, n - 1).TooMany? then before + [pending[n - 1]] else before
  }

  /** The others. */
  ghost function GoneUpTo(w: World, pass: nat, pending: seq<Pod>, n: nat): seq<Pod>
    requires n <= |pending|
  {
    if n == 0 then []
    else
      var before := GoneUpTo(w, pass, pending, n - 1);
      if w.answer(pass, n - 1).TooMany? then before else before + [pending[n - 1]]
  }

  ghost function LinesUpTo(w: World, pass: nat, pending: seq<Pod>, n: nat): seq<string>
    requires n <= |pending|
  {
    if n == 0 then []
    else
      var before, a := LinesUpTo(w, pass, pending, n - 1), w.answer(pass, n - 1);
      if a.TooMany? then before + [BlockedLine(pending[n - 1], a)] else before
  }

  ghost function CallsUpTo(w: World, pass: nat, pending: seq<Pod>, n: nat): seq<Call>
    requires n <= |pending|
  {
    seq(n, k requires 0 <= k < n => Call(pending[k], w.answer(pass, k)))
  }

  lemma OneMoreIn(a: seq<Pod>, b: seq<Pod>, all: seq<Pod>, p: Pod)
    requires multiset(a) + multiset(b) == multiset(all)
    ensures multiset(a + [p]) + multiset(b) == multiset(all + [p]) == multiset(a) + multiset(b + [p])
  {}

  /** Every pod of the pass is either gone or to be retried. */
  lemma {:induction false} PassConserves(w: World, pass: nat, pending: seq<Pod>, n: nat)
    requires n <= |pending|
    ensures var retry, gone := RetryUpTo(w, pass, pending, n), GoneUpTo(w, pass, pending, n);
            multiset(retry) + multiset(gone) == multiset(pending[..n]) && |retry| + |gone| == n
  {
    if n > 0 {
      PassConserves(w, pass, pending, n - 1);
      assert pending[..n] == pending[..n - 1] + [pending[n - 1]];
      var tried := pending[..n - 1];
      OneMoreIn(RetryUpTo(w, pass, pending, n - 1), GoneUpTo(w, pass, pending, n - 1), tried, pending[n - 1]);
    } else {
      assert pending[..0] == [];
    }
  }

  /** Each pod to retry has its line. */
  lemma {:induction false} PassLines(w: World, pass: nat, pending: seq<Pod>, n: nat)
    requires n <= |pending|
    ensures BlockedListed(RetryUpTo(w, pass, pending, n), LinesUpTo(w, pass, pending, n))
  {
    hide BlockedLine, LineFor;
    if n > 0 {
      PassLines(w, pass, pending, n - 1);
      var a := w.answer(pass, n - 1);
      if a.TooMany? { LineNamesPod(pending[n - 1], a); }
    }
  }

  /** Exactly the evicted pods vanish. */
  lemma {:induction false} PassVanishes(w: World, pass: nat, pending: seq<Pod>, n: nat)
    requires n <= |pending| && Unbroken(w, pass, n)
    ensures Vanished(CallsUpTo(w, pass, pending, n)) == GoneUpTo(w, pass, pending, n)
  {
    if n > 0 {
      PassVanishes(w, pass, pending, n - 1);
      var calls := CallsUpTo(w, pass, pending, n);
      assert calls[..n - 1] == CallsUpTo(w, pass, pending, n - 1);
    }
  }

  /** The i-th line names the i-th pod to retry. */
  ghost predicate BlockedListed(retry: seq<Pod>, blocked: seq<string>) {
    |blocked| == |retry| && forall i :: 0 <= i < |retry| ==> LineFor(retry[i], blocked[i])
  }

  ghost predicate LineFor(p: Pod, line: string) {
    exists message :: line == p.namespace + "/" + p.name + ": " + message
  }

  lemma LineNamesPod(p: Pod, a: Answer)
    requires a.TooMany?
    ensures LineFor(p, BlockedLine(p, a))
  {
    assert BlockedLine(p, a) == p.namespace + "/" + p.name + ": " + a.message;
  }

  /* ---------- the run ---------- */

  /** Progress as reported after a pass, with the pods then left to retry and those not tried yet. */
  datatype Report = Report(progress: Progress, retry: seq<Pod>, untried: seq<Pod>)

  /** Counters, the eviction calls made, the pods gone, and the reports, in order. */
  datatype Log = Log(
    total: nat, evicted: nat, blocked: seq<string>, calls: seq<Call>, gone: seq<Pod>, reports: seq<Report>,
    now: nat, passes: nat, sleeps: nat)

  /** A report is honest: evicted pods and those still to go make up the total, and the blocked lines are
      exactly the pods to retry. */
  ghost predicate Honest(r: Report) {
    r.progress.evicted + |r.retry| + |r.untried| == r.progress.total && BlockedListed(r.retry, r.progress.blocked)
  }

  ghost predicate Sound(log: Log) {
    && |log.gone| == log.evicted && log.gone == Vanished(log.calls)
    && forall i :: 0 <= i < |log.reports| ==> Honest(log.reports[i]) && log.reports[i].progress.total == log.total
  }

  /** `done` of the batch is gone on top of `before`, `left` of it is still there, `later` is untried. */
  ghost predicate Accounted(log: Log, before: seq<Pod>, done: seq<Pod>, left: seq<Pod>, batch: seq<Pod>,
                            later: seq<Pod>) {
    && Sound(log) && log.gone == before + done
    && multiset(done) + multiset(left) == multiset(batch)
    && log.evicted + |left| + |later| == log.total
  }

  /** The log in the middle of a pass. */
  ghost function MidPass(w: World, log0: Log, pending: seq<Pod>, i: nat): Log
    requires i <= |pending|
  {
    var gone := GoneUpTo(w, log0.passes, pending, i);
    log0.(evicted := log0.evicted + |gone|, blocked := LinesUpTo(w, log0.passes, pending, i),
          calls := log0.calls + CallsUpTo(w, log0.passes, pending, i),
          gone := log0.gone + gone, now := log0.now + w.work(log0.passes), passes := log0.passes + 1)
  }

  /** The log after a pass: its calls with the answers the API gave, and one report unless it was broken off. */
  ghost function PassLog(w: World, log0: Log, pending: seq<Pod>, later: seq<Pod>): Log {
    var h := Handled(w, log0.passes, |pending|);
    var mid := MidPass(w, log0, pending, h);
    if h < |pending| then mid.(calls := mid.calls + [Call(pending[h], w.answer(log0.passes, h))])
    else
      var retry := RetryUpTo(w, log0.passes, pending, h);
      mid.(reports := mid.reports + [Report(Progress(mid.total, mid.evicted, mid.blocked), retry, later)])
  }

  /** The new calls of the log are pods of `pending`, in order, with this pass's answers. */
  ghost predicate Called(w: World, log0: Log, log: Log, pending: seq<Pod>) {
    && log0.calls <= log.calls && |log.calls| <= |log0.calls| + |pending|
    && forall k :: 0 <= k < |log.calls| - |log0.calls| ==>
         log.calls[|log0.calls| + k] == Call(pending[k], w.answer(log0.passes, k))
  }

  /** The cause of an early end: the last call was refused for that pod, or the wait after the last report
      was cancelled. */
  ghost predicate Caused(w: World, log: Log, e: DrainError) {
    && (e.EvictFailed? ==>
          log.calls != [] && log.calls[|log.calls| - 1].pod == e.pod && log.calls[|log.calls| - 1].answer.Refused?)
    && (e.Cancelled? ==> w.cancelled(log.sleeps))
  }

  /** The refusal that breaks the pass off, if there is one. */
  ghost function PassEnd(w: World, pass: nat, pending: seq<Pod>): Option<DrainError> {
    var h := Handled(w, pass, |pending|);
    if h < |pending| then Some(EvictFailed(pending[h])) else None
  }

  lemma RefusalCaused(w: World, log: Log, calls: seq<Call>, p: Pod, a: Answer)
    requires log.calls == calls + [Call(p, a)] && a.Refused?
    ensures Caused(w, log, EvictFailed(p))
  {}

  method Pass(w: World, log0: Log, pending: seq<Pod>, later: seq<Pod>, ghost before: seq<Pod>, ghost done0: seq<Pod>,
              ghost batch: seq<Pod>)
    returns (log: Log, retry: seq<Pod>, err: Option<DrainError>, ghost done: seq<Pod>, ghost left: seq<Pod>)
    requires Accounted(log0, before, done0, pending, batch, later)
    ensures log == PassLog(w, log0, pending, later)
    ensures err == PassEnd(w, log0.passes, pending)
    ensures err.None? ==> retry == RetryUpTo(w, log0.passes, pending, |pending|)
    ensures Accounted(log, before, done, left, batch, later) && Called(w, log0, log, pending)
    ensures err.None? ==> left == retry && BlockedListed(retry, log.blocked) && |log.calls| == |log0.calls| + |pending|
    ensures err.None? ==>
              log.reports == log0.reports + [Report(Progress(log.total, log.evicted, log.blocked), retry, later)]
    ensures err.Some? ==> err.value.EvictFailed? && err.value.pod in pending && log.reports == log0.reports
                          && Caused(w, log, err.value)
    ensures log.total == log0.total && log.now == log0.now + w.work(log0.passes)
    ensures log.passes == log0.passes + 1 && log.sleeps == log0.sleeps
  {
    hide Accounted, Sound, BlockedListed, BlockedLine, Called, Caused;
    log := log0.(blocked := [], now := log0.now + w.work(log0.passes), passes := log0.passes + 1);
    retry, err := [], None;
    assert log == MidPass(w, log0, pending, 0);
    for i := 0 to |pending|
      invariant Unbroken(w, log0.passes, i) && log == MidPass(w, log0, pending, i)
      invariant retry == RetryUpTo(w, log0.passes, pending, i) && err.None?
    {
      var p, a := pending[i], w.answer(log0.passes, i);
      ghost var mid := log;
      log := log.(calls := log.calls + [Call(p, a)]);
      assert CallsUpTo(w, log0.passes, pending, i + 1) == CallsUpTo(w, log0.passes, pending, i) + [Call(p, a)];
      match a {
        case TooMany(_) =>
          retry := retry + [p];
          log := log.(blocked := log.blocked + [BlockedLine(p, a)]);
        case Refused(_) =>
          done, left := done0 + GoneUpTo(w, log0.passes, pending, i), retry + pending[i..];
          PassAccount(w, log0, pending, i, before, done0, batch, later);
          RefusedKeeps(w, log0, mid, pending, i, before, done, left, batch, later);
          RefusalCaused(w, log, mid.calls, p, a);
          HandledAt(w, log0.passes, |pending|, i);
          return log, retry, Some(EvictFailed(p)), done, left;
        case _ =>
          log := log.(evicted := log.evicted + 1, gone := log.gone + [p]);
      }
    }
    HandledAt(w, log0.passes, |pending|, |pending|);
    done, left := done0 + GoneUpTo(w, log0.passes, pending, |pending|), retry;
    assert retry + pending[|pending|..] == retry;
    PassAccount(w, log0, pending, |pending|, before, done0, batch, later);
    ReportKeeps(log, before, done, left, batch, later);
    log := log.(reports := log.reports + [Report(Progress(log.total, log.evicted, log.blocked), retry, later)]);
    ReportCalls(w, log0, MidPass(w, log0, pending, |pending|), log, pending);
  }

  lemma PassAccount(w: World, log0: Log, pending: seq<Pod>, i: nat, before: seq<Pod>, done0: seq<Pod>,
                    batch: seq<Pod>, later: seq<Pod>)
    requires i <= |pending| && Unbroken(w, log0.passes, i) && Accounted(log0, before, done0, pending, batch, later)
    ensures Accounted(MidPass(w, log0, pending, i), before, done0 + GoneUpTo(w, log0.passes, pending, i),
                      RetryUpTo(w, log0.passes, pending, i) + pending[i..], batch, later)
    ensures BlockedListed(RetryUpTo(w, log0.passes, pending, i), LinesUpTo(w, log0.passes, pending, i))
    ensures Called(w, log0, MidPass(w, log0, pending, i), pending)
    ensures |MidPass(w, log0, pending, i).calls| == |log0.calls| + i
  {
    hide BlockedListed, RetryUpTo, GoneUpTo, LinesUpTo, Vanished, Honest, Called, Unbroken, CallsUpTo;
    PassCalls(w, log0, pending, i);
    PassConserves(w, log0.passes, pending, i);
    PassLines(w, log0.passes, pending, i);
    PassVanishes(w, log0.passes, pending, i);
    VanishedConcat(log0.calls, CallsUpTo(w, log0.passes, pending, i));
    assert pending == pending[..i] + pending[i..];
  }

  lemma PassCalls(w: World, log0: Log, pending: seq<Pod>, i: nat)
    requires i <= |pending|
    ensures Called(w, log0, MidPass(w, log0, pending, i), pending)
    ensures |MidPass(w, log0, pending, i).calls| == |log0.calls| + i
  {
    hide RetryUpTo, GoneUpTo, LinesUpTo;
  }

  lemma RefusedKeeps(w: World, log0: Log, log: Log, pending: seq<Pod>, i: nat, before: seq<Pod>, done: seq<Pod>,
                     left: seq<Pod>,
                     batch: seq<Pod>, later: seq<Pod>)
    requires i < |pending| && w.answer(log0.passes, i).Refused?
    requires Accounted(log, before, done, left, batch, later) && Called(w, log0, log, pending)
    requires |log.calls| == |log0.calls| + i
    ensures var more := log.(calls := log.calls + [Call(pending[i], w.answer(log0.passes, i))]);
            Accounted(more, before, done, left, batch, later) && Called(w, log0, more, pending)
  {}

  lemma ReportCalls(w: World, log0: Log, mid: Log, log: Log, pending: seq<Pod>)
    requires Called(w, log0, mid, pending) && log.calls == mid.calls
    ensures Called(w, log0, log, pending)
  {}

  lemma ReportKeeps(log: Log, before: seq<Pod>, done: seq<Pod>, left: seq<Pod>, batch: seq<Pod>, later: seq<Pod>)
    requires Accounted(log, before, done, left, batch, later) && BlockedListed(left, log.blocked)
    ensures var r := Report(Progress(log.total, log.evicted, log.blocked), left, later);
            Accounted(log.(reports := log.reports + [r]), before, done, left, batch, later)
  {}

  /* ---------- one batch ---------- */

  /** The sleep between two passes. */
  ghost function Rested(w: World, retryEvery: nat, log: Log): Log {
    log.(now := log.now + retryEvery + w.overrun(log.sleeps), sleeps := log.sleeps + 1)
  }

  /** The log after these passes, with a sleep between any two. */
  ghost function RoundsLog(w: World, retryEvery: nat, log0: Log, rounds: seq<seq<Pod>>, later: seq<Pod>): (log: Log)
    ensures log.passes == log0.passes + |rounds|
    decreases |rounds|, 0
  {
    if rounds == [] then log0
    else PassLog(w, Resumed(w, retryEvery, log0, rounds[..|rounds| - 1], later), rounds[|rounds| - 1], later)
  }

  /** The log as the next pass finds it. */
  ghost function Resumed(w: World, retryEvery: nat, log0: Log, rounds: seq<seq<Pod>>, later: seq<Pod>): (log: Log)
    ensures log.passes == log0.passes + |rounds|
    decreases |rounds|, 1
  {
    var log := RoundsLog(w, retryEvery, log0, rounds, later);
    if rounds == [] then log else Rested(w, retryEvery, log)
  }

  /** What a pass over `pending` leaves to retry. */
  ghost function Blocked(w: World, pass: nat, pending: seq<Pod>): seq<Pod> {
    RetryUpTo(w, pass, pending, |pending|)
  }

  /** A pass over `pending` may follow these: the first tries the batch, each later one exactly what the one before
      left blocked, and only if that was not broken off, the deadline had not passed and the wait was not
      cancelled. */
  ghost predicate MayFollow(w: World, retryEvery: nat, deadline: nat, log0: Log, batch: seq<Pod>, later: seq<Pod>,
                            rounds: seq<seq<Pod>>, pending: seq<Pod>) {
    if rounds == [] then pending == batch != []
    else
      var log := RoundsLog(w, retryEvery, log0, rounds, later);
      var pass, last := log0.passes + |rounds| - 1, rounds[|rounds| - 1];
      && PassEnd(w, pass, last).None? && pending == Blocked(w, pass, last) != []
      && log.now <= deadline && !w.cancelled(log.sleeps)
  }

  ghost predicate Rounds(w: World, retryEvery: nat, deadline: nat, log0: Log, batch: seq<Pod>, later: seq<Pod>,
                         rounds: seq<seq<Pod>>) {
    forall k :: 0 <= k < |rounds| ==> MayFollow(w, retryEvery, deadline, log0, batch, later, rounds[..k], rounds[k])
  }

  /** Why there was no further pass. */
  ghost predicate BatchEnd(w: World, deadline: nat, log: Log, pass: nat, pending: seq<Pod>, err: Option<DrainError>) {
    if PassEnd(w, pass, pending).Some? then err == PassEnd(w, pass, pending)
    else if Blocked(w, pass, pending) == [] then err.None?
    else if log.now > deadline then err == Some(TimedOut(|Blocked(w, pass, pending)|))
    else err == Some(Cancelled) && w.cancelled(log.sleeps)
  }

  /** The batch was worked through in these passes and nothing else happened. */
  ghost predicate Worked(w: World, retryEvery: nat, deadline: nat, log0: Log, batch: seq<Pod>, later: seq<Pod>,
                         rounds: seq<seq<Pod>>, log: Log, err: Option<DrainError>) {
    && Rounds(w, retryEvery, deadline, log0, batch, later, rounds) && (rounds == [] <==> batch == [])
    && log == RoundsLog(w, retryEvery, log0, rounds, later)
    && if rounds == [] then err.None? else BatchEnd(w, deadline, log, log.passes - 1, rounds[|rounds| - 1], err)
  }

  /** One pass more. */
  lemma RoundsGoOn(w: World, retryEvery: nat, deadline: nat, log0: Log, batch: seq<Pod>, later: seq<Pod>,
                   rounds: seq<seq<Pod>>, pending: seq<Pod>)
    requires Rounds(w, retryEvery, deadline, log0, batch, later, rounds)
    requires MayFollow(w, retryEvery, deadline, log0, batch, later, rounds, pending)
    ensures Rounds(w, retryEvery, deadline, log0, batch, later, rounds + [pending])
    ensures RoundsLog(w, retryEvery, log0, rounds + [pending], later)
         == PassLog(w, Resumed(w, retryEvery, log0, rounds, later), pending, later)
  {
    hide RoundsLog, PassLog, Resumed, MayFollow;
    var all := rounds + [pending];
    forall k | 0 <= k < |all| ensures MayFollow(w, retryEvery, deadline, log0, batch, later, all[..k], all[k]) {
      assert all[..k] == rounds[..k];
      if k == |rounds| { assert rounds[..k] == rounds; }
    }
    RoundsLogNext(w, retryEvery, log0, rounds, pending, later);
  }

  lemma RoundsLogNext(w: World, retryEvery: nat, log0: Log, rounds: seq<seq<Pod>>, pending: seq<Pod>, later: seq<Pod>)
    ensures RoundsLog(w, retryEvery, log0, rounds + [pending], later)
         == PassLog(w, Resumed(w, retryEvery, log0, rounds, later), pending, later)
  {
    hide PassLog, Resumed;
    assert (rounds + [pending])[..|rounds|] == rounds;
  }

  ghost predicate Reports(r: Report, retry: seq<Pod>, untried: seq<Pod>) { r.retry == retry && r.untried == untried }

  /** The first `made` passes made one report each, of exactly what they left blocked. */
  ghost predicate Reported(w: World, log0: Log, later: seq<Pod>, rounds: seq<seq<Pod>>, reports: seq<Report>,
                           made: nat)
    requires made <= |rounds|
  {
    && log0.reports <= reports && |reports| == |log0.reports| + made
    && forall k :: 0 <= k < made ==>
         Reports(reports[|log0.reports| + k], Blocked(w, log0.passes + k, rounds[k]), later)
  }

  /** How many of the passes were not broken off: all but perhaps the last. */
  ghost function Completed(w: World, pass: nat, rounds: seq<seq<Pod>>): nat
    requires rounds != []
  {
    if PassEnd(w, pass + |rounds| - 1, rounds[|rounds| - 1]).Some? then |rounds| - 1 else |rounds|
  }

  /** Every completed pass has made its report, and nothing else has. */
  lemma {:induction false} RoundsReport(w: World, retryEvery: nat, deadline: nat, log0: Log, batch: seq<Pod>,
                                        later: seq<Pod>, rounds: seq<seq<Pod>>)
    requires Rounds(w, retryEvery, deadline, log0, batch, later, rounds) && rounds != []
    ensures var log := RoundsLog(w, retryEvery, log0, rounds, later);
            Reported(w, log0, later, rounds, log.reports, Completed(w, log0.passes, rounds))
  {
    hide PassLog, RoundsLog, MayFollow, PassEnd, Blocked, Resumed, Reported;
    var n := |rounds|;
    var init, last := rounds[..n - 1], rounds[n - 1];
    assert rounds == init + [last];
    RoundsLogNext(w, retryEvery, log0, init, last, later);
    var before := Resumed(w, retryEvery, log0, init, later);
    if n > 1 {
      forall k | 0 <= k < |init| ensures MayFollow(w, retryEvery, deadline, log0, batch, later, init[..k], init[k]) {
        assert init[..k] == rounds[..k] && init[k] == rounds[k];
      }
      RoundsReport(w, retryEvery, deadline, log0, batch, later, init);
      assert MayFollow(w, retryEvery, deadline, log0, batch, later, rounds[..n - 1], rounds[n - 1]);
      FollowsCompleted(w, retryEvery, deadline, log0, batch, later, init, last);
    }
    ReportsBefore(w, retryEvery, log0, later, init);
    OneMoreReported(w, log0, later, init, before, last);
  }

  lemma FollowsCompleted(w: World, retryEvery: nat, deadline: nat, log0: Log, batch: seq<Pod>, later: seq<Pod>,
                         rounds: seq<seq<Pod>>, pending: seq<Pod>)
    requires MayFollow(w, retryEvery, deadline, log0, batch, later, rounds, pending) && rounds != []
    ensures Completed(w, log0.passes, rounds) == |rounds|
  {
    hide RoundsLog;
  }

  /** A sleep reports nothing. */
  lemma ReportsBefore(w: World, retryEvery: nat, log0: Log, later: seq<Pod>, rounds: seq<seq<Pod>>)
    ensures Resumed(w, retryEvery, log0, rounds, later).reports
         == RoundsLog(w, retryEvery, log0, rounds, later).reports
    ensures rounds == [] ==>
              Reported(w, log0, later, rounds, log0.reports, 0) && RoundsLog(w, retryEvery, log0, rounds, later) == log0
  {
    hide PassLog;
  }

  lemma OneMoreReported(w: World, log0: Log, later: seq<Pod>, rounds: seq<seq<Pod>>, before: Log, pending: seq<Pod>)
    requires Reported(w, log0, later, rounds, before.reports, |rounds|) && before.passes == log0.passes + |rounds|
    ensures var all := rounds + [pending];
            Reported(w, log0, later, all, PassLog(w, before, pending, later).reports, Completed(w, log0.passes, all))
  {
    hide PassLog, Blocked, PassEnd;
    PassReports(w, before, pending, later);
    var all, reports, n := rounds + [pending], PassLog(w, before, pending, later).reports, |log0.reports|;
    var made := Completed(w, log0.passes, all);
    assert all[|rounds|] == pending && log0.passes + |all| - 1 == before.passes;
    assert reports[..|before.reports|] == before.reports && |reports| == n + made;
    assert log0.reports <= reports by { assert log0.reports == before.reports[..n] == reports[..n]; }
    forall k | 0 <= k < made
      ensures Reports(reports[n + k], Blocked(w, log0.passes + k, all[k]), later)
    {
      if k < |rounds| { assert reports[n + k] == before.reports[n + k] && all[k] == rounds[k]; }
    }
  }

  lemma PassReports(w: World, log0: Log, pending: seq<Pod>, later: seq<Pod>)
    ensures var reports, n := PassLog(w, log0, pending, later).reports, |log0.reports|;
            if PassEnd(w, log0.passes, pending).Some? then reports == log0.reports
            else
              && |reports| == n + 1 && reports[..n] == log0.reports
              && reports[n].retry == Blocked(w, log0.passes, pending) && reports[n].untried == later
  {
    hide RetryUpTo, GoneUpTo, LinesUpTo, CallsUpTo;
  }

  /** The clock has advanced by at least the retry interval per sleep, and no sleep began after the deadline. */
  ghost predicate Clocked(log: Log, start: nat, timeout: nat, retry: nat) {
    && log.now >= start + log.sleeps * retry
    && (log.sleeps > 0 ==> (log.sleeps - 1) * retry <= timeout)
  }

  /** Retry a batch until it is empty, the deadline passes, or something breaks. */
  method Batch(w: World, log0: Log, batch: seq<Pod>, later: seq<Pod>, ghost start: nat, timeout: nat, deadline: nat,
               retryEvery: nat)
    returns (log: Log, err: Option<DrainError>, ghost done: seq<Pod>, ghost left: seq<Pod>,
             ghost rounds: seq<seq<Pod>>)
    requires Sound(log0) && log0.evicted + |batch| + |later| == log0.total
    requires retryEvery > 0 && deadline == start + timeout && Clocked(log0, start, timeout, retryEvery)
    ensures Worked(w, retryEvery, deadline, log0, batch, later, rounds, log, err)
    ensures Accounted(log, log0.gone, done, left, batch, later) && log.total == log0.total
    ensures err.None? ==> left == [] && (batch != [] ==> log.blocked == []) && (batch == [] ==> log == log0)
    ensures log0.calls <= log.calls && forall i :: |log0.calls| <= i < |log.calls| ==> log.calls[i].pod in batch
    ensures err.Some? ==>
              (err.value.EvictFailed? || err.value.TimedOut? || err.value.Cancelled?) && Caused(w, log, err.value)
    ensures err.Some? && err.value.TimedOut? ==>
              BlockedListed(left, log.blocked) && err.value.blocked == |left| > 0 && log.now > deadline
    ensures Clocked(log, start, timeout, retryEvery)
    ensures log0.sleeps <= log.sleeps && log.passes - log0.passes <= log.sleeps - log0.sleeps + 1
  {
    hide Accounted, Sound, BlockedListed, Clocked, Called, PassLog, RoundsLog, Rounds, PassEnd;
    rounds := [];
    NoRoundsYet(w, retryEvery, deadline, log0, batch, later);
    log, err := log0, None;
    var pending := batch;
    done, left := [], batch;
    BatchStarts(log0, batch, later);
    while |pending| > 0
      invariant Accounted(log, log0.gone, done, pending, batch, later) && left == pending && log.total == log0.total
      invariant err.None? && log == Resumed(w, retryEvery, log0, rounds, later)
      invariant Rounds(w, retryEvery, deadline, log0, batch, later, rounds) && (rounds == [] ==> pending == batch)
      invariant pending != [] ==> MayFollow(w, retryEvery, deadline, log0, batch, later, rounds, pending)
      invariant log0.calls <= log.calls && forall i :: |log0.calls| <= i < |log.calls| ==> log.calls[i].pod in batch
      invariant Clocked(log, start, timeout, retryEvery) && log0.sleeps <= log.sleeps
      invariant log.passes - log0.passes == log.sleeps - log0.sleeps
      invariant pending == [] ==> batch == []
      invariant batch == [] ==> log == log0
      decreases if log.now <= deadline then deadline - log.now + 1 else 0
    {
      LeftInBatch(log, log0.gone, done, pending, batch, later);
      assert pending[0] in batch;
      ghost var was, tried := log, pending;
      RoundsGoOn(w, retryEvery, deadline, log0, batch, later, rounds, pending);
      rounds := rounds + [pending];
      var retry: seq<Pod>;
      ClockWorks(log, start, timeout, retryEvery);
      log, retry, err, done, left := Pass(w, log, pending, later, log0.gone, done, batch);
      CallsInBatch(w, log0.calls, was, log, pending, batch);
      if err.Some? { return; }
      pending := retry;
      assert pending == Blocked(w, was.passes, tried);
      if |pending| == 0 { NoneBlocked(pending, log.blocked); break; }
      if log.now > deadline { return log, Some(TimedOut(|pending|)), done, left, rounds; }
      if w.cancelled(log.sleeps) { return log, Some(Cancelled), done, left, rounds; }
      ClockSleeps(log, start, timeout, retryEvery, w.overrun(log.sleeps));
      var rested := log.(now := log.now + retryEvery + w.overrun(log.sleeps), sleeps := log.sleeps + 1);
      SleepKeeps(log, rested, log0.gone, done, pending, batch, later);
      log := rested;
    }
  }

  lemma NoRoundsYet(w: World, retryEvery: nat, deadline: nat, log0: Log, batch: seq<Pod>, later: seq<Pod>)
    ensures Rounds(w, retryEvery, deadline, log0, batch, later, []) && Resumed(w, retryEvery, log0, [], later) == log0
    ensures RoundsLog(w, retryEvery, log0, [], later) == log0
  {}

  lemma BatchStarts(log0: Log, batch: seq<Pod>, later: seq<Pod>)
    requires Sound(log0) && log0.evicted + |batch| + |later| == log0.total
    ensures Accounted(log0, log0.gone, [], batch, batch, later)
  {}

  lemma SleepKeeps(a: Log, b: Log, before: seq<Pod>, done: seq<Pod>, left: seq<Pod>, batch: seq<Pod>, later: seq<Pod>)
    requires Accounted(a, before, done, left, batch, later) && b == a.(now := b.now, sleeps := b.sleeps)
    ensures Accounted(b, before, done, left, batch, later)
  {}

  lemma NoneBlocked(retry: seq<Pod>, blocked: seq<string>)
    requires BlockedListed(retry, blocked) && retry == []
    ensures blocked == []
  {}

  lemma LeftInBatch(log: Log, before: seq<Pod>, done: seq<Pod>, left: seq<Pod>, batch: seq<Pod>, later: seq<Pod>)
    requires Accounted(log, before, done, left, batch, later)
    ensures forall p :: p in left ==> p in batch
  {
    forall p | p in left ensures p in batch {
      assert multiset(left)[p] > 0;
      assert multiset(batch)[p] > 0;
    }
  }

  lemma CallsInBatch(w: World, calls0: seq<Call>, was: Log, log: Log, pending: seq<Pod>, batch: seq<Pod>)
    requires calls0 <= was.calls && Called(w, was, log, pending) && forall p :: p in pending ==> p in batch
    requires forall i :: |calls0| <= i < |was.calls| ==> was.calls[i].pod in batch
    ensures calls0 <= log.calls && forall i :: |calls0| <= i < |log.calls| ==> log.calls[i].pod in batch
  {
    forall i | |calls0| <= i < |log.calls| ensures log.calls[i].pod in batch {
      if i >= |was.calls| {
        var k := i - |was.calls|;
        assert log.calls[|was.calls| + k] == Call(pending[k], w.answer(was.passes, k));
      }
    }
  }

  lemma ClockSleeps(log: Log, start: nat, timeout: nat, retry: nat, extra: nat)
    requires Clocked(log, start, timeout, retry) && log.now <= start + timeout
    ensures Clocked(log.(now := log.now + retry + extra, sleeps := log.sleeps + 1), start, timeout, retry)
  {}

  /** Working through a pass only lets time go by. */
  lemma ClockWorks(log: Log, start: nat, timeout: nat, retry: nat)
    requires Clocked(log, start, timeout, retry)
    ensures forall after: Log :: after.now >= log.now && after.sleeps == log.sleeps ==>
              Clocked(after, start, timeout, retry)
  {}

  /* ---------- the drain ---------- */

  datatype Options = Options(timeout: nat, retry: nat, isLast: Pod -> bool)

  function Timeout(o: Options): nat { if o.timeout == 0 then 300_000_000_000 else o.timeout }
  function RetryEvery(o: Options): nat { if o.retry == 0 then 5_000_000_000 else o.retry }

  function Select(pods: seq<Pod>, isLast: Pod -> bool, last: bool): seq<Pod> {
    if pods == [] then []
    else
      var init, p := Select(pods[..|pods| - 1], isLast, last), pods[|pods| - 1];
      if Drainable(p) && isLast(p) == last then init + [p] else init
  }

  lemma {:induction false} SelectMembers(pods: seq<Pod>, isLast: Pod -> bool, last: bool)
    ensures forall p :: p in Select(pods, isLast, last) <==> p in pods && Drainable(p) && isLast(p) == last
  {
    if pods != [] {
      SelectMembers(pods[..|pods| - 1], isLast, last);
      assert pods == pods[..|pods| - 1] + [pods[|pods| - 1]];
    }
  }

  /** Pods the drain has to leave alone: finished or already going, static, or run by a DaemonSet. */
  ghost predicate MustStay(p: Pod) {
    p.phase == PodSucceeded || p.phase == PodFailed || p.deleting || p.mirror
    || exists i :: 0 <= i < |p.owners| && p.owners[i] == "DaemonSet"
  }

  /** The two batches are the listed pods, each as often as it is listed, but for those that stay. */
  lemma {:induction false} SelectSplits(pods: seq<Pod>, isLast: Pod -> bool, p: Pod)
    ensures multiset(Select(pods, isLast, false))[p] + multiset(Select(pods, isLast, true))[p]
         == if MustStay(p) then 0 else multiset(pods)[p]
  {
    hide Drainable, MustStay;
    DrainableMeans(p);
    if pods != [] {
      var init, q := pods[..|pods| - 1], pods[|pods| - 1];
      SelectSplits(init, isLast, p);
      assert pods == init + [q];
    }
  }

  lemma DrainableMeans(p: Pod)
    ensures Drainable(p) <==> !MustStay(p)
  {}

  /** Every call is for a listed pod that need not stay, and every listed pod that need not stay is gone or left. */
  ghost predicate AllSeenTo(pods: seq<Pod>, log: Log, left: seq<Pod>) {
    && (forall i :: 0 <= i < |log.calls| ==> log.calls[i].pod in pods && !MustStay(log.calls[i].pod))
    && (forall p :: multiset(log.gone + left)[p] == if MustStay(p) then 0 else multiset(pods)[p])
  }

  lemma SelectedAreSeenTo(pods: seq<Pod>, isLast: Pod -> bool, log: Log, left: seq<Pod>)
    requires var all := Select(pods, isLast, false) + Select(pods, isLast, true);
             && (forall i :: 0 <= i < |log.calls| ==> log.calls[i].pod in all)
             && multiset(log.gone) + multiset(left) == multiset(all)
    ensures AllSeenTo(pods, log, left)
  {
    hide MustStay, Select;
    forall i | 0 <= i < |log.calls| ensures log.calls[i].pod in pods && !MustStay(log.calls[i].pod) {
      var p := log.calls[i].pod;
      SelectSplits(pods, isLast, p);
      assert p in multiset(Select(pods, isLast, false) + Select(pods, isLast, true));
      assert p in multiset(pods);
    }
    forall p ensures multiset(log.gone + left)[p] == if MustStay(p) then 0 else multiset(pods)[p] {
      SelectSplits(pods, isLast, p);
    }
  }

  /** No `isLast` pod is tried before every other pod is gone. */
  ghost predicate LastGoLast(log: Log, first: seq<Pod>, isLast: Pod -> bool) {
    forall i :: 0 <= i < |log.calls| && isLast(log.calls[i].pod) ==>
      && (forall j :: i <= j < |log.calls| ==> isLast(log.calls[j].pod))
      && |log.gone| >= |first| && multiset(log.gone[..|first|]) == multiset(first)
  }

  method SplitPods(pods: seq<Pod>, isLast: Pod -> bool) returns (first: seq<Pod>, last: seq<Pod>)
    ensures first == Select(pods, isLast, false) && last == Select(pods, isLast, true)
  {
    first, last := [], [];
    for i := 0 to |pods|
      invariant first == Select(pods[..i], isLast, false) && last == Select(pods[..i], isLast, true)
    {
      var p := pods[i];
      assert pods[..i + 1][..i] == pods[..i];
      if !Drainable(p) { continue; }
      if isLast(p) { last := last + [p]; } else { first := first + [p]; }
    }
    assert pods[..|pods|] == pods;
  }

  /** How a drain of these two batches may end. */
  ghost predicate Drained(w: World, o: Options, start: nat, first: seq<Pod>, last: seq<Pod>, log: Log,
                          err: Option<DrainError>,
                          left: seq<Pod>) {
    && Sound(log) && log.total == |first| + |last|
    && multiset(log.gone) + multiset(left) == multiset(first + last)
    && LastGoLast(log, first, o.isLast)
    && (err.None? ==> log.evicted == log.total && left == [] && log.blocked == [])
    && (err.Some? ==>
          (err.value.EvictFailed? || err.value.TimedOut? || err.value.Cancelled?) && Caused(w, log, err.value))
    && (err.Some? && err.value.TimedOut? ==>
          log.now > start + Timeout(o) && 0 < err.value.blocked == |log.blocked| <= |left|)
  }

  /** The log of a drain before its first pass. */
  function FreshLog(total: nat, start: nat): Log { Log(total, 0, [], [], [], [], start, 0, 0) }

  /** The whole drain, pass by pass: the passes of the first batch, and those of the last if the first went through.
      The log is what these passes make of the answers of the API, and the end is the one they lead to. */
  ghost predicate Drove(w: World, o: Options, start: nat, first: seq<Pod>, last: seq<Pod>, rounds1: seq<seq<Pod>>,
                        rounds2: seq<seq<Pod>>, log: Log, err: Option<DrainError>) {
    var deadline, every, log0 := start + Timeout(o), RetryEvery(o), FreshLog(|first| + |last|, start);
    var log1 := RoundsLog(w, every, log0, rounds1, last);
    || (err.Some? && rounds2 == [] && Worked(w, every, deadline, log0, first, last, rounds1, log, err))
    || (&& Worked(w, every, deadline, log0, first, last, rounds1, log1, None)
        && Worked(w, every, deadline, log1, last, [], rounds2, log, err))
  }

  lemma DroveFirst(w: World, o: Options, start: nat, first: seq<Pod>, last: seq<Pod>, rounds1: seq<seq<Pod>>,
                   log: Log, err: Option<DrainError>)
    requires var log0 := FreshLog(|first| + |last|, start);
             Worked(w, RetryEvery(o), start + Timeout(o), log0, first, last, rounds1, log, err) && err.Some?
    ensures Drove(w, o, start, first, last, rounds1, [], log, err)
  {
    hide Worked;
  }

  lemma DroveBoth(w: World, o: Options, start: nat, first: seq<Pod>, last: seq<Pod>, rounds1: seq<seq<Pod>>,
                  log1: Log, rounds2: seq<seq<Pod>>, log: Log, err: Option<DrainError>)
    requires var log0 := FreshLog(|first| + |last|, start);
             Worked(w, RetryEvery(o), start + Timeout(o), log0, first, last, rounds1, log1, None)
    requires Worked(w, RetryEvery(o), start + Timeout(o), log1, last, [], rounds2, log, err)
    ensures Drove(w, o, start, first, last, rounds1, rounds2, log, err)
  {
    hide Rounds, RoundsLog, BatchEnd;
  }

  method DrainBatches(w: World, o: Options, first: seq<Pod>, last: seq<Pod>, start: nat)
    returns (log: Log, err: Option<DrainError>, ghost left: seq<Pod>, ghost rounds1: seq<seq<Pod>>,
             ghost rounds2: seq<seq<Pod>>)
    requires forall p :: p in first ==> !o.isLast(p)
    requires forall p :: p in last ==> o.isLast(p)
    ensures Drove(w, o, start, first, last, rounds1, rounds2, log, err)
    ensures Drained(w, o, start, first, last, log, err, left)
    ensures forall i :: 0 <= i < |log.calls| ==> log.calls[i].pod in first + last
    ensures log.passes <= Timeout(o) / RetryEvery(o) + 3
  {
    hide Accounted, Sound, BlockedListed, LastGoLast, Worked, Drove, RoundsLog, Caused;
    rounds2 := [];
    log := FreshLog(|first| + |last|, start);
    FreshLogSound(log);
    ghost var log0, done1, left1, done2, left2;
    log0 := log;
    log, err, done1, left1, rounds1 :=
      Batch(w, log, first, last, start, Timeout(o), start + Timeout(o), RetryEvery(o));
    PassBound(log, start, Timeout(o), RetryEvery(o));
    AccountOpens(log, [], done1, left1, first, last);
    AfterFirst(log0, log, done1, left1, first, last, o.isLast);
    TimedOutCount(left1, log.blocked);
    if err.Some? {
      DroveFirst(w, o, start, first, last, rounds1, log, err);
      left := left1 + last;
      return;
    }
    ghost var log1 := log;
    log, err, done2, left2, rounds2 :=
      Batch(w, log, last, [], start, Timeout(o), start + Timeout(o), RetryEvery(o));
    DroveBoth(w, o, start, first, last, rounds1, log1, rounds2, log, err);
    PassBound(log, start, Timeout(o), RetryEvery(o));
    AccountOpens(log, log1.gone, done2, left2, last, []);
    AfterLast(log1, log, done1, done2, left2, first, last, o.isLast);
    TimedOutCount(left2, log.blocked);
    left := left2;
  }

  lemma TimedOutCount(left: seq<Pod>, blocked: seq<string>)
    ensures BlockedListed(left, blocked) ==> |blocked| == |left|
  {}

  /** Drain: pods are conserved at every report, the last pods go last, success evicts everything, a timeout
      names what is left, and the number of passes is bounded by the clock. */
  method DrainNode(w: World, o: Options, cordoned: bool, listed: Option<seq<Pod>>, start: nat)
    returns (log: Log, err: Option<DrainError>, ghost left: seq<Pod>, ghost rounds1: seq<seq<Pod>>,
             ghost rounds2: seq<seq<Pod>>)
    ensures err == Some(CordonFailed) <==> !cordoned
    ensures err == Some(ListFailed) <==> cordoned && listed.None?
    ensures cordoned && listed.Some? ==>
              var first, last := Select(listed.value, o.isLast, false), Select(listed.value, o.isLast, true);
              Drained(w, o, start, first, last, log, err, left)
              && Drove(w, o, start, first, last, rounds1, rounds2, log, err)
    ensures err == Some(CordonFailed) || err == Some(ListFailed) ==> log == FreshLog(0, start)
    ensures cordoned && listed.Some? ==> AllSeenTo(listed.value, log, left)
    // By default a drain may take five minutes and tries again every five seconds.
    ensures var timeout := if o.timeout == 0 then 300_000_000_000 else o.timeout;
            var retry := if o.retry == 0 then 5_000_000_000 else o.retry;
            log.passes <= timeout / retry + 3 && (err.Some? && err.value.TimedOut? ==> log.now > start + timeout)
  {
    hide Sound, LastGoLast, Drove, Caused;
    log, left, rounds1, rounds2 := FreshLog(0, start), [], [], [];
    if !cordoned { return log, Some(CordonFailed), left, rounds1, rounds2; }
    if listed.None? { return log, Some(ListFailed), left, rounds1, rounds2; }
    var first, last := SplitPods(listed.value, o.isLast);
    SelectMembers(listed.value, o.isLast, false);
    SelectMembers(listed.value, o.isLast, true);
    log, err, left, rounds1, rounds2 := DrainBatches(w, o, first, last, start);
    SelectedAreSeenTo(listed.value, o.isLast, log, left);
  }

  lemma FreshLogSound(log: Log)
    requires log.gone == [] && log.evicted == 0 && log.reports == [] && log.calls == []
    ensures Sound(log)
  {}

  lemma AccountOpens(log: Log, before: seq<Pod>, done: seq<Pod>, left: seq<Pod>, batch: seq<Pod>, later: seq<Pod>)
    requires Accounted(log, before, done, left, batch, later)
    ensures Sound(log) && log.gone == before + done && log.evicted + |left| + |later| == log.total
  {}

  lemma AfterFirst(log0: Log, log: Log, done: seq<Pod>, left: seq<Pod>, first: seq<Pod>, last: seq<Pod>,
                   isLast: Pod -> bool)
    requires Accounted(log, [], done, left, first, last) && log0.calls == []
    requires forall i :: 0 <= i < |log.calls| ==> log.calls[i].pod in first
    requires forall p :: p in first ==> !isLast(p)
    ensures Sound(log) && LastGoLast(log, first, isLast)
    ensures multiset(log.gone) + multiset(left + last) == multiset(first + last)
  {}

  lemma AfterLast(log1: Log, log: Log, done1: seq<Pod>, done2: seq<Pod>, left2: seq<Pod>, first: seq<Pod>,
                  last: seq<Pod>, isLast: Pod -> bool)
    requires Accounted(log1, [], done1, [], first, last) && Accounted(log, log1.gone, done2, left2, last, [])
    requires log1.calls <= log.calls
    requires forall i :: 0 <= i < |log1.calls| ==> log1.calls[i].pod in first
    requires forall i :: |log1.calls| <= i < |log.calls| ==> log.calls[i].pod in last
    requires forall p :: p in first ==> !isLast(p)
    requires forall p :: p in last ==> isLast(p)
    ensures Sound(log) && LastGoLast(log, first, isLast)
    ensures multiset(log.gone) + multiset(left2) == multiset(first + last)
  {
    assert |multiset(done1)| == |done1| && |multiset(first)| == |first|;
    assert log.gone[..|first|] == done1;
    assert forall i :: 0 <= i < |log1.calls| ==> log.calls[i] == log1.calls[i];
  }

  /** Sleeps of at least the retry interval, none begun after the deadline, bound their number. */
  lemma PassBound(log: Log, start: nat, timeout: nat, retry: nat)
    requires Clocked(log, start, timeout, retry) && retry > 0
    ensures log.sleeps <= timeout / retry + 1
  {
    if log.sleeps > 0 { QuotientBounds(log.sleeps - 1, timeout, retry); }
  }

  lemma QuotientBounds(s: nat, a: nat, b: nat)
    requires b > 0 && s * b <= a
    ensures s <= a / b
  {
    assert a == b * (a / b) + a % b;
    var d := s - a / b;
    assert d * b == s * b - a / b * b;
    assert d >= 1 ==> d * b >= b;
  }
}
