/** The canary / blue-green rollout machine over the store and the cluster, one API call at a time. */
module Canary {
  import opened Wrappers
  import opened Cluster
  import opened CanaryPlan
  import opened CanaryRouting
  import opened CanaryTurns

  /* ---------- the server ---------- */

  class Server {
    const app: App
    const image: string
    const policy: Policy
    const strategy: Strategy
    const answers: Answers
    var objs: State
    var calls: nat
    var now: int
    var ro: Rollout

    ghost const start: State      // the cluster before the rollout
    ghost var dangled: bool       // some call so far left a route dangling, or a split without its Deployment
    ghost var touched: bool       // some call so far changed an object outside the canary track
    ghost var deleteFailed: bool  // some delete of an existing object failed
    ghost var promoted: bool      // promotion has been attempted
    ghost var leftAlone: bool     // an abort left the objects to a newer deploy
    ghost var first: nat          // index of the first step this run entered
    ghost var applied: seq<int>   // weights entered, in order
    ghost var starts: seq<int>    // when each was entered
    ghost var checks: seq<Check>  // the facts each was left on
    ghost var sentAt: nat         // the call number at which the last one was sent

    /** A rollout record just created for a deploy of an app that is already live. */
    constructor (app: App, image: string, policy: Policy, strategy: Strategy, answers: Answers, objs: State,
                 now: int)
      requires Fresh(app, objs) && ValidPolicy(policy)
      ensures this.app == app && this.image == image && this.policy == policy && this.strategy == strategy
      ensures this.answers == answers && this.objs == objs && start == objs && this.now == now
      ensures Steady() && !deleteFailed && !promoted && !leftAlone && Linked() && ro.phase == Starting && applied == []
      ensures Healthy(ro)
    {
      this.app, this.image, this.policy, this.strategy, this.answers := app, image, policy, strategy, answers;
      this.objs, calls, this.now, ro := objs, 0, now, Rollout(Starting, 0, 0, 0, 0, 0);
      start, dangled, touched, deleteFailed, promoted, leftAlone := objs, false, false, false, false, false;
      first, applied, starts, checks, sentAt := 0, [], [], [], 0;
    }

    function Steps(): seq<int>
    {
      CanarySteps(policy, strategy)
    }

    /** Unless a delete failed, no call so far left a route dangling. */
    ghost predicate Valid()
      reads this`objs, this`deleteFailed, this`dangled
    {
      && Fresh(app, start) && ValidPolicy(policy)
      && (!deleteFailed ==> Routed(app, start, objs) && !dangled)
    }

    /** Nothing outside the canary track has changed, at any point. */
    ghost predicate Steady()
      reads this`objs, this`deleteFailed, this`dangled, this`touched
    {
      Valid() && !touched && AgreeOutside(start, objs, TrackKeys(app))
    }

    /** The canary track is up and traffic can be sent to it. */
    ghost predicate Ready()
      reads this`objs, this`deleteFailed, this`dangled, this`touched, this`promoted, this`leftAlone
    {
      && Steady() && !deleteFailed && !promoted && !leftAlone
      && CanaryService(app) in objs && CanaryDeployment(app) in objs
    }

    /** The steps entered are consecutive and each was left through its gate. */
    ghost predicate Paced()
      reads this`first, this`applied, this`starts, this`checks
    {
      WellPaced(policy, strategy, first, applied, starts, checks)
    }

    /** The weights entered are the policy's, in order, and each that was left was held as long as it says. */
    ghost predicate KeepsPolicy()
      reads this`first, this`applied, this`starts, this`checks
    {
      && FollowsPolicy(policy, strategy, first, applied) && |checks| <= |starts|
      && forall i :: 0 <= i < |checks| ==>
           HoldOver(policy, strategy, checks[i].at - starts[i] / 1_000_000_000 * 1_000_000_000)
    }

    ghost function Given(): Rules
      reads this`first
    {
      Rules(app, image, policy, strategy, answers, first)
    }

    ghost function Current(): Snap
      reads this
    {
      Snap(objs, calls, now, ro, promoted, applied, starts, checks, sentAt)
    }

    /** The record matches the last step entered, and the cluster carries its weight. */
    ghost predicate Linked()
      reads this
    {
      && Paced() && 0 <= ro.probesOK <= ro.probesTotal && Carried(Given(), Current())
      && (ro.phase == Starting ==> applied == [] && first == 0)
      && (ro.phase == Stepping ==>
            && |applied| >= 1 && |checks| == |applied| - 1 && ro.step == first + |applied| - 1
            && ro.weight == applied[|applied| - 1] && ro.startedAt == starts[|applied| - 1] / SECOND)
    }

    /** From now on the cluster and the renderer refuse nothing. */
    ghost predicate Fine()
      reads this`calls
    {
      FineFrom(answers, calls)
    }

    /* ----- single API calls ----- */

    method Patch(o: Object) returns (ok: bool)
      modifies this`objs, this`calls, this`dangled, this`touched
      ensures objs == if ok then Patched(old(objs), o) else old(objs)
      ensures ok == answers.patchOk(old(calls)) && calls == old(calls) + 1
      ensures dangled == (old(dangled) || !Intact(app, objs))
      ensures touched == (old(touched) || !AgreeOutside(start, objs, TrackKeys(app)))
    {
      ok := answers.patchOk(calls);
      calls := calls + 1;
      if ok { objs := Patched(objs, o); }
      dangled := dangled || !Intact(app, objs);
      touched := touched || !AgreeOutside(start, objs, TrackKeys(app));
    }

    method Delete(k: Key) returns (ok: bool)
      modifies this`objs, this`calls, this`dangled, this`touched, this`deleteFailed
      ensures objs == if ok then Deleted(old(objs), k) else old(objs)
      ensures ok == answers.deleteOk(old(calls)) && calls == old(calls) + 1
      ensures dangled == (old(dangled) || !Intact(app, objs))
      ensures touched == (old(touched) || !AgreeOutside(start, objs, TrackKeys(app)))
      ensures deleteFailed == (old(deleteFailed) || (!ok && k in old(objs)))
    {
      ok := answers.deleteOk(calls);
      calls := calls + 1;
      deleteFailed := deleteFailed || (!ok && k in objs);
      if ok { objs := Deleted(objs, k); }
      dangled := dangled || !Intact(app, objs);
      touched := touched || !AgreeOutside(start, objs, TrackKeys(app));
    }

    /** kube.Apply: object by object, stopping at the first error. */
    method Apply(list: seq<Object>) returns (ok: bool, ghost n: nat)
      modifies this`objs, this`calls, this`dangled, this`touched
      ensures n <= |list| && objs == Applied(old(objs), list, n) && (ok ==> n == |list|)
      ensures PatchesOk(answers, old(calls), n) && (!ok ==> n < |list| && !answers.patchOk(old(calls) + n))
      ensures ok <==> PatchesOk(answers, old(calls), |list|)
      ensures calls == old(calls) + n + if ok then 0 else 1
      ensures dangled ==> old(dangled) || SomePrefixDangles(app, old(objs), list)
      ensures touched ==> old(touched) || SomePrefixTouches(start, old(objs), list, TrackKeys(app))
    {
      hide Intact, AgreeOutside, SomePrefixDangles, SomePrefixTouches;
      n := 0;
      for i := 0 to |list|
        invariant n == i && objs == Applied(old(objs), list, i) && calls == old(calls) + i
        invariant PatchesOk(answers, old(calls), i)
        invariant dangled ==> old(dangled) || SomePrefixDangles(app, old(objs), list)
        invariant touched ==> old(touched) || SomePrefixTouches(start, old(objs), list, TrackKeys(app))
      {
        ghost var k := if answers.patchOk(calls) then i + 1 else i;
        ok := Patch(list[i]);
        assert objs == Applied(old(objs), list, k);
        AtPrefix(app, start, old(objs), list, k, TrackKeys(app));
        if !ok { return; }
        n := n + 1;
      }
      return true, n;
    }

    /* ----- the canary track and its traffic ----- */

    /** From call number `from` on, rendering or the patch after `n` others is the first thing refused. */
    ghost predicate FirstRefused(from: nat, n: nat) {
      if !answers.renderOk(from) then n == 0 else PatchesOk(answers, from, n) && !answers.patchOk(from + n)
    }

    /** From call number `from` on, something is refused before the canary Deployment is in. */
    ghost predicate RefusedEarly(from: nat) {
      !answers.renderOk(from) || !PatchesOk(answers, from, BeforeDeployment(app) + 1)
    }

    /** Render and apply the canary track at a size. */
    method ApplyCanary(replicas: int, weighted: bool) returns (ok: bool, ghost n: nat)
      requires Steady() && !deleteFailed
      modifies this`objs, this`calls, this`dangled, this`touched
      ensures Steady() && forall k :: k in old(objs) ==> k in objs
      ensures ok ==> CanaryService(app) in objs && CanaryDeployment(app) in objs
                     && objs[CanaryDeployment(app)] == CanaryDeploymentObject(app, image, replicas, weighted)
      ensures n <= |CanaryObjects(app, image, replicas, weighted)|
              && objs == Applied(old(objs), CanaryObjects(app, image, replicas, weighted), n)
      ensures !ok ==> FirstRefused(old(calls), n)
      ensures ok <==> answers.renderOk(old(calls))
                      && PatchesOk(answers, old(calls), |CanaryObjects(app, image, replicas, weighted)|)
      ensures calls >= old(calls) + n
      ensures ok ==> n == |CanaryObjects(app, image, replicas, weighted)| && calls == old(calls) + n
    {
      hide Routed, Fresh, AgreeOutside, Intact, CanaryObjects, Applied;
      AppliedNone(objs, CanaryObjects(app, image, replicas, weighted));
      if !answers.renderOk(calls) { return false, 0; }
      var list := CanaryObjects(app, image, replicas, weighted);
      ghost var before := objs;
      forall k | 0 <= k <= |list|
        ensures Intact(app, Applied(before, list, k)) && AgreeOutside(start, Applied(before, list, k), TrackKeys(app))
        ensures Routed(app, start, Applied(before, list, k))
      {
        CanaryApplyKeeps(app, image, start, before, replicas, weighted, k);
        RoutedIntact(app, start, Applied(before, list, k));
        AgreeOutsideTransitive(start, before, Applied(before, list, k), TrackKeys(app));
      }
      ok, n := Apply(list);
      CanaryApplied(app, image, before, replicas, weighted);
      forall k | k in before ensures k in objs { AppliedKeepsKeys(before, list, n, k); }
    }

    /** setCanaryWeight: in weighted mode the split carries exactly the weight; otherwise the canary is
        resized for it. All its objects are applied unless something is refused or the app has no host. */
    method SetCanaryWeight(weight: int) returns (ok: bool)
      requires Ready()
      modifies this`objs, this`calls, this`dangled, this`touched
      ensures Ready() && calls >= old(calls)
      ensures ok <==> Sendable(Given(), old(calls), weight)
      ensures ok ==> var list := SentFor(Given(), old(calls), weight).value;
                     objs == Applied(old(objs), list, |list|) && calls == old(calls) + |list|
      ensures ok ==> Carries(app, image, strategy, objs, weight, answers.hasCRD(old(calls)), answers.want(old(calls)))
    {
      hide Routed, Fresh, AgreeOutside, Intact, Applied, Carries, CanaryObjects, TrafficObjects;
      var weighted, want := answers.hasCRD(calls), answers.want(calls);
      ghost var before := objs;
      if weighted {
        if !answers.renderOk(calls) { return false; }
        var list := TrafficObjects(app, weight);
        if list.None? { return false; }
        forall k | 0 <= k <= |list.value|
          ensures Intact(app, Applied(before, list.value, k))
          ensures AgreeOutside(start, Applied(before, list.value, k), TrackKeys(app))
          ensures Routed(app, start, Applied(before, list.value, k))
        {
          TrafficApplyKeeps(app, start, before, weight, k);
          RoutedIntact(app, start, Applied(before, list.value, k));
          AgreeOutsideTransitive(start, before, Applied(before, list.value, k), TrackKeys(app));
        }
        ghost var n;
        ok, n := Apply(list.value);
        AppliedKeepsKeys(before, list.value, n, CanaryService(app));
        AppliedKeepsKeys(before, list.value, n, CanaryDeployment(app));
      } else {
        ghost var n;
        ok, n := ApplyCanary(CanaryReplicas(app.replicas, want, strategy, weight, false), false);
      }
      if ok { WeightArrives(app, image, strategy, before, weight, weighted, want); }
    }

    /** cleanupCanary: routes first, then the split, then the track. */
    method CleanupCanary() returns (ghost oks: seq<bool>)
      requires Valid()
      modifies this`objs, this`calls, this`dangled, this`touched, this`deleteFailed
      ensures |oks| == 5 && objs == Cleaned(old(objs), CanaryKeys(app), oks, 5)
      ensures calls == old(calls) + 5 && forall i :: 0 <= i < 5 ==> oks[i] == answers.deleteOk(old(calls) + i)
      ensures deleteFailed == (old(deleteFailed) || !DeletesWork(old(objs), CanaryKeys(app), oks))
      ensures Valid() && (old(Steady()) ==> Steady())
      ensures old(Fine()) ==> deleteFailed == old(deleteFailed)
    {
      hide Routed, Fresh, AgreeOutside, Intact, CanaryKeys;
      var keys := CanaryKeys(app);
      ghost var before := objs;
      oks := [false, false, false, false, false];
      KeysDistinct(app);
      for i := 0 to 5
        invariant |oks| == 5 && objs == Cleaned(before, keys, oks, i)
        invariant calls == old(calls) + i && forall j :: 0 <= j < i ==> oks[j] == answers.deleteOk(old(calls) + j)
        invariant deleteFailed == (old(deleteFailed) || exists j :: 0 <= j < i && keys[j] in before && !oks[j])
        invariant !deleteFailed ==> forall j :: 0 <= j < i ==> keys[j] !in objs
        invariant Valid() && (old(Steady()) ==> Steady())
      {
        KeyIsTracked(app, i);
        AgreeOutsideAfterDeleteIf(start, objs, TrackKeys(app), keys[i]);
        if !deleteFailed {
          DeleteKeeps(app, start, objs, i);
          RoutedIntact(app, start, objs);
          RoutedIntact(app, start, Deleted(objs, keys[i]));
        }
        ghost var was := objs;
        CleanedHas(before, keys, oks, i, keys[i]);
        assert keys[i] in was <==> keys[i] in before;
        var ok := Delete(keys[i]);
        CleanedPrefix(before, keys, oks, i, i, ok);
        oks := oks[i := ok];
        if !deleteFailed && !ok { assert Deleted(was, keys[i]) == was; }
      }
    }

    /* ----- phase changes ----- */

    /** promoteCanary: roll the stable track to the new image. */
    method PromoteCanary() returns (ok: bool)
      requires Ready()
      modifies this`objs, this`calls, this`dangled, this`touched, this`ro, this`promoted
      ensures Valid() && !deleteFailed && promoted && ro == old(ro).(phase := Promoting)
      ensures CanaryService(app) in objs
      ensures ok ==> StableRuns(image) && objs == Applied(old(objs), Rendered(app, image), |Rendered(app, image)|)
      ensures (ok <==> Promotable(Given(), old(calls))) && calls >= old(calls)
    {
      hide Routed, Fresh, AgreeOutside, Intact, Applied, Rendered;
      ro := ro.(phase := Promoting);
      promoted := true;
      if !answers.renderOk(calls) { return false; }
      var list := Rendered(app, image);
      ghost var before := objs;
      forall k | 0 <= k <= |list|
        ensures Intact(app, Applied(before, list, k)) && Routed(app, start, Applied(before, list, k))
      {
        StableApplyKeeps(app, image, start, before, k);
        RoutedIntact(app, start, Applied(before, list, k));
      }
      ghost var n;
      ok, n := Apply(list);
      StableApplied(app, image, before);
      AppliedKeepsKeys(before, list, n, CanaryService(app));
    }

    /** finishCanary. */
    method FinishCanary()
      requires Valid()
      modifies this`objs, this`calls, this`dangled, this`touched, this`deleteFailed, this`ro
      ensures Valid() && ro == old(ro).(phase := Finished) && (old(deleteFailed) ==> deleteFailed)
      ensures (old(Fine()) ==> deleteFailed == old(deleteFailed)) && calls >= old(calls)
      ensures !deleteFailed ==>
                AgreeOutside(old(objs), objs, KeySet(app)) && forall k :: k in KeySet(app) ==> k !in objs
    {
      ghost var before := objs;
      ghost var oks := CleanupCanary();
      CleanedOutside(app, before, oks);
      if !deleteFailed { AllGone(app, before, oks); }
      ro := ro.(phase := Finished);
    }

    /** Whatever an abort may leave behind once it is over. */
    ghost predicate Restored()
      reads this`objs, this`deleteFailed, this`leftAlone
    {
      !deleteFailed && !leftAlone ==>
        AgreeOutside(start, objs, {SecretKey(app)}) && forall k :: k in KeySet(app) ==> k !in objs
    }

    /** abortCanary: clean up unless a newer deploy owns the objects. */
    method AbortCanary(owner: bool)
      requires Valid()
      modifies this`objs, this`calls, this`dangled, this`touched, this`deleteFailed, this`ro, this`leftAlone
      ensures Valid() && ro == old(ro).(phase := Aborted)
      ensures old(Steady()) ==> Steady() && Restored()
      ensures old(Ready() && Paced()) ==> Over() && Drops(old(Current()), Current())
      ensures calls >= old(calls) && leftAlone == (old(leftAlone) || !owner)
      ensures !owner ==> objs == old(objs) && deleteFailed == old(deleteFailed)
    {
      hide Routed, AgreeOutside, Intact, CanaryKeys, WellPaced, Fresh, Over, Ready;
      if Ready() { ReadyMeans(); }
      if owner {
        ghost var before := objs;
        ghost var oks := CleanupCanary();
        if old(Steady()) && !deleteFailed { CleanupRestores(app, start, before, oks, {SecretKey(app)}); }
      } else {
        leftAlone := true;
      }
      ro := ro.(phase := Aborted);
      if old(Ready() && Paced()) { AbortedIsOver(); }
    }

    /** Send the weight of a step and record it. */
    method EnterStep(step: nat, at: int) returns (ok: bool)
      requires Ready() && Paced() && step < |Steps()|
      requires step == first + |applied|
      requires |checks| == |applied|
      modifies this`objs, this`calls, this`now, this`dangled, this`touched
      modifies this`ro, this`applied, this`starts, this`sentAt
      ensures Ready() && Paced() && calls >= old(calls)
      ensures ok <==> Sendable(Given(), old(calls), Steps()[step])
      ensures ok ==> Linked() && Enters(Given(), old(Current()), at, Current()) && ro.phase == Stepping
      ensures !ok ==> ro == old(ro) && now == old(now) && applied == old(applied) && starts == old(starts)
    {
      hide Ready, WellPaced, Carries, Carried, Applied, SentFor, Sendable, CanarySteps;
      EnteringKeepsPace(policy, strategy, first, applied, starts, checks, at);
      PaceBounds(policy, strategy, first, applied, starts, checks);
      ghost var before := Current();
      ok := SetCanaryWeight(Steps()[step]);
      if !ok { return; }
      SendableMeans(Given(), before.calls, Steps()[step]);
      ro, now := WithStep(step, Steps()[step], at), at;
      applied, starts, sentAt := applied + [Steps()[step]], starts + [at], before.calls;
      EnteredIsCarried(Given(), before, at, Current());
    }

    /** How a run of the step loop may leave things. */
    ghost predicate Over()
      reads this
    {
      && Valid() && Paced()
      && (!promoted ==> Steady())
      && (ro.phase == Aborted && !promoted ==> Restored())
      && (ro.phase == Promoting ==> promoted && CanaryService(app) in objs && StableRuns(image) && !deleteFailed)
    }

    lemma AbortedIsOver()
      requires Steady() && Restored() && Paced() && ro.phase == Aborted && !promoted
      ensures Over()
    {}

    /** The stable Deployment is at this image. */
    ghost predicate StableRuns(image: string)
      reads this`objs
    {
      var k := StableDeployment(app);
      k in objs && objs[k].DeploymentObject? && objs[k].image == image
    }

    /** Promote; if that fails, abort. */
    method PromoteOrAbort(owner: bool)
      requires Ready() && Paced()
      modifies this`objs, this`calls, this`dangled, this`touched
      modifies this`deleteFailed, this`ro, this`promoted, this`leftAlone
      ensures Over() && Promotes(Given(), old(Current()), Current())
      ensures calls >= old(calls) && (leftAlone ==> !owner)
    {
      hide Routed, Fresh, AgreeOutside, Intact, WellPaced, Restored, Rendered, Applied, Promotable;
      var ok := PromoteCanary();
      if !ok { AbortCanary(owner); }
    }

    /** The part of a turn that follows a record read in phase stepping. */
    method SteppingTurn(t: Turn) returns (done: bool)
      requires Ready() && Linked() && ro.phase == Stepping
      modifies this
      ensures Paced() && first == old(first)
      ensures !done ==> Ready() && Linked() && Active(ro.phase)
      ensures done ==> Over() && (ro.phase == Aborted || ro.phase == Promoting)
      ensures Follows(Given(), old(Current()), t, Current(), done)
      ensures calls >= old(calls) && (leftAlone ==> done && !t.owner)
    {
      hide Ready, Valid, Steady, Restored, StableRuns, WellPaced, GatePassed, Judge, Carried, Advances;
      ReadyMeans();
      PaceBounds(policy, strategy, first, applied, starts, checks);
      ghost var before := Current();
      now := now + t.probing;
      ro := WithProbe(ro, t.probeOk);
      var verdict := Judge(policy, strategy, ro, t.restarted, now);
      match verdict {
        case Fail =>
          AbortCanary(t.owner);
          return true;
        case Wait =>
          ro := WithRequest(ro, t.late);
          now := now + TICK;
          CarriedStays(Given(), before, Current());
          return false;
        case Advance =>
          JudgeIsGate(policy, strategy, ro, t.restarted, now, starts[|applied| - 1]);
          CarriedStays(Given(), before, Current());
          done := AdvanceStep(t, before);
      }
    }

    /** The hold of the current step is over: enter the next step, or promote after the last. */
    method AdvanceStep(t: Turn, ghost before: Snap) returns (done: bool)
      requires Ready() && Linked() && ro.phase == Stepping && ro.probesTotal > 0
      requires Current() == before.(ro := WithProbe(before.ro, t.probeOk), now := CheckAt(before, t))
      requires GatePassed(policy, strategy, CheckOf(before, t), starts[|applied| - 1])
      modifies this
      ensures Paced() && first == old(first)
      ensures !done ==> Ready() && Linked() && ro.phase == Stepping
      ensures done ==> Over() && (ro.phase == Aborted || ro.phase == Promoting)
      ensures Advances(Given(), before, t, Current(), done)
      ensures calls >= old(calls) && (leftAlone ==> done && !t.owner)
    {
      hide Ready, Valid, Steady, Restored, StableRuns, WellPaced, GatePassed, Carried, Sendable;
      hide Enters, Promotable;
      ReadyMeans();
      PaceBounds(policy, strategy, first, applied, starts, checks);
      LeavingKeepsPace(policy, strategy, first, applied, starts, checks, CheckOf(before, t));
      checks := checks + [CheckOf(before, t)];
      var next := ro.step + 1;
      var ok: bool;
      if next < |Steps()| {
        ok := EnterStep(next, now + t.writing);
        if !ok {
          ReadyMeans();
          AbortCanary(t.owner);
          return true;
        }
        return false;
      }
      PromoteOrAbort(t.owner);
      return true;
    }

    /** The part of a turn that follows a record read in phase starting. */
    method FirstStep(t: Turn) returns (done: bool)
      requires Ready() && Linked() && ro.phase == Starting
      modifies this
      ensures Paced() && first == old(first) && |Steps()| > 0
      ensures !done ==> Ready() && Linked() && ro.phase == Stepping
      ensures done ==> Over() && ro.phase == Aborted
      ensures EntersOrDrops(Given(), old(Current()), WriteAt(old(Current()), t), Current(), done)
      ensures calls >= old(calls) && (leftAlone ==> done && !t.owner)
    {
      hide Ready, Valid, Steady, Restored, StableRuns, WellPaced, Carried, Sendable, Enters;
      ReadyMeans();
      PaceBounds(policy, strategy, first, applied, starts, checks);
      var ok := EnterStep(0, now + t.probing + t.writing);
      if !ok {
        ReadyMeans();
        AbortCanary(t.owner);
      }
      return !ok;
    }

    /** One pass of runCanary's loop. */
    method Turned(t: Turn) returns (done: bool)
      requires Ready() && Linked() && Active(ro.phase)
      modifies this
      ensures Paced() && first == old(first)
      ensures !done ==> Ready() && Linked() && Active(ro.phase)
      ensures done ==> Over() && (ro.phase == Aborted || ro.phase == Promoting)
      ensures TurnMade(Given(), old(Current()), t, Current(), done)
      ensures calls >= old(calls) && (leftAlone ==> done && !t.owner)
    {
      hide Ready, Valid, Steady, Restored, StableRuns, WellPaced, Carried, EntersOrDrops, Follows;
      hide Promotable, CanarySteps, Linked;
      ReadyMeans();
      ghost var before := Current();
      LinkedStart();
      ro := WithRequest(ro, t.early);
      if t.superseded {
        AbortCanary(t.owner);
        return true;
      }
      if ro.phase == AbortRequested {
        AbortCanary(t.owner);
        return true;
      }
      if ro.phase == PromoteRequested {
        PromoteOrAbort(t.owner);
        return true;
      }
      assert Current() == before;
      if ro.phase == Starting {
        done := FirstStep(t);
      } else {
        done := SteppingTurn(t);
      }
    }

    /** runCanary: turn after turn until the rollout is promoting or over. The snapshots between the turns say what
        each turn did. */
    method RunCanary(turns: seq<Turn>) returns (done: bool, ghost snaps: seq<Snap>)
      requires Ready() && Linked() && Active(ro.phase)
      modifies this
      ensures Paced() && first == old(first)
      ensures !done ==> Ready() && Linked() && Active(ro.phase)
      ensures done ==> Over() && (ro.phase == Aborted || ro.phase == Promoting)
      ensures Walk(Given(), snaps, turns, done)
      ensures snaps != [] && snaps[0] == old(Current()) && snaps[|snaps| - 1] == Current()
      ensures done && ro.phase == Promoting && old(ro.phase) != PromoteRequested && NoPromoteRequest(turns) ==>
                |checks| == |applied| && WalkedThrough(policy, strategy, first, applied)
      // The weights entered are the policy's, in order, and each was held as long as the policy says.
      ensures KeepsPolicy()
      ensures leftAlone ==> done && SomeNotOwner(turns)
      ensures calls >= old(calls)
    {
      hide WellPaced, TurnMade, Ready, Linked, Over, Walk, Carried, SomeNotOwner, NoPromoteRequest, CanarySteps;
      hide WalkedThrough, KeepsPolicy;
      LinkedStart();
      PaceBounds(policy, strategy, first, applied, starts, checks);
      ghost var r, current := Given(), Current();
      done, snaps := false, [current];
      WalkStarts(r, current, turns);
      for i := 0 to |turns|
        invariant Ready() && Linked() && Active(ro.phase) && Given() == r && Current() == current && !leftAlone
        invariant |snaps| == i + 1 && snaps[0] == old(Current()) && snaps[i] == current && calls >= old(calls)
        invariant Walk(r, snaps, turns[..i], false)
        invariant old(ro.phase) != PromoteRequested && NoPromoteRequest(turns) ==> ro.phase != PromoteRequested
      {
        LinkedStart();
        PaceBounds(policy, strategy, first, applied, starts, checks);
        ghost var before := current;
        done := Turned(turns[i]);
        current := Current();
        TurnsHave(r, before, turns, i, current, done);
        PolicyKept();
        PaceBounds(policy, strategy, first, applied, starts, checks);
        if !done { LinkedStart(); }
        WalkStep(r, snaps, turns, current, done);
        snaps := snaps + [current];
        if done { return; }
      }
      LinkedStart();
      PolicyKept();
      assert turns[..|turns|] == turns;
    }

    /* ----- start and gates ----- */

    /** None of the canary objects exists. */
    ghost predicate NothingLeft()
      reads this`objs
    {
      forall k :: k in KeySet(app) ==> k !in objs
    }

    /** From call number `from` on, something of the canary track is refused. */
    ghost predicate StartRefused(from: nat) {
      !answers.renderOk(from) || !PatchesOk(answers, from, BeforeDeployment(app) + 2)
    }

    lemma RefusedEarlyExactly(from: nat, n: nat)
      requires FirstRefused(from, n)
      ensures n <= BeforeDeployment(app) <==> RefusedEarly(from)
    {}

    /** startCanary in phase starting: put the canary track up at its first size. */
    method StartCanary() returns (ok: bool, ghost n: nat)
      requires Steady() && !deleteFailed && !promoted && !leftAlone
      modifies this`objs, this`calls, this`dangled, this`touched
      ensures Steady() && (ok ==> Ready()) && (old(Fine()) ==> ok && Fine()) && calls >= old(calls)
      ensures (ok <==> !StartRefused(old(calls))) && (!ok ==> FirstRefused(old(calls), n))
      // A start that is refused is not cleaned up: the canary objects that made it stay.
      ensures !ok && old(NothingLeft()) ==> (NothingLeft() <==> n <= BeforeDeployment(app))
      // The size is that of the stable track as the cluster reports it at this call, or one pod.
      ensures ok ==> var weighted, want := answers.hasCRD(old(calls)), answers.want(old(calls));
                     var k := Key(Deployment, app.name + "-canary");
                     && k in objs && IsCanaryDeployment(app, image, weighted, objs[k])
                     && (if strategy == BlueGreen then IsStableSize(app.replicas, want, objs[k].replicas)
                         else objs[k].replicas == 1)
    {
      hide Routed, Fresh, AgreeOutside, Intact, CanaryObjects, Applied, CanaryDeploymentObject;
      hide CanaryReplicas, IsCanaryDeployment;
      var weighted := answers.hasCRD(calls);
      var replicas := 1;
      var want := answers.want(calls);
      if strategy == BlueGreen || !weighted {
        replicas := CanaryReplicas(app.replicas, want, strategy, 0, weighted);
      }
      FirstSize(app.replicas, want, weighted);
      CanaryObjectsAre(app, image, replicas, weighted);
      TrackLength(app, image, replicas, weighted);
      ghost var before := objs;
      ok, n := ApplyCanary(replicas, weighted);
      if old(NothingLeft()) { StartLeaves(app, image, before, replicas, weighted, n); }
    }

    /** gateDone: a ready canary track starts the step loop, a finished promotion cleans up; in any other
        phase the deploy is simply marked live. */
    method GateDone() returns (live: bool)
      requires Valid()
      modifies this`objs, this`calls, this`dangled, this`touched, this`deleteFailed, this`ro
      ensures Valid() && live == (old(ro).phase != Starting) && (old(Fine()) ==> deleteFailed == old(deleteFailed))
      ensures calls >= old(calls) && (old(ro).phase != Promoting ==> calls == old(calls))
      ensures old(ro).phase != Promoting ==> ro == old(ro) && objs == old(objs) && dangled == old(dangled)
                                             && touched == old(touched) && deleteFailed == old(deleteFailed)
      ensures old(ro).phase == Promoting ==>
                ro.phase == Finished && (old(StableRuns(image)) && !deleteFailed ==> StableRuns(image))
      ensures old(ro).phase == Promoting && !deleteFailed ==> forall k :: k in KeySet(app) ==> k !in objs
    {
      NamesDiffer(app);
      live := ro.phase != Starting;
      if ro.phase == Promoting { FinishCanary(); }
    }

    /** gateFailed: abort before promotion; after it, clean up and give the rollout up. */
    method GateFailed(owner: bool)
      requires Valid()
      modifies this`objs, this`calls, this`dangled, this`touched, this`deleteFailed, this`ro, this`leftAlone
      ensures Valid()
      ensures Active(old(ro).phase) && old(Steady()) ==> Steady() && Restored() && ro.phase == Aborted
      ensures old(ro).phase == Promoting ==> ro.phase == Aborted && (!deleteFailed ==> NothingLeft())
    {
      if Active(ro.phase) {
        AbortCanary(owner);
      } else if ro.phase == Promoting {
        ghost var before := objs;
        ghost var oks := CleanupCanary();
        if !deleteFailed { AllGone(app, before, oks); }
        ro := ro.(phase := Aborted);
      }
    }

    /** The step loop, and the gate on the stable track if it ends in a promotion. */
    method Shift(turns: seq<Turn>, stableReady: bool, owner: bool) returns (outcome: Outcome, ghost snaps: seq<Snap>)
      requires Ready() && Linked() && ro.phase == Starting
      modifies this
      ensures outcome != StartFailed && Valid() && Paced() && (!promoted ==> Steady())
      ensures first == old(first) && Walk(Given(), snaps, turns, outcome != StillRunning)
      ensures KeepsPolicy() && first == 0
      ensures snaps != [] && snaps[0] == old(Current()) && snaps[|snaps| - 1].applied == applied
      ensures outcome == Failed && !promoted ==> Restored()
      ensures outcome == Live ==> ro.phase == Finished
      ensures outcome == Live <==>
              outcome != StillRunning && snaps[|snaps| - 1].ro.phase == Promoting && stableReady
      ensures outcome == Live && !deleteFailed ==> StableRuns(image) && forall k :: k in KeySet(app) ==> k !in objs
      ensures old(Fine() && Healthy(ro)) && app.hosts != [] && Untroubled(turns) && stableReady ==>
                if |turns| >= TurnsNeeded(policy, strategy)
                then outcome == Live && !deleteFailed && WalkedThrough(policy, strategy, 0, applied)
                else outcome != Failed
    {
      hide Valid, Steady, WellPaced, Untroubled, Linked, Ready, TurnsLeft, Walk;
      hide FineFrom, TurnsNeeded, StableRuns, Healthy, Holding, CanarySteps, Restored;
      hide WalkedThrough, KeepsPolicy;
      LinkedStart();
      var done: bool;
      done, snaps := RunCanary(turns);
      if old(Fine() && Healthy(ro)) && app.hosts != [] && Untroubled(turns) {
        HealthyWalk(Given(), snaps, turns, done);
        StartingNeeds(policy, strategy, old(ro), old(now));
      }
      PaceBounds(policy, strategy, first, applied, starts, checks);
      PolicyKept();
      if !done {
        ReadyMeans();
        return StillRunning, snaps;
      }
      if ro.phase == Aborted { return Failed, snaps; }
      if !stableReady {
        GateFailed(owner);
        return Failed, snaps;
      }
      if old(Fine()) { FineStays(answers, old(calls), calls); }
      var live := GateDone();
      return Live, snaps;
    }

    lemma LinkedStart()
      requires Ready() && Linked()
      ensures Paced() && !leftAlone && ValidPolicy(policy) && ro.probesTotal >= 0 && Carried(Given(), Current())
      ensures ro.phase == Starting ==> applied == [] && first == 0
      ensures ro.phase == Stepping ==> |checks| == |applied| - 1
    {
      hide Carried;
    }

    lemma ReadyMeans()
      requires Ready()
      ensures Steady() && Valid() && !promoted && !deleteFailed && !leftAlone && |Steps()| > 0
    {}

    lemma PolicyKept()
      requires Paced()
      ensures KeepsPolicy()
      ensures first + |applied| == |Steps()| ==> WalkedThrough(policy, strategy, first, applied)
    {
      PaceMeans(policy, strategy, first, applied, starts, checks);
    }

    lemma NothingEntered()
      requires Linked() && ro.phase == Starting
      ensures Paced() && 0 <= ro.probesOK <= ro.probesTotal && applied == [] && first == 0
    {
      hide Carried;
    }

    /** With nothing entered yet the record says all there is to know. */
    lemma LinkedAnew()
      requires Paced() && 0 <= ro.probesOK <= ro.probesTotal && ro.phase == Starting && applied == [] && first == 0
      ensures Linked()
    {}

    /** A whole canary deploy: start, gate on the canary track, step loop, gate on the stable track. */
    method Deploy(trackReady: bool, duringGate: Option<Request>, turns: seq<Turn>, stableReady: bool, owner: bool)
      returns (outcome: Outcome, ghost snaps: seq<Snap>)
      requires Steady() && !deleteFailed && !promoted && !leftAlone && Linked() && ro.phase == Starting
      modifies this
      ensures Valid() && Paced()
      ensures !promoted ==> Steady()
      ensures outcome == Failed && !promoted ==> Restored()
      ensures outcome == Live && ro.phase == Finished && !deleteFailed ==>
                StableRuns(image) && forall k :: k in KeySet(app) ==> k !in objs
      ensures outcome == Live && ro.phase == Finished ==> trackReady && stableReady
      ensures outcome == StartFailed <==> StartRefused(old(calls))
      // The snapshots between the turns of the step loop, if it was reached: every weight was in the cluster.
      ensures snaps != [] ==> Walk(Given(), snaps, turns, outcome != StillRunning)
      ensures snaps != [] ==> snaps[|snaps| - 1].applied == applied
      ensures snaps != [] <==> outcome != StartFailed && trackReady && duringGate.None?
      ensures snaps == [] ==> applied == [] && ro.phase != Finished && outcome != StillRunning
      ensures snaps == [] && outcome != StartFailed ==> (outcome == Failed <==> !trackReady)
      ensures KeepsPolicy() && first == 0
      // A start that fails part-way fails the deploy without cleaning up.
      ensures outcome == StartFailed && old(NothingLeft()) ==> (NothingLeft() <==> RefusedEarly(old(calls)))
      // With nothing refused, no request and no trouble, the deploy does not fail, and it goes all the way in the
      // turns that the steps, the hold and the tick allow.
      ensures old(Fine() && Healthy(ro)) && app.hosts != [] && trackReady && stableReady && duringGate.None?
              && Untroubled(turns) ==>
                if |turns| >= TurnsNeeded(policy, strategy)
                then && outcome == Live && ro.phase == Finished && !deleteFailed
                     && WalkedThrough(policy, strategy, 0, applied)
                else outcome == StillRunning || outcome == Live
      // A request accepted while the canary track is still coming up is swallowed: the deploy is marked live
      // with the stable track untouched and the canary track still there.
      ensures outcome == Live && ro.phase != Finished ==> Ready() && applied == [] && duringGate.Some?
      ensures duringGate.Some? && trackReady && outcome != StartFailed ==>
                outcome == Live && ro.phase == PhaseOf(duringGate.value)
    {
      hide Routed, Fresh, AgreeOutside, Intact, WellPaced, Walk, FineFrom, Linked, Carried, Ready, StableRuns;
      hide Untroubled, IsCanaryDeployment, IsStableSize, FirstRefused, RefusedEarly, StartRefused;
      hide NothingLeft, TurnsNeeded, WalkedThrough, KeepsPolicy;
      NothingEntered();
      PolicyKept();
      snaps := [];
      var ok: bool;
      ghost var n;
      ok, n := StartCanary();
      if !ok {
        RefusedEarlyExactly(old(calls), n);
        return StartFailed, snaps;
      }
      ReadyMeans();
      ro := WithRequest(ro, duringGate);
      if !trackReady {
        GateFailed(owner);
        return Failed, snaps;
      }
      var live := GateDone();
      if live { return Live, snaps; }
      LinkedAnew();
      outcome, snaps := Shift(turns, stableReady, owner);
    }
  }

  /** How a deploy stands when the model stops following it. */
  datatype Outcome = StartFailed | StillRunning | Live | Failed

  /** At some turn a newer deploy owned the canary objects. */
  ghost predicate SomeNotOwner(turns: seq<Turn>) { exists i :: 0 <= i < |turns| && !turns[i].owner }

  /** What the hypotheses about all turns say about one of them. */
  lemma TurnsHave(r: Rules, a: Snap, turns: seq<Turn>, i: nat, b: Snap, done: bool)
    requires i < |turns| && TurnMade(r, a, turns[i], b, done) && Active(a.ro.phase)
    ensures !turns[i].owner ==> SomeNotOwner(turns)
    ensures NoPromoteRequest(turns) && a.ro.phase != PromoteRequested ==>
              && b.ro.phase != PromoteRequested
              && (done && b.ro.phase == Promoting ==>
                    && a.ro.phase == Stepping && |b.checks| == |a.checks| + 1 && |b.applied| == |a.applied|
                    && r.first + |b.applied| >= |CanarySteps(r.policy, r.strategy)|)
  {
    hide TurnMade, CanarySteps;
    if NoPromoteRequest(turns) && a.ro.phase != PromoteRequested {
      UnrequestedPromotion(r, a, turns[i], b, done);
    }
  }

  lemma AtPrefix(app: App, c0: State, c: State, list: seq<Object>, k: nat, keys: set<Key>)
    requires k <= |list|
    ensures !Intact(app, Applied(c, list, k)) ==> SomePrefixDangles(app, c, list)
    ensures !AgreeOutside(c0, Applied(c, list, k), keys) ==> SomePrefixTouches(c0, c, list, keys)
  {}

  ghost predicate SomePrefixDangles(app: App, c: State, list: seq<Object>) {
    exists k :: 0 <= k <= |list| && !Intact(app, Applied(c, list, k))
  }

  ghost predicate SomePrefixTouches(c0: State, c: State, list: seq<Object>, keys: set<Key>) {
    exists k :: 0 <= k <= |list| && !AgreeOutside(c0, Applied(c, list, k), keys)
  }

  lemma KeyIsTracked(app: App, i: nat)
    requires i < 5
    ensures CanaryKeys(app)[i] in TrackKeys(app)
  {}

  lemma AgreeOutsideAfterDeleteIf(a: State, b: State, keys: set<Key>, k: Key)
    requires k in keys
    ensures AgreeOutside(a, b, keys) ==> AgreeOutside(a, Deleted(b, k), keys)
  {}

  lemma CleanedOutside(app: App, c: State, oks: seq<bool>)
    requires |oks| == 5
    ensures AgreeOutside(c, Cleaned(c, CanaryKeys(app), oks, 5), KeySet(app))
  {
    CleanedFive(app, c, oks);
  }
}
