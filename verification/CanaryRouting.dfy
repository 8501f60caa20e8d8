/** Why no single API call of a rollout leaves a route dangling. */
module CanaryRouting {
  import opened Wrappers
  import opened Cluster
  import opened CanaryPlan

  /** A cluster before the rollout: the app is served, nothing dangles, no canary leftovers. */
  ghost predicate Fresh(app: App, c: State) {
    && WellKeyed(c) && NoDangling(c) && StableService(app) in c
    && forall k :: k in KeySet(app) ==> k !in c
  }

  ghost predicate RoutingKind(k: Key) { k.kind == IngressRoute || k.kind == TraefikService }

  /** What every call keeps: the Services of `c0` stay, foreign routing is untouched, our split names
      existing Services only, and our routes point at an existing split. */
  ghost predicate Routed(app: App, c0: State, c: State) {
    && WellKeyed(c)
    && (forall k :: k in c0 && k.kind == Service ==> k in c)
    && (forall k :: RoutingKind(k) && k !in KeySet(app) ==> (k in c <==> k in c0) && (k in c ==> c[k] == c0[k]))
    && (SplitKey(app) in c ==>
          CanaryService(app) in c && CanaryDeployment(app) in c && SplitsTracks(app, c[SplitKey(app)]))
    && (forall k :: k in c && (k == WebRoute(app) || k == SecureRoute(app)) ==>
          SplitKey(app) in c && c[k].IngressRouteObject? && c[k].target == SplitName(app))
  }

  /** A TraefikService over exactly the app's two Services. */
  ghost predicate SplitsTracks(app: App, o: Object) {
    o.TraefikServiceObject? && |o.services| == 2 && o.services[0].0 == app.name && o.services[1].0 == CanaryName(app)
  }

  /** No route dangles, and traffic is only ever split to a canary that has its Deployment. */
  ghost predicate Intact(app: App, c: State) {
    NoDangling(c) && (SplitKey(app) in c ==> CanaryDeployment(app) in c)
  }

  lemma RoutedIntact(app: App, c0: State, c: State)
    requires Fresh(app, c0) && Routed(app, c0, c)
    ensures Intact(app, c)
  {
    RoutedNoDangling(app, c0, c);
  }

  lemma RoutedNoDangling(app: App, c0: State, c: State)
    requires Fresh(app, c0) && Routed(app, c0, c)
    ensures NoDangling(c)
  {
    forall k | k in c && c[k].IngressRouteObject? ensures RouteServed(c, c[k]) {
      assert k.kind == IngressRoute;
      if k == WebRoute(app) || k == SecureRoute(app) {
        OwnRouteServed(app, c0, c, k);
      } else {
        ForeignRouteServed(app, c0, c, k);
      }
    }
  }

  /** A route to the split is served when the split and the two Services it may name exist. */
  lemma SplitServed(app: App, c: State, route: Object)
    requires SplitKey(app) in c && SplitsTracks(app, c[SplitKey(app)])
    requires CanaryService(app) in c && StableService(app) in c
    requires route.IngressRouteObject? && route.target == SplitName(app)
    ensures RouteServed(c, route)
  {}

  lemma OwnRoute(app: App, c0: State, c: State, k: Key)
    requires Routed(app, c0, c) && k in c && (k == WebRoute(app) || k == SecureRoute(app))
    ensures c[k].IngressRouteObject? && c[k].target == SplitName(app)
    ensures SplitKey(app) in c && CanaryService(app) in c && SplitsTracks(app, c[SplitKey(app)])
  {
    hide SplitsTracks, SplitName;
  }

  lemma StableServiceStays(app: App, c0: State, c: State)
    requires Fresh(app, c0) && Routed(app, c0, c)
    ensures StableService(app) in c
  {
    hide SplitsTracks;
  }

  lemma OwnRouteServed(app: App, c0: State, c: State, k: Key)
    requires Fresh(app, c0) && Routed(app, c0, c) && k in c && (k == WebRoute(app) || k == SecureRoute(app))
    ensures c[k].IngressRouteObject? && RouteServed(c, c[k])
  {
    hide *;
    OwnRoute(app, c0, c, k);
    StableServiceStays(app, c0, c);
    SplitServed(app, c, c[k]);
  }

  /** A route that is not ours keeps its target and the Services it had before the rollout. */
  lemma ForeignRouteServed(app: App, c0: State, c: State, k: Key)
    requires Fresh(app, c0) && k in c && k.kind == IngressRoute && k !in KeySet(app) && c[k].IngressRouteObject?
    requires forall k :: RoutingKind(k) && k !in KeySet(app) ==> (k in c <==> k in c0) && (k in c ==> c[k] == c0[k])
    requires forall k :: k in c0 && k.kind == Service ==> k in c
    ensures RouteServed(c, c[k])
  {
    var ts := Key(TraefikService, c[k].target);
    assert RoutingKind(k) && RoutingKind(ts) && RouteServed(c0, c0[k]);
    assert ts !in KeySet(app);
  }

  lemma PlainPatchKeeps(app: App, c0: State, c: State, o: Object)
    requires Routed(app, c0, c) && !RoutingKind(KeyOf(o))
    ensures Routed(app, c0, Patched(c, o))
  {}

  lemma SplitPatchKeeps(app: App, c0: State, c: State, weight: int)
    requires Routed(app, c0, c) && CanaryService(app) in c && CanaryDeployment(app) in c
    ensures Routed(app, c0, Patched(c, SplitService(app, weight)))
  {}

  lemma RoutePatchKeeps(app: App, c0: State, c: State, o: Object)
    requires Routed(app, c0, c) && SplitKey(app) in c
    requires o == SplitRoute(app, "web", false) || o == SplitRoute(app, "websecure", true)
    ensures Routed(app, c0, Patched(c, o))
  {
    RouteKeys(app);
  }

  /* ---------- the three object lists ---------- */

  function CanaryDeploymentObject(app: App, image: string, replicas: int, weighted: bool): Object {
    DeploymentObject(CanaryName(app), image, CanarySelector(app, weighted), CanaryLabels(app, weighted), replicas)
  }

  function CanaryServiceObject(app: App, weighted: bool): Object {
    ServiceObject(CanaryName(app), CanarySelector(app, weighted))
  }

  lemma {:induction false} CanaryTrackConcat(app: App, a: seq<Object>, b: seq<Object>, replicas: int, weighted: bool)
    ensures CanaryTrack(app, a + b, replicas, weighted)
         == CanaryTrack(app, a, replicas, weighted) + CanaryTrack(app, b, replicas, weighted)
  {
    if a == [] {
      assert a + b == b;
    } else {
      assert (a + b)[1..] == a[1..] + b;
      CanaryTrackConcat(app, a[1..], b, replicas, weighted);
    }
  }

  lemma {:induction false} CanaryTrackDrops(app: App, objs: seq<Object>, replicas: int, weighted: bool)
    requires forall i :: 0 <= i < |objs| ==> objs[i].OtherObject? || objs[i].IngressObject?
    ensures CanaryTrack(app, objs, replicas, weighted) == []
  {
    if objs != [] { CanaryTrackDrops(app, objs[1..], replicas, weighted); }
  }

  /** The canary track is the env Secret, if any, then the Deployment, then the Service. */
  lemma CanaryObjectsAre(app: App, image: string, replicas: int, weighted: bool)
    ensures Secrets(app) == if app.env == map[] then [] else [SecretObject(app.name + "-env", app.env)]
    ensures IsCanaryDeployment(app, image, weighted, CanaryDeploymentObject(app, image, replicas, weighted))
    ensures CanaryDeploymentObject(app, image, replicas, weighted).replicas == replicas
    ensures CanaryServiceObject(app, weighted) == ServiceObject(app.name + "-canary", CanaryPods(app, weighted))
    ensures CanaryObjects(app, image, replicas, weighted)
         == Secrets(app) + [CanaryDeploymentObject(app, image, replicas, weighted), CanaryServiceObject(app, weighted)]
  {
    var dep := DeploymentObject(app.name, image, StableSelector(app), StableLabels(app), app.replicas);
    var core := [dep, ServiceObject(app.name, StableSelector(app))];
    var claims := RenderedHead(app)[|Secrets(app)|..];
    assert RenderedHead(app) == Secrets(app) + claims;
    assert Rendered(app, image) == Secrets(app) + (claims + (core + RenderedTail(app)));
    CanaryTrackConcat(app, Secrets(app), claims + (core + RenderedTail(app)), replicas, weighted);
    CanaryTrackConcat(app, claims, core + RenderedTail(app), replicas, weighted);
    CanaryTrackConcat(app, core, RenderedTail(app), replicas, weighted);
    CanaryTrackDrops(app, claims, replicas, weighted);
    CanaryTrackDrops(app, RenderedTail(app), replicas, weighted);
    CoreTrack(app, image, replicas, weighted);
  }

  lemma CoreTrack(app: App, image: string, replicas: int, weighted: bool)
    ensures CanaryTrack(app, [DeploymentObject(app.name, image, StableSelector(app), StableLabels(app), app.replicas),
                              ServiceObject(app.name, StableSelector(app))], replicas, weighted)
         == [CanaryDeploymentObject(app, image, replicas, weighted), CanaryServiceObject(app, weighted)]
  {
    var svc := ServiceObject(app.name, StableSelector(app));
    var core := [DeploymentObject(app.name, image, StableSelector(app), StableLabels(app), app.replicas), svc];
    assert core[1..] == [svc] && [svc][1..] == [];
    assert CanaryTrack(app, [svc], replicas, weighted) == [CanaryServiceObject(app, weighted)];
  }

  /** Where the stable Deployment and Service sit in the rendered list. */
  lemma RenderedShape(app: App, image: string) returns (d: nat)
    ensures d == |RenderedHead(app)| && d + 2 < |Rendered(app, image)|
    ensures Rendered(app, image)[d]
         == DeploymentObject(app.name, image, StableSelector(app), StableLabels(app), app.replicas)
    ensures Rendered(app, image)[d + 1] == ServiceObject(app.name, StableSelector(app))
    ensures forall i :: 0 <= i < |Rendered(app, image)| && i != d && i != d + 1 ==>
              SideObject(app, Rendered(app, image)[i])
  {
    var r, head, tail := Rendered(app, image), RenderedHead(app), RenderedTail(app);
    d := |head|;
    forall i | 0 <= i < |r| && i != d && i != d + 1 ensures SideObject(app, r[i]) {
      if i < d { assert r[i] == head[i]; } else { assert r[i] == tail[i - d - 2]; }
    }
  }

  /** An app object other than its Deployment and Service. */
  ghost predicate SideObject(app: App, o: Object) {
    match o
    case SecretObject(_, _) => KeyOf(o) == SecretKey(app)
    case IngressObject(_, _, _, _, _) => true
    case OtherObject(_, _) => true
    case _ => false
  }

  lemma RenderedIsPlain(app: App, image: string)
    ensures forall o :: o in Rendered(app, image) ==> !RoutingKind(KeyOf(o))
    ensures forall o :: o in Rendered(app, image) && o.SecretObject? ==> KeyOf(o) == SecretKey(app)
  {}

  lemma AppliedNone(c: State, objs: seq<Object>)
    ensures Applied(c, objs, 0) == c
  {}

  lemma {:induction false} AppliedKeepsKeys(c: State, objs: seq<Object>, n: nat, k: Key)
    requires n <= |objs| && k in c
    ensures k in Applied(c, objs, n)
  {
    if n > 0 { AppliedKeepsKeys(c, objs, n - 1, k); }
  }

  /** An object whose key no other listed object shares is in the cluster once it has been applied. */
  lemma {:induction false} AppliedValue(c: State, objs: seq<Object>, n: nat, i: nat)
    requires i < n <= |objs| && forall o :: o in objs && KeyOf(o) == KeyOf(objs[i]) ==> o == objs[i]
    ensures KeyOf(objs[i]) in Applied(c, objs, n) && Applied(c, objs, n)[KeyOf(objs[i])] == objs[i]
  {
    if i < n - 1 {
      AppliedValue(c, objs, n - 1, i);
      assert objs[n - 1] in objs;
    }
  }

  lemma {:induction false} PlainApplyKeeps(app: App, c0: State, c: State, objs: seq<Object>, n: nat)
    requires Routed(app, c0, c) && n <= |objs| && forall o :: o in objs ==> !RoutingKind(KeyOf(o))
    ensures Routed(app, c0, Applied(c, objs, n))
  {
    hide Routed;
    if n > 0 {
      PlainApplyKeeps(app, c0, c, objs, n - 1);
      PlainPatchKeeps(app, c0, Applied(c, objs, n - 1), objs[n - 1]);
    }
  }

  /** The canary track, at every point of its application. */
  lemma CanaryApplyKeeps(app: App, image: string, c0: State, c: State, replicas: int, weighted: bool, n: nat)
    requires Routed(app, c0, c) && n <= |CanaryObjects(app, image, replicas, weighted)|
    ensures Routed(app, c0, Applied(c, CanaryObjects(app, image, replicas, weighted), n))
    ensures AgreeOutside(c, Applied(c, CanaryObjects(app, image, replicas, weighted), n), TrackKeys(app))
  {
    hide Routed, Rendered;
    var objs := CanaryObjects(app, image, replicas, weighted);
    CanaryObjectsAre(app, image, replicas, weighted);
    PlainApplyKeeps(app, c0, c, objs, n);
    AgreeOutsideAfterApply(c, objs, n, TrackKeys(app));
  }

  /** Once all of it is applied the canary Service and the sized canary Deployment exist. */
  lemma CanaryApplied(app: App, image: string, c: State, replicas: int, weighted: bool)
    ensures var objs := CanaryObjects(app, image, replicas, weighted);
            var c' := Applied(c, objs, |objs|);
            && CanaryService(app) in c' && c'[CanaryService(app)] == CanaryServiceObject(app, weighted)
            && CanaryDeployment(app) in c'
            && c'[CanaryDeployment(app)] == CanaryDeploymentObject(app, image, replicas, weighted)
  {
    hide Applied, CanaryObjects;
    var objs := CanaryObjects(app, image, replicas, weighted);
    CanaryObjectsAre(app, image, replicas, weighted);
    AppliedValue(c, objs, |objs|, |objs| - 1);
    AppliedValue(c, objs, |objs|, |objs| - 2);
  }

  /** How many objects come before the canary Deployment: the env Secret, if any. */
  function BeforeDeployment(app: App): nat { |Secrets(app)| }

  /** A start that is refused after `n` objects leaves nothing of the canary behind exactly when it had not got
      as far as the canary Deployment. */
  lemma StartLeaves(app: App, image: string, c: State, replicas: int, weighted: bool, n: nat)
    requires n <= |CanaryObjects(app, image, replicas, weighted)|
    requires forall k :: k in KeySet(app) ==> k !in c
    ensures (forall k :: k in KeySet(app) ==> k !in Applied(c, CanaryObjects(app, image, replicas, weighted), n))
       <==> n <= BeforeDeployment(app)
    ensures BeforeDeployment(app) == if app.env != map[] then 1 else 0
  {
    hide Applied, CanaryObjects, KeySet;
    var objs, d := CanaryObjects(app, image, replicas, weighted), BeforeDeployment(app);
    CanaryObjectsAre(app, image, replicas, weighted);
    SecretIsNoTrackKey(app);
    if n <= d {
      forall k | k in KeySet(app) ensures k !in Applied(c, objs, n) { AppliedMisses(c, objs, n, k); }
    } else {
      AppliedValue(c, objs, n, d);
      assert KeyOf(objs[d]) == CanaryDeployment(app);
    }
  }

  lemma TrackLength(app: App, image: string, replicas: int, weighted: bool)
    ensures |CanaryObjects(app, image, replicas, weighted)| == BeforeDeployment(app) + 2
  {
    hide CanaryObjects;
    CanaryObjectsAre(app, image, replicas, weighted);
  }

  lemma SecretIsNoTrackKey(app: App)
    ensures SecretKey(app) !in KeySet(app) && CanaryDeployment(app) in KeySet(app)
  {}

  /** The traffic objects, at every point of their application: the split comes before its routes. */
  lemma TrafficApplyKeeps(app: App, c0: State, c: State, weight: int, n: nat)
    requires Routed(app, c0, c) && CanaryService(app) in c && CanaryDeployment(app) in c
    requires TrafficObjects(app, weight).Some? && n <= |TrafficObjects(app, weight).value|
    ensures Routed(app, c0, Applied(c, TrafficObjects(app, weight).value, n))
    ensures AgreeOutside(c, Applied(c, TrafficObjects(app, weight).value, n), TrackKeys(app))
    ensures n >= 1 ==> SplitKey(app) in Applied(c, TrafficObjects(app, weight).value, n)
                       && Applied(c, TrafficObjects(app, weight).value, n)[SplitKey(app)] == SplitService(app, weight)
  {
    hide Routed;
    var objs := TrafficObjects(app, weight).value;
    if n > 0 {
      TrafficApplyKeeps(app, c0, c, weight, n - 1);
      if n == 1 {
        SplitPatchKeeps(app, c0, c, weight);
      } else {
        assert KeyOf(objs[1]) == WebRoute(app);
        assert n == 3 ==> KeyOf(objs[2]) == SecureRoute(app);
        RoutePatchKeeps(app, c0, Applied(c, objs, n - 1), objs[n - 1]);
      }
    }
  }

  /** Some route takes this host on this entry point to a split that gives the canary `weight` percent and the
      stable track the rest. */
  ghost predicate Sends(app: App, c: State, entryPoint: string, host: string, weight: int) {
    exists k :: k in c && c[k].IngressRouteObject? && c[k].entryPoint == entryPoint && host in c[k].hosts
                && SplitsAs(app, c, Key(TraefikService, c[k].target), weight)
  }

  ghost predicate SplitsAs(app: App, c: State, ts: Key, weight: int) {
    && ts in c && c[ts].TraefikServiceObject?
    && Share(c[ts].services, app.name + "-canary") == weight && Share(c[ts].services, app.name) == 100 - weight
  }

  /** Once they are all applied, every host of the app is split by the weight, on the secure entry point too
      when the app has TLS or a certificate resolver. */
  lemma TrafficArrives(app: App, c: State, weight: int, host: string)
    requires TrafficObjects(app, weight).Some? && host in app.hosts
    ensures var objs := TrafficObjects(app, weight).value;
            var c' := Applied(c, objs, |objs|);
            && Sends(app, c', "web", host, weight)
            && (app.tls || app.resolver != "" ==> Sends(app, c', "websecure", host, weight))
  {
    hide Sends, Share;
    var objs := TrafficObjects(app, weight).value;
    var c' := Applied(c, objs, |objs|);
    NamesDiffer(app);
    SplitShares(app, weight);
    RouteKeys(app);
    AppliedValue(c, objs, |objs|, 0);
    AppliedValue(c, objs, |objs|, 1);
    assert objs[1] == SplitRoute(app, "web", false) && c'[WebRoute(app)] == objs[1];
    RouteSends(app, c', WebRoute(app), "web", host, weight);
    if app.tls || app.resolver != "" {
      AppliedValue(c, objs, |objs|, 2);
      assert objs[2] == SplitRoute(app, "websecure", true) && c'[SecureRoute(app)] == objs[2];
      RouteSends(app, c', SecureRoute(app), "websecure", host, weight);
    }
  }

  /** What setCanaryWeight applies: the split and its routes in weighted mode, otherwise the resized canary. */
  function WeightObjects(app: App, image: string, s: Strategy, weight: int, weighted: bool,
                         want: Option<int>): Option<seq<Object>> {
    if weighted then TrafficObjects(app, weight)
    else Some(CanaryObjects(app, image, CanaryReplicas(app.replicas, want, s, weight, false), false))
  }

  /** The cluster carries a weight: every host of the app is split by it on every entry point it serves, or the
      canary has the size that goes with it. */
  ghost predicate Carries(app: App, image: string, s: Strategy, c: State, weight: int, weighted: bool,
                          want: Option<int>) {
    if weighted then
      && app.hosts != []
      && forall h :: h in app.hosts ==>
           && Sends(app, c, "web", h, weight)
           && (app.tls || app.resolver != "" ==> Sends(app, c, "websecure", h, weight))
    else
      var k := Key(Deployment, app.name + "-canary");
      && k in c && IsCanaryDeployment(app, image, false, c[k])
      && SizedFor(app.replicas, want, s, weight, c[k].replicas)
  }

  /** Once they are all applied, the cluster carries the weight. */
  lemma WeightArrives(app: App, image: string, s: Strategy, c: State, weight: int, weighted: bool, want: Option<int>)
    requires WeightObjects(app, image, s, weight, weighted, want).Some?
    ensures var objs := WeightObjects(app, image, s, weight, weighted, want).value;
            Carries(app, image, s, Applied(c, objs, |objs|), weight, weighted, want)
  {
    hide Applied, Sends, CanaryObjects, TrafficObjects, SizedFor, CanaryReplicas;
    if weighted {
      assert app.hosts != [] by { NoHostNoTraffic(app, weight); }
      forall h | h in app.hosts
        ensures var objs := TrafficObjects(app, weight).value;
                var c' := Applied(c, objs, |objs|);
                && Sends(app, c', "web", h, weight)
                && (app.tls || app.resolver != "" ==> Sends(app, c', "websecure", h, weight))
      {
        TrafficArrives(app, c, weight, h);
      }
    } else {
      var replicas := CanaryReplicas(app.replicas, want, s, weight, false);
      CanaryApplied(app, image, c, replicas, false);
      CanaryObjectsAre(app, image, replicas, false);
      CanaryIsSized(app.replicas, want, s, weight);
    }
  }

  lemma NoHostNoTraffic(app: App, weight: int)
    ensures TrafficObjects(app, weight).Some? <==> app.hosts != []
  {}

  lemma RouteKeys(app: App)
    ensures KeyOf(SplitRoute(app, "web", false)) == WebRoute(app)
    ensures KeyOf(SplitRoute(app, "websecure", true)) == SecureRoute(app)
  {
    assert SplitName(app) + "-" + "web" == SplitName(app) + "-web";
    assert SplitName(app) + "-" + "websecure" == SplitName(app) + "-websecure";
  }

  lemma RouteSends(app: App, c: State, k: Key, entryPoint: string, host: string, weight: int)
    requires k in c && c[k].IngressRouteObject? && c[k].entryPoint == entryPoint && host in c[k].hosts
    requires c[k].target == SplitName(app)
    requires SplitsAs(app, c, SplitKey(app), weight)
    ensures Sends(app, c, entryPoint, host, weight)
  {}

  lemma SplitShares(app: App, weight: int)
    ensures var services := SplitService(app, weight).services;
            Share(services, CanaryName(app)) == weight && Share(services, app.name) == 100 - weight
  {
    NamesDiffer(app);
    var services := SplitService(app, weight).services;
    assert services[1..] == [(CanaryName(app), weight)] && services[1..][1..] == [];
    assert Share(services[1..], CanaryName(app)) == weight && Share(services[1..], app.name) == 0;
  }

  /** The stable manifests, at every point of their application. */
  lemma StableApplyKeeps(app: App, image: string, c0: State, c: State, n: nat)
    requires Routed(app, c0, c) && n <= |Rendered(app, image)|
    ensures Routed(app, c0, Applied(c, Rendered(app, image), n))
  {
    hide Rendered, Routed;
    RenderedIsPlain(app, image);
    PlainApplyKeeps(app, c0, c, Rendered(app, image), n);
  }

  /** After all of it is applied the stable Deployment runs the new image. */
  lemma StableApplied(app: App, image: string, c: State)
    ensures var c' := Applied(c, Rendered(app, image), |Rendered(app, image)|);
            StableDeployment(app) in c' && c'[StableDeployment(app)].DeploymentObject?
            && c'[StableDeployment(app)].image == image
  {
    hide Rendered;
    var d := RenderedShape(app, image);
    AppliedValue(c, Rendered(app, image), |Rendered(app, image)|, d);
  }

  /* ---------- cleanup ---------- */

  /** State after the first `n` deletes, of which only those with `ok[i]` take effect. */
  function Cleaned(c: State, keys: seq<Key>, ok: seq<bool>, n: nat): State
    requires n <= |keys| == |ok|
  {
    if n == 0 then c
    else if ok[n - 1] then Deleted(Cleaned(c, keys, ok, n - 1), keys[n - 1]) else Cleaned(c, keys, ok, n - 1)
  }

  /** `k` is gone unless its own delete failed. */
  lemma {:induction false} CleanedHas(c: State, keys: seq<Key>, ok: seq<bool>, n: nat, k: Key)
    requires n <= |keys| == |ok|
    ensures k in Cleaned(c, keys, ok, n) <==> k in c && !(exists i :: 0 <= i < n && keys[i] == k && ok[i])
    ensures k in Cleaned(c, keys, ok, n) ==> Cleaned(c, keys, ok, n)[k] == c[k]
  {
    if n > 0 { CleanedHas(c, keys, ok, n - 1, k); }
  }

  /** No delete of an object that is there fails. */
  ghost predicate DeletesWork(c: State, keys: seq<Key>, ok: seq<bool>)
    requires |keys| == |ok|
  {
    forall i :: 0 <= i < |keys| && keys[i] in c ==> ok[i]
  }

  lemma KeysDistinct(app: App)
    ensures forall i, j :: 0 <= i < j < 5 ==> CanaryKeys(app)[i] != CanaryKeys(app)[j]
    ensures forall k :: k in KeySet(app) <==> exists i :: 0 <= i < 5 && CanaryKeys(app)[i] == k
  {
    NamesDiffer(app);
    var keys := CanaryKeys(app);
    forall k ensures k in KeySet(app) <==> exists i :: 0 <= i < 5 && keys[i] == k {
      assert keys[0] == WebRoute(app) && keys[1] == SecureRoute(app) && keys[2] == SplitKey(app);
      assert keys[3] == CanaryDeployment(app) && keys[4] == CanaryService(app);
    }
  }

  /** When the deletes work, routing stays intact after each of them: routes go before the split and
      the split before its Service. */
  lemma {:induction false} CleanupKeeps(app: App, c0: State, c: State, ok: seq<bool>, n: nat)
    requires Fresh(app, c0) && Routed(app, c0, c) && |ok| == 5 && n <= 5 && DeletesWork(c, CanaryKeys(app), ok)
    ensures Routed(app, c0, Cleaned(c, CanaryKeys(app), ok, n))
  {
    if n > 0 {
      var keys := CanaryKeys(app);
      CleanupKeeps(app, c0, c, ok, n - 1);
      var before := Cleaned(c, keys, ok, n - 1);
      KeysDistinct(app);
      GoneBefore(app, c, ok, n - 1);
      DeleteKeeps(app, c0, before, n - 1);
    }
  }

  lemma GoneBefore(app: App, c: State, ok: seq<bool>, n: nat)
    requires |ok| == 5 && n <= 5 && DeletesWork(c, CanaryKeys(app), ok)
    ensures forall i :: 0 <= i < n ==> CanaryKeys(app)[i] !in Cleaned(c, CanaryKeys(app), ok, n)
  {
    var keys := CanaryKeys(app);
    forall i | 0 <= i < n ensures keys[i] !in Cleaned(c, keys, ok, n) {
      CleanedHas(c, keys, ok, n, keys[i]);
    }
  }

  lemma DeleteKeeps(app: App, c0: State, c: State, n: nat)
    requires Fresh(app, c0) && Routed(app, c0, c) && n < 5
    requires forall i :: 0 <= i < n ==> CanaryKeys(app)[i] !in c
    ensures Routed(app, c0, Deleted(c, CanaryKeys(app)[n]))
  {
    var keys := CanaryKeys(app);
    assert keys[0] == WebRoute(app) && keys[1] == SecureRoute(app) && keys[2] == SplitKey(app);
    assert keys[3] == CanaryDeployment(app) && keys[4] == CanaryService(app);
    assert n >= 1 ==> keys[0] !in c;
    assert n >= 2 ==> keys[1] !in c;
    assert n >= 3 ==> keys[2] !in c;
  }

  lemma AllGone(app: App, c: State, ok: seq<bool>)
    requires |ok| == 5 && DeletesWork(c, CanaryKeys(app), ok)
    ensures forall k :: k in KeySet(app) ==> k !in Cleaned(c, CanaryKeys(app), ok, 5)
  {
    KeysDistinct(app);
    GoneBefore(app, c, ok, 5);
  }

  /** After a cleanup whose deletes worked, the cluster is the one before the rollout but for `extra`. */
  lemma CleanupRestores(app: App, c0: State, c: State, ok: seq<bool>, extra: set<Key>)
    requires Fresh(app, c0) && |ok| == 5 && DeletesWork(c, CanaryKeys(app), ok)
    requires AgreeOutside(c0, c, KeySet(app) + extra)
    ensures AgreeOutside(c0, Cleaned(c, CanaryKeys(app), ok, 5), extra)
    ensures forall k :: k in KeySet(app) ==> k !in Cleaned(c, CanaryKeys(app), ok, 5)
  {
    AllGone(app, c, ok);
    KeysDistinct(app);
    var c' := Cleaned(c, CanaryKeys(app), ok, 5);
    forall k | k !in extra ensures (k in c0 <==> k in c') && (k in c0 ==> c0[k] == c'[k]) {
      CleanedHas(c, CanaryKeys(app), ok, 5, k);
    }
  }

  /** With failing deletes, cleanup leaves a dangling route exactly when one of our routes survives while
      the split or the canary Service goes. */
  lemma CleanupDanglesIff(app: App, c0: State, c: State, ok: seq<bool>)
    requires Fresh(app, c0) && Routed(app, c0, c) && |ok| == 5
    ensures var routeLeft := (WebRoute(app) in c && !ok[0]) || (SecureRoute(app) in c && !ok[1]);
            NoDangling(Cleaned(c, CanaryKeys(app), ok, 5)) <==> !(routeLeft && (ok[2] || ok[4]))
  {
    hide NoDangling, Cleaned, CanaryKeys;
    var after := Cleaned(c, CanaryKeys(app), ok, 5);
    CleanedFive(app, c, ok);
    var routeLeft := (WebRoute(app) in c && !ok[0]) || (SecureRoute(app) in c && !ok[1]);
    if routeLeft && (ok[2] || ok[4]) {
      var r := if WebRoute(app) in c && !ok[0] then WebRoute(app) else SecureRoute(app);
      Unserved(app, c0, c, after, r);
    } else {
      SurvivorsServed(app, c0, c, after);
    }
  }

  /** A surviving route of ours without the split or the canary Service dangles. */
  lemma Unserved(app: App, c0: State, c: State, after: State, r: Key)
    requires Routed(app, c0, c) && r in after && r in c && after[r] == c[r]
    requires r == WebRoute(app) || r == SecureRoute(app)
    requires forall k :: k in after ==> k in c && after[k] == c[k]
    requires SplitKey(app) !in after || CanaryService(app) !in after
    ensures !NoDangling(after)
  {
    assert c[SplitKey(app)].services[1] in c[SplitKey(app)].services;
    assert !RouteServed(after, after[r]);
  }

  lemma CleanedFive(app: App, c: State, ok: seq<bool>)
    requires |ok| == 5
    ensures var after := Cleaned(c, CanaryKeys(app), ok, 5);
            && (WebRoute(app) in after <==> WebRoute(app) in c && !ok[0])
            && (SecureRoute(app) in after <==> SecureRoute(app) in c && !ok[1])
            && (SplitKey(app) in after <==> SplitKey(app) in c && !ok[2])
            && (CanaryService(app) in after <==> CanaryService(app) in c && !ok[4])
            && (forall k :: k !in KeySet(app) ==> (k in after <==> k in c))
            && (forall k :: k in after ==> k in c && after[k] == c[k])
  {
    var keys := CanaryKeys(app);
    var after := Cleaned(c, keys, ok, 5);
    KeysDistinct(app);
    assert keys[0] == WebRoute(app) && keys[1] == SecureRoute(app);
    assert keys[2] == SplitKey(app) && keys[4] == CanaryService(app);
    forall k ensures k in after <==> k in c && !(exists i :: 0 <= i < 5 && keys[i] == k && ok[i])
      ensures k in after ==> after[k] == c[k]
    {
      CleanedHas(c, keys, ok, 5, k);
    }
  }

  lemma SurvivorsServed(app: App, c0: State, c: State, after: State)
    requires Fresh(app, c0) && Routed(app, c0, c)
    requires WebRoute(app) in after || SecureRoute(app) in after ==>
               SplitKey(app) in after && CanaryService(app) in after
    requires forall k :: k in after ==> k in c && after[k] == c[k]
    requires forall k :: k !in KeySet(app) ==> (k in after <==> k in c)
    ensures NoDangling(after)
  {
    hide NoDangling, RouteServed, Fresh, Routed, KeySet;
    ServicesForeign(app, c0);
    RoutedMeans(app, c0, c);
    assert forall k :: k in c0 && k.kind == Service ==> k in after;
    forall k | k in after && after[k].IngressRouteObject? ensures RouteServed(after, after[k]) {
      assert k.kind == IngressRoute;
      if k in KeySet(app) {
        OwnSurvivorServed(app, c0, c, after, k);
      } else {
        ForeignRouteServed(app, c0, after, k);
      }
    }
    ServedMeansNoDangling(after);
  }

  lemma OwnSurvivorServed(app: App, c0: State, c: State, after: State, k: Key)
    requires Fresh(app, c0) && Routed(app, c0, c) && k in after && k in c && after[k] == c[k] && k.kind == IngressRoute
    requires SplitKey(app) in after && CanaryService(app) in after && StableService(app) in after
    requires (k == WebRoute(app) || k == SecureRoute(app)) && SplitKey(app) in c
    requires after[SplitKey(app)] == c[SplitKey(app)]
    ensures c[k].IngressRouteObject? && RouteServed(after, after[k])
  {
    hide *;
    OwnRoute(app, c0, c, k);
    SplitServed(app, after, after[k]);
  }

  lemma ServicesForeign(app: App, c0: State)
    requires Fresh(app, c0)
    ensures StableService(app) in c0 && forall k :: k in c0 ==> k !in KeySet(app)
  {}

  lemma RoutedMeans(app: App, c0: State, c: State)
    requires Routed(app, c0, c)
    ensures forall k :: k in c ==> KeyOf(c[k]) == k
    ensures forall k :: k in c0 && k.kind == Service ==> k in c
    ensures forall k :: RoutingKind(k) && k !in KeySet(app) ==> (k in c <==> k in c0) && (k in c ==> c[k] == c0[k])
    ensures forall k :: k in c && k in KeySet(app) && k.kind == IngressRoute ==>
              SplitKey(app) in c && (k == WebRoute(app) || k == SecureRoute(app))
  {}

  lemma ServedMeansNoDangling(c: State)
    requires forall k :: k in c && c[k].IngressRouteObject? ==> RouteServed(c, c[k])
    ensures NoDangling(c)
  {}

  lemma {:induction false} CleanedPrefix(c: State, keys: seq<Key>, ok: seq<bool>, n: nat, i: nat, b: bool)
    requires n <= i < |keys| == |ok|
    ensures Cleaned(c, keys, ok[i := b], n) == Cleaned(c, keys, ok, n)
  {
    if n > 0 { CleanedPrefix(c, keys, ok, n - 1, i, b); }
  }

  lemma {:induction false} AppliedMisses(c: State, objs: seq<Object>, n: nat, k: Key)
    requires n <= |objs| && forall i :: 0 <= i < n ==> KeyOf(objs[i]) != k
    ensures k in Applied(c, objs, n) <==> k in c
    ensures k in c ==> Applied(c, objs, n)[k] == c[k]
  {
    if n > 0 { AppliedMisses(c, objs, n - 1, k); }
  }

  /** An abort does not undo a promotion: one that failed after `n` of the stable manifests leaves the stable
      Deployment as it was exactly when it had not got as far as the Deployment, or had nothing to change. */
  lemma PromotionIsNotUndone(app: App, image: string, c0: State, c: State, n: nat, ok: seq<bool>)
    requires AgreeOutside(c0, c, TrackKeys(app)) && StableDeployment(app) in c0
    requires n <= |Rendered(app, image)| && |ok| == 5
    ensures var after := Cleaned(Applied(c, Rendered(app, image), n), CanaryKeys(app), ok, 5);
            && StableDeployment(app) in after
            && var stable := DeploymentObject(app.name, image, StableSelector(app), StableLabels(app), app.replicas);
               (after[StableDeployment(app)] == c0[StableDeployment(app)] <==>
                  n <= |RenderedHead(app)| || c0[StableDeployment(app)] == stable)
  {
    hide Rendered, TrackKeys, CanaryKeys;
    var objs, k := Rendered(app, image), StableDeployment(app);
    var d := RenderedShape(app, image);
    NamesDiffer(app);
    KeysDistinct(app);
    assert k !in KeySet(app) by { KeySetInTrack(app); }
    var applied := Applied(c, objs, n);
    if n <= d {
      AppliedMisses(c, objs, n, k);
    } else {
      AppliedValue(c, objs, n, d);
    }
    CleanedHas(applied, CanaryKeys(app), ok, 5, k);
  }

  lemma KeySetInTrack(app: App)
    ensures KeySet(app) <= TrackKeys(app)
  {}
}
