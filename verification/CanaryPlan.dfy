/** The plain computations of a canary rollout: names, sizes, steps, holds, labels and manifests. */
module CanaryPlan {
  import opened Wrappers
  import opened Cluster

  datatype Strategy = Canary | BlueGreen

  datatype Policy = Policy(steps: seq<int>, interval: nat, minSuccess: int, blueGreenKeep: nat)

  /** What store.ParseCanarySteps and AppPolicy.Validate guarantee. */
  ghost predicate ValidPolicy(pol: Policy) {
    && 1 <= |pol.steps| <= 5 && 50 <= pol.minSuccess <= 100
    && (forall i :: 0 <= i < |pol.steps| ==> 1 <= pol.steps[i] <= 99)
    && (forall i, j :: 0 <= i < j < |pol.steps| ==> pol.steps[i] < pol.steps[j])
  }

  function CanarySteps(pol: Policy, s: Strategy): seq<int> {
    if s == BlueGreen then [100] else pol.steps
  }

  /** The weights entered from step `first` on are the policy's steps, or the one switch of blue-green. */
  ghost predicate FollowsPolicy(pol: Policy, s: Strategy, first: nat, applied: seq<int>) {
    match s
    case Canary => first + |applied| <= |pol.steps| && applied == pol.steps[first..first + |applied|]
    case BlueGreen => first + |applied| <= 1 && applied == [100][..|applied|]
  }

  /** The same, with no step left to enter. */
  ghost predicate WalkedThrough(pol: Policy, s: Strategy, first: nat, applied: seq<int>) {
    match s
    case Canary => first + |applied| == |pol.steps| && applied == pol.steps[first..]
    case BlueGreen => first + |applied| == 1 && applied == [100][first..]
  }

  lemma StepsOfPolicy(pol: Policy, s: Strategy, first: nat, applied: seq<int>)
    ensures FollowsPolicy(pol, s, first, applied) <==>
            && first + |applied| <= |CanarySteps(pol, s)|
            && applied == CanarySteps(pol, s)[first..first + |applied|]
    ensures WalkedThrough(pol, s, first, applied) <==>
            FollowsPolicy(pol, s, first, applied) && first + |applied| == |CanarySteps(pol, s)|
  {
    if s == BlueGreen && first + |applied| <= 1 { assert [100][first..first + |applied|] == [100][..|applied|]; }
  }

  const SECOND := 1_000_000_000   // nanoseconds

  /** How long a step holds, in nanoseconds. */
  function CanaryHold(pol: Policy, s: Strategy): nat {
    (if s == BlueGreen && pol.blueGreenKeep >= pol.interval then pol.blueGreenKeep else pol.interval) * SECOND
  }

  /** That many nanoseconds are the canary interval, and for blue-green also the time the old version is kept. */
  ghost predicate HoldOver(pol: Policy, s: Strategy, elapsed: int) {
    elapsed >= pol.interval * 1_000_000_000 && (s == BlueGreen ==> elapsed >= pol.blueGreenKeep * 1_000_000_000)
  }

  lemma HoldOverExactly(pol: Policy, s: Strategy, elapsed: int)
    ensures HoldOver(pol, s, elapsed) <==> elapsed >= CanaryHold(pol, s)
  {}

  /* ---------- replica sizing ---------- */

  /** math.Ceil of a quotient, over the reals. */
  function CeilDiv(a: int, b: int): int
    requires b > 0
  {
    -((-(a as real / b as real)).Floor)
  }

  /** Size of the stable track: what the cluster reports, else the configured count, at least one. */
  function StableSize(replicas: int, want: Option<int>): (n: int)
    ensures n >= 1
  {
    var observed := if want.Some? && want.value > 0 then want.value else replicas;
    if observed < 1 then 1 else observed
  }

  /** canaryReplicas; `want` is the observed size of the stable Deployment, if it could be read. */
  function CanaryReplicas(replicas: int, want: Option<int>, s: Strategy, w: int, weighted: bool): int {
    var stable := StableSize(replicas, want);
    if s == BlueGreen then stable
    else if weighted || w <= 0 then 1
    else if w >= 100 then stable
    else
      var n := CeilDiv(stable * w, 100 - w);
      if n < 1 then 1 else n
  }

  /** The size of the stable track: what the cluster reports, else what is configured, and at least one pod. */
  ghost predicate IsStableSize(replicas: int, want: Option<int>, n: int) {
    n == if want.Some? && want.value > 0 then want.value else if replicas > 0 then replicas else 1
  }

  /** `n` canary pods beside `stable` ones carry at least `w` percent. */
  predicate Reaches(stable: int, n: int, w: int) {
    100 * n >= w * (stable + n)
  }

  /** In ratio mode the canary has the full size for blue-green and from 100 percent on, one pod for no weight, and
      otherwise the least number of pods that carries the weight. */
  ghost predicate SizedFor(replicas: int, want: Option<int>, s: Strategy, w: int, n: int) {
    forall stable :: IsStableSize(replicas, want, stable) ==>
      if s == BlueGreen || w >= 100 then n == stable
      else if w <= 0 then n == 1
      else n >= 1 && forall m :: m >= 1 ==> (Reaches(stable, m, w) <==> m >= n)
  }

  lemma CanaryIsSized(replicas: int, want: Option<int>, s: Strategy, w: int)
    ensures SizedFor(replicas, want, s, w, CanaryReplicas(replicas, want, s, w, false))
  {
    hide CeilDiv;
    forall m | s == Canary && 1 <= w <= 99 && m >= 1
      ensures Reaches(StableSize(replicas, want), m, w) <==> m >= CanaryReplicas(replicas, want, s, w, false)
    {
      SizingIsLeast(replicas, want, w, m);
    }
  }

  /** The size before any weight is set: one pod, or for blue-green the full size. */
  lemma FirstSize(replicas: int, want: Option<int>, weighted: bool)
    ensures CanaryReplicas(replicas, want, Canary, 0, weighted) == 1
    ensures IsStableSize(replicas, want, CanaryReplicas(replicas, want, BlueGreen, 0, weighted))
  {}

  lemma CeilDivIsLeast(a: int, b: int, n: int)
    requires b > 0
    ensures b * n >= a <==> n >= CeilDiv(a, b)
  {
    var q := a as real / b as real;
    assert q * b as real == a as real;
    var f := (-q).Floor;
    assert f as real <= -q < f as real + 1.0;
    if n >= -f {
      assert n as real >= q;
      assert (n as real - q) * b as real >= 0.0;
      assert n as real * b as real >= a as real;
      assert (n * b) as real == n as real * b as real;
    } else {
      assert n as real < q;
      assert (q - n as real) * b as real > 0.0;
      assert (n * b) as real == n as real * b as real;
    }
  }

  /** In ratio mode the canary size is the least positive count whose share reaches the weight. */
  lemma SizingIsLeast(replicas: int, want: Option<int>, w: int, n: int)
    requires 1 <= w <= 99
    ensures IsStableSize(replicas, want, StableSize(replicas, want))
    ensures var size := CanaryReplicas(replicas, want, Canary, w, false);
            size >= 1 && (n >= 1 ==> (Reaches(StableSize(replicas, want), n, w) <==> n >= size))
  {
    var stable := StableSize(replicas, want);
    CeilDivIsLeast(stable * w, 100 - w, n);
    ReachesLinear(stable, n, w);
  }

  lemma ReachesLinear(stable: int, n: int, w: int)
    ensures Reaches(stable, n, w) <==> (100 - w) * n >= stable * w
  {}

  /** The real share overshoots the weight by less than one pod. */
  lemma SizingOvershoot(replicas: int, want: Option<int>, w: int)
    requires 1 <= w <= 99
    ensures var size, stable := CanaryReplicas(replicas, want, Canary, w, false), StableSize(replicas, want);
            Reaches(stable, size, w) && 100 * (size - 1) < w * (stable + size - 1)
  {
    var size, stable := CanaryReplicas(replicas, want, Canary, w, false), StableSize(replicas, want);
    SizingIsLeast(replicas, want, w, size);
    SizingIsLeast(replicas, want, w, size - 1);
    if size == 1 { MulMonotone(1, stable, w); }
  }

  /** A larger weight never gets a smaller canary. */
  lemma SizingMonotone(replicas: int, want: Option<int>, v: int, w: int)
    requires 1 <= v <= w <= 99
    ensures CanaryReplicas(replicas, want, Canary, v, false) <= CanaryReplicas(replicas, want, Canary, w, false)
  {
    var n, stable := CanaryReplicas(replicas, want, Canary, w, false), StableSize(replicas, want);
    SizingIsLeast(replicas, want, w, n);
    SizingIsLeast(replicas, want, v, n);
    MulMonotone(v, w, stable + n);
  }

  /* ---------- probe rate ---------- */

  /** The floored success rate falls short exactly when the exact one does. */
  lemma FlooredRateIsExact(ok: int, total: int, min: int)
    requires 0 <= ok <= total && total > 0
    ensures ok * 100 / total < min <==> 100 * ok < min * total
  {
    var r := ok * 100 / total;
    assert r * total <= ok * 100 < (r + 1) * total by { DivBounds(ok * 100, total); }
    if r < min {
      assert (r + 1) * total <= min * total by { MulMonotone(r + 1, min, total); }
    } else {
      assert min * total <= r * total by { MulMonotone(min, r, total); }
    }
  }

  lemma DivBounds(a: int, b: int)
    requires b > 0
    ensures a / b * b <= a < (a / b + 1) * b
  {}

  lemma MulMonotone(a: int, b: int, c: int)
    requires a <= b && c >= 0
    ensures a * c <= b * c
  {}

  /* ---------- the app and its manifests ---------- */

  /** A public web app: the only kind a canary rollout is started for. */
  datatype App = App(name: string, env: map<string, string>, volumes: seq<string>, hosts: seq<string>, tls: bool,
                     resolver: string, replicas: int, autoscaled: bool, budgeted: bool)

  const NAME_LABEL := "app.kubernetes.io/name"
  const MANAGED_LABEL := "app.kubernetes.io/managed-by"
  const TRACK_LABEL := "luncur.dev/track"

  function CanaryName(app: App): string { app.name + "-canary" }
  function SplitName(app: App): string { app.name + "-split" }

  function StableLabels(app: App): Labels { map[NAME_LABEL := app.name, MANAGED_LABEL := "luncur"] }
  function StableSelector(app: App): Labels { map[NAME_LABEL := app.name] }

  /** Ratio mode keeps the app's own name on canary pods, so the app's Service sees them. */
  function CanaryLabels(app: App, weighted: bool): Labels {
    map[
      NAME_LABEL := if weighted then CanaryName(app) else app.name,
      MANAGED_LABEL := "luncur",
      TRACK_LABEL := "canary"]
  }

  function CanarySelector(app: App, weighted: bool): Labels {
    if weighted then map[NAME_LABEL := CanaryName(app)] else map[NAME_LABEL := app.name, TRACK_LABEL := "canary"]
  }

  function SecretKey(app: App): Key { Key(Secret, app.name + "-env") }

  /** The app's env Secret, when it has env. */
  function Secrets(app: App): seq<Object> {
    if app.env != map[] then [SecretObject(SecretKey(app).name, app.env)] else []
  }

  /** The Secret and the volume claims. */
  function RenderedHead(app: App): seq<Object> {
    Secrets(app)
    + seq(|app.volumes|, i requires 0 <= i < |app.volumes| =>
        OtherObject("PersistentVolumeClaim", app.name + "-" + app.volumes[i]))
  }

  function RenderedTail(app: App): seq<Object> {
    [IngressObject(app.name, app.hosts, app.name, app.tls, app.resolver)]
    + (if app.autoscaled then [OtherObject("HorizontalPodAutoscaler", app.name)] else [])
    + (if app.budgeted then [OtherObject("PodDisruptionBudget", app.name)] else [])
  }

  /** The app's own manifests at an image, in render order. */
  function Rendered(app: App, image: string): seq<Object> {
    RenderedHead(app)
    + [DeploymentObject(app.name, image, StableSelector(app), StableLabels(app), app.replicas),
       ServiceObject(app.name, StableSelector(app))]
    + RenderedTail(app)
  }

  /** canaryObjects: the Secret as it is, the Deployment and Service renamed and relabeled. */
  function CanaryObjects(app: App, image: string, replicas: int, weighted: bool): seq<Object> {
    CanaryTrack(app, Rendered(app, image), replicas, weighted)
  }

  function CanaryTrack(app: App, rendered: seq<Object>, replicas: int, weighted: bool): seq<Object> {
    if rendered == [] then []
    else
      var rest := CanaryTrack(app, rendered[1..], replicas, weighted);
      match rendered[0]
      case SecretObject(_, _) => [rendered[0]] + rest
      case DeploymentObject(_, image, _, _, _) =>
        var selector, labels := CanarySelector(app, weighted), CanaryLabels(app, weighted);
        [DeploymentObject(CanaryName(app), image, selector, labels, replicas)] + rest
      case ServiceObject(_, _) => [ServiceObject(CanaryName(app), CanarySelector(app, weighted))] + rest
      case _ => rest
  }

  function SplitRoute(app: App, entryPoint: string, tls: bool): Object {
    IngressRouteObject(SplitName(app) + "-" + entryPoint, entryPoint, app.hosts, SplitName(app), tls,
                       if tls then app.resolver else "")
  }

  function SplitService(app: App, weight: int): Object {
    TraefikServiceObject(SplitName(app), [(app.name, 100 - weight), (CanaryName(app), weight)])
  }

  /** Percent of the traffic of a weighted split that a Service gets. */
  ghost function Share(services: seq<(string, int)>, service: string): int {
    if services == [] then 0
    else (if services[0].0 == service then services[0].1 else 0) + Share(services[1..], service)
  }

  /** trafficObjects; None when the app has no host to split. */
  function TrafficObjects(app: App, weight: int): Option<seq<Object>> {
    if app.hosts == [] then None
    else Some([SplitService(app, weight), SplitRoute(app, "web", false)]
              + if app.tls || app.resolver != "" then [SplitRoute(app, "websecure", true)] else [])
  }

  /** The canary Deployment: under its own name, on the image, and with selector and pod labels that in weighted mode
      keep it apart from the app's Service and in ratio mode let that Service see its pods. */
  ghost predicate IsCanaryDeployment(app: App, image: string, weighted: bool, o: Object) {
    && o.DeploymentObject? && o.name == app.name + "-canary" && o.image == image
    && o.selector == CanaryPods(app, weighted)
    && o.podLabels == map[
         "app.kubernetes.io/name" := if weighted then app.name + "-canary" else app.name,
         "app.kubernetes.io/managed-by" := "luncur", "luncur.dev/track" := "canary"]
  }

  ghost function CanaryPods(app: App, weighted: bool): Labels {
    if weighted then map["app.kubernetes.io/name" := app.name + "-canary"]
    else map["app.kubernetes.io/name" := app.name, "luncur.dev/track" := "canary"]
  }

  /** The split of an app's traffic and its routes, one for each entry point the app serves. */
  lemma TrafficObjectsAre(app: App, weight: int)
    ensures app.hosts == [] ==> TrafficObjects(app, weight).None?
    ensures var split := app.name + "-split";
            var services := [(app.name, 100 - weight), (app.name + "-canary", weight)];
            var web := IngressRouteObject(split + "-web", "web", app.hosts, split, false, "");
            var secure := IngressRouteObject(split + "-websecure", "websecure", app.hosts, split, true, app.resolver);
            app.hosts != [] ==>
              TrafficObjects(app, weight)
              == Some(if app.tls || app.resolver != "" then [TraefikServiceObject(split, services), web, secure]
                      else [TraefikServiceObject(split, services), web])
  {
    var split := app.name + "-split";
    assert split + "-" + "web" == split + "-web" && split + "-" + "websecure" == split + "-websecure";
    var first, secure := [SplitService(app, weight), SplitRoute(app, "web", false)], SplitRoute(app, "websecure", true);
    assert first + [secure] == [first[0], first[1], secure] && first + [] == first;
  }

  /** The app's own manifests: its Secret and claims, its Deployment and Service, then routing, scaling and budget. */
  lemma RenderedAre(app: App, image: string)
    ensures var own := map["app.kubernetes.io/name" := app.name];
            var labels := own["app.kubernetes.io/managed-by" := "luncur"];
            Rendered(app, image)
            == (if app.env == map[] then [] else [SecretObject(app.name + "-env", app.env)])
               + seq(|app.volumes|, i requires 0 <= i < |app.volumes| =>
                   OtherObject("PersistentVolumeClaim", app.name + "-" + app.volumes[i]))
               + [DeploymentObject(app.name, image, own, labels, app.replicas), ServiceObject(app.name, own),
                  IngressObject(app.name, app.hosts, app.name, app.tls, app.resolver)]
               + (if app.autoscaled then [OtherObject("HorizontalPodAutoscaler", app.name)] else [])
               + (if app.budgeted then [OtherObject("PodDisruptionBudget", app.name)] else [])
  {
    assert StableLabels(app) == StableSelector(app)["app.kubernetes.io/managed-by" := "luncur"];
  }

  /** What a cleanup deletes: routes, split, Deployment and Service of the canary, in this order. */
  lemma CanaryKeysAre(app: App)
    ensures CanaryKeys(app) == [
              Key(IngressRoute, app.name + "-split-web"), Key(IngressRoute, app.name + "-split-websecure"),
              Key(TraefikService, app.name + "-split"), Key(Deployment, app.name + "-canary"),
              Key(Service, app.name + "-canary")]
    ensures forall k :: k in KeySet(app) <==> k in CanaryKeys(app)
  {
    assert SplitName(app) + "-web" == app.name + "-split-web";
    assert SplitName(app) + "-websecure" == app.name + "-split-websecure";
  }

  function WebRoute(app: App): Key { Key(IngressRoute, SplitName(app) + "-web") }
  function SecureRoute(app: App): Key { Key(IngressRoute, SplitName(app) + "-websecure") }
  function SplitKey(app: App): Key { Key(TraefikService, SplitName(app)) }
  function CanaryDeployment(app: App): Key { Key(Deployment, CanaryName(app)) }
  function CanaryService(app: App): Key { Key(Service, CanaryName(app)) }
  function StableService(app: App): Key { Key(Service, app.name) }
  function StableDeployment(app: App): Key { Key(Deployment, app.name) }

  /** What cleanupCanary deletes, in order. */
  function CanaryKeys(app: App): (keys: seq<Key>)
    ensures |keys| == 5
  {
    [WebRoute(app), SecureRoute(app), SplitKey(app), CanaryDeployment(app), CanaryService(app)]
  }

  function KeySet(app: App): set<Key> {
    {WebRoute(app), SecureRoute(app), SplitKey(app), CanaryDeployment(app), CanaryService(app)}
  }

  /** Everything a rollout touches before promotion. */
  function TrackKeys(app: App): set<Key> { KeySet(app) + {SecretKey(app)} }

  lemma NamesDiffer(app: App)
    ensures CanaryName(app) != app.name && SplitName(app) + "-web" != SplitName(app) + "-websecure"
    ensures StableService(app) !in TrackKeys(app) && StableDeployment(app) !in TrackKeys(app)
    ensures Key(Ingress, app.name) !in TrackKeys(app)
  {}

  /* ---------- which pods a Service reaches ---------- */

  predicate Selects(selector: Labels, labels: Labels) {
    forall k :: k in selector ==> k in labels && labels[k] == selector[k]
  }

  /** In both modes the canary Service and Deployment own exactly the canary pods; the app's Service
      reaches the stable pods always and the canary pods exactly in ratio mode. */
  lemma TrackSelection(app: App, weighted: bool)
    ensures Selects(CanarySelector(app, weighted), CanaryLabels(app, weighted))
    ensures !Selects(CanarySelector(app, weighted), StableLabels(app))
    ensures Selects(StableSelector(app), StableLabels(app))
    ensures Selects(StableSelector(app), CanaryLabels(app, weighted)) <==> !weighted
  {
    NamesDiffer(app);
    assert NAME_LABEL[0] != TRACK_LABEL[0] && MANAGED_LABEL[0] != TRACK_LABEL[0] && |NAME_LABEL| != |MANAGED_LABEL|;
    assert NAME_LABEL in StableSelector(app) && NAME_LABEL in CanarySelector(app, weighted);
    if !weighted { assert TRACK_LABEL in CanarySelector(app, weighted) && TRACK_LABEL !in StableLabels(app); }
  }
}
