/** The cluster as a map of named objects, and the routing invariant a canary rollout has to keep. */
module Cluster {

  datatype ObjectKind = Secret | Deployment | Service | Ingress | TraefikService | IngressRoute | Other(kind: string)

  datatype Key = Key(kind: ObjectKind, name: string)

  type Labels = map<string, string>

  /** The parts of a Kubernetes object that a rollout reads or writes. */
  datatype Object =
    | SecretObject(name: string, data: map<string, string>)
    | DeploymentObject(name: string, image: string, selector: Labels, podLabels: Labels, replicas: int)
    | ServiceObject(name: string, selector: Labels)
    | IngressObject(name: string, hosts: seq<string>, backend: string, tls: bool, resolver: string)
    | TraefikServiceObject(name: string, services: seq<(string, int)>)
    | IngressRouteObject(
        name: string, entryPoint: string, hosts: seq<string>, target: string, tls: bool, resolver: string)
    | OtherObject(kind: string, name: string)

  function KeyOf(o: Object): Key {
    match o
    case SecretObject(n, _) => Key(Secret, n)
    case DeploymentObject(n, _, _, _, _) => Key(Deployment, n)
    case ServiceObject(n, _) => Key(Service, n)
    case IngressObject(n, _, _, _, _) => Key(Ingress, n)
    case TraefikServiceObject(n, _) => Key(TraefikService, n)
    case IngressRouteObject(n, _, _, _, _, _) => Key(IngressRoute, n)
    case OtherObject(k, n) => Key(Other(k), n)
  }

  /** Two objects are stored under one key exactly when they have the same kind and the same name. */
  lemma SameKey(a: Object, b: Object)
    ensures KeyOf(a) == KeyOf(b) <==>
            && a.name == b.name
            && (a.SecretObject? <==> b.SecretObject?) && (a.DeploymentObject? <==> b.DeploymentObject?)
            && (a.ServiceObject? <==> b.ServiceObject?) && (a.IngressObject? <==> b.IngressObject?)
            && (a.TraefikServiceObject? <==> b.TraefikServiceObject?)
            && (a.IngressRouteObject? <==> b.IngressRouteObject?)
            && (a.OtherObject? && b.OtherObject? ==> a.kind == b.kind)
  {}

  type State = map<Key, Object>

  ghost predicate WellKeyed(c: State) {
    forall k :: k in c ==> KeyOf(c[k]) == k
  }

  function Patched(c: State, o: Object): State { c[KeyOf(o) := o] }

  /** The state after the first `n` objects of a list have been applied. */
  function Applied(c: State, objs: seq<Object>, n: nat): State
    requires n <= |objs|
  {
    if n == 0 then c else Patched(Applied(c, objs, n - 1), objs[n - 1])
  }

  function Deleted(c: State, k: Key): State { c - {k} }

  /** The route's TraefikService exists, and so does every Service that one names. */
  ghost predicate RouteServed(c: State, route: Object)
    requires route.IngressRouteObject?
  {
    var ts := Key(TraefikService, route.target);
    ts in c && c[ts].TraefikServiceObject? &&
    forall s :: s in c[ts].services ==> Key(Service, s.0) in c
  }

  ghost predicate NoDangling(c: State) {
    forall k :: k in c && c[k].IngressRouteObject? ==> RouteServed(c, c[k])
  }

  /** The two states agree outside `keys`. */
  ghost predicate AgreeOutside(a: State, b: State, keys: set<Key>) {
    forall k :: k !in keys ==> (k in a <==> k in b) && (k in a ==> a[k] == b[k])
  }

  lemma {:induction false} AgreeOutsideAfterApply(a: State, objs: seq<Object>, n: nat, keys: set<Key>)
    requires n <= |objs| && forall i :: 0 <= i < |objs| ==> KeyOf(objs[i]) in keys
    ensures AgreeOutside(a, Applied(a, objs, n), keys)
  {
    if n > 0 { AgreeOutsideAfterApply(a, objs, n - 1, keys); }
  }

  lemma AgreeOutsideTransitive(a: State, b: State, c: State, keys: set<Key>)
    requires AgreeOutside(a, b, keys) && AgreeOutside(b, c, keys)
    ensures AgreeOutside(a, c, keys)
  {}
}
