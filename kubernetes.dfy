/** `Kubernetes.doMap`: a snapshot of the kubelet's pods becomes the collection
    of service instances the observer reports, one per declared port of every
    running container, in pod, then container, then port order. */
module Kubernetes {
  import opened Results
  import opened Kubelet
  import opened Services

  /** Dimensions the observer sets itself; they win over pod labels of the same name. */
  const POD_NAME_DIMENSION: string := "kubernetes_pod_name"
  const NAMESPACE_DIMENSION: string := "kubernetes_namespace"
  const CONTAINER_NAME_DIMENSION: string := "container_name"

  predicate IsReservedDimension(k: string) {
    k == POD_NAME_DIMENSION || k == NAMESPACE_DIMENSION || k == CONTAINER_NAME_DIMENSION
  }

  /** A pod the mapper cannot name an instance for: the index of the first
      pod whose name, or one of whose container names, is empty. */
  datatype MappingError = MissingIdentity(pod: nat)

  // ---------------------------------------------------------------------
  // Specification

  /** The first status recorded for the container called `name`. */
  function FindStatus(ss: seq<ContainerStatus>, name: string): (r: Option<ContainerStatus>)
    ensures r.None? <==> forall i :: 0 <= i < |ss| ==> ss[i].name != name
    ensures r.Some? ==> exists i :: 0 <= i < |ss| && ss[i] == r.value && ss[i].name == name
                                    && forall j :: 0 <= j < i ==> ss[j].name != name
  {
    if ss == [] then None
    else if ss[0].name == name then Some(ss[0])
    else
      var r := FindStatus(ss[1..], name);
      assert forall i :: 1 <= i < |ss| ==> ss[i] == ss[1..][i - 1];
      r
  }

  /** A container is running when the state of its status has the `running` key. */
  predicate IsRunning(pod: Pod, c: Container) {
    match FindStatus(pod.status.containerStatuses, c.name)
    case None => false
    case Some(st) => RUNNING in st.state
  }

  /** Every pod label, then the pod name, namespace and container name. */
  function Dimensions(pod: Pod, c: Container): (d: map<string, string>)
    ensures d.Keys == pod.metadata.labels.Keys + {POD_NAME_DIMENSION, NAMESPACE_DIMENSION, CONTAINER_NAME_DIMENSION}
    ensures d[POD_NAME_DIMENSION] == pod.metadata.name
    ensures d[NAMESPACE_DIMENSION] == pod.metadata.namespace
    ensures d[CONTAINER_NAME_DIMENSION] == c.name
    ensures forall k :: k in pod.metadata.labels && !IsReservedDimension(k) ==> d[k] == pod.metadata.labels[k]
  {
    pod.metadata.labels + map[POD_NAME_DIMENSION := pod.metadata.name,
                              NAMESPACE_DIMENSION := pod.metadata.namespace,
                              CONTAINER_NAME_DIMENSION := c.name]
  }

  /** The instance for port `p` of container `c` in `pod`, discovered at `now`. */
  function NewInstance(pod: Pod, c: Container, p: Port, now: Time): ServiceInstance {
    ServiceInstance(InstanceId(pod.metadata.uid, c.name, p.containerPort), pod.status.podIP,
                    p.containerPort, p.protocol, p.name, Dimensions(pod, c), now)
  }

  /** The instances for the ports `ps` of container `c`, one per port. */
  function PortInstances(pod: Pod, c: Container, ps: seq<Port>, now: Time): (r: ServiceInstances)
    ensures |r| == |ps| && forall k :: 0 <= k < |ps| ==> r[k] == NewInstance(pod, c, ps[k], now)
  {
    seq(|ps|, k requires 0 <= k < |ps| => NewInstance(pod, c, ps[k], now))
  }

  /** What the containers `cs` of `pod` contribute: the ports of each running one. */
  function ContainerInstances(pod: Pod, cs: seq<Container>, now: Time): ServiceInstances {
    if cs == [] then []
    else
      var c := cs[|cs| - 1];
      ContainerInstances(pod, cs[..|cs| - 1], now) + (if IsRunning(pod, c) then PortInstances(pod, c, c.ports, now) else [])
  }

  function PodInstances(pod: Pod, now: Time): ServiceInstances {
    ContainerInstances(pod, pod.spec.containers, now)
  }

  /** What the pods `items` contribute, in their order. */
  function PodsInstances(items: seq<Pod>, now: Time): ServiceInstances {
    if items == [] then []
    else PodsInstances(items[..|items| - 1], now) + PodInstances(items[|items| - 1], now)
  }

  function FirstMissingIdentity(items: seq<Pod>): (i: nat)
    requires exists i :: 0 <= i < |items| && !HasIdentity(items[i])
    ensures i < |items| && !HasIdentity(items[i]) && forall j :: 0 <= j < i ==> HasIdentity(items[j])
  {
    if !HasIdentity(items[0]) then 0
    else
      assert forall i :: 1 <= i < |items| ==> items[i] == items[1..][i - 1];
      1 + FirstMissingIdentity(items[1..])
  }

  lemma {:induction false} FirstMissingIdentityIs(items: seq<Pod>, i: nat)
    requires i < |items| && !HasIdentity(items[i]) && forall j :: 0 <= j < i ==> HasIdentity(items[j])
    ensures FirstMissingIdentity(items) == i
  {
  }

  /** The collection `doMap` builds from a snapshot, with the clock reading `now`. */
  function MapPods(ps: Pods, now: Time): Result<ServiceInstances, MappingError> {
    if forall i :: 0 <= i < |ps.items| ==> HasIdentity(ps.items[i]) then Ok(PodsInstances(ps.items, now))
    else Err(MissingIdentity(FirstMissingIdentity(ps.items)))
  }

  // ---------------------------------------------------------------------
  // The mapping loop

  /** `doMap`: the previously known instances `sis` are accepted and not
      merged; the result is rebuilt from the snapshot, stamped with `now`. */
  method DoMap(sis: ServiceInstances, ps: Pods, now: Time) returns (r: Result<ServiceInstances, MappingError>)
    ensures r == MapPods(ps, now)
  {
    var out: ServiceInstances := [];
    var i := 0;
    while i < |ps.items|
      invariant 0 <= i <= |ps.items|
      invariant forall j :: 0 <= j < i ==> HasIdentity(ps.items[j])
      invariant out == PodsInstances(ps.items[..i], now)
    {
      var pod := ps.items[i];
      if !HasIdentity(pod) {
        FirstMissingIdentityIs(ps.items, i);
        return Err(MissingIdentity(i));
      }
      var found := MapPod(pod, now);
      PodsInstancesStep(ps.items, i, now);
      out := out + found;
      i := i + 1;
    }
    assert ps.items[..i] == ps.items;
    return Ok(out);
  }

  /** The body of the loop over pods: every declared port of each running container. */
  method MapPod(pod: Pod, now: Time) returns (out: ServiceInstances)
    ensures out == PodInstances(pod, now)
  {
    out := [];
    var cs := pod.spec.containers;
    var j := 0;
    while j < |cs|
      invariant 0 <= j <= |cs|
      invariant out == ContainerInstances(pod, cs[..j], now)
    {
      var c := cs[j];
      if IsRunning(pod, c) {
        var found := MapPorts(pod, c, now);
        out := out + found;
      }
      ContainerInstancesStep(pod, cs, j, now);
      j := j + 1;
    }
    assert cs[..j] == cs;
  }

  /** The loop over the ports of a running container: one instance per port, in order. */
  method MapPorts(pod: Pod, c: Container, now: Time) returns (out: ServiceInstances)
    ensures out == PortInstances(pod, c, c.ports, now)
  {
    out := [];
    var k := 0;
    while k < |c.ports|
      invariant 0 <= k <= |c.ports|
      invariant out == PortInstances(pod, c, c.ports[..k], now)
    {
      PortInstancesPrefix(pod, c, c.ports, k, now);
      out := out + [NewInstance(pod, c, c.ports[k], now)];
      k := k + 1;
    }
    assert c.ports[..k] == c.ports;
  }

  // ---------------------------------------------------------------------
  // Which instances are reported

  lemma {:induction false} PortInstancesPrefix(pod: Pod, c: Container, ps: seq<Port>, k: nat, now: Time)
    requires k < |ps|
    ensures PortInstances(pod, c, ps[..k + 1], now) == PortInstances(pod, c, ps[..k], now) + [NewInstance(pod, c, ps[k], now)]
  {
  }

  lemma {:induction false} ContainerInstancesStep(pod: Pod, cs: seq<Container>, j: nat, now: Time)
    requires j < |cs|
    ensures ContainerInstances(pod, cs[..j + 1], now) ==
            ContainerInstances(pod, cs[..j], now) + (if IsRunning(pod, cs[j]) then PortInstances(pod, cs[j], cs[j].ports, now) else [])
  {
    assert cs[..j + 1][..j] == cs[..j];
  }

  lemma {:induction false} PodsInstancesStep(items: seq<Pod>, i: nat, now: Time)
    requires i < |items|
    ensures PodsInstances(items[..i + 1], now) == PodsInstances(items[..i], now) + PodInstances(items[i], now)
  {
    assert items[..i + 1][..i] == items[..i];
  }

  /** Instance `x` is port `k` of the running container `j` of `cs`. */
  predicate PortOf(pod: Pod, cs: seq<Container>, now: Time, x: ServiceInstance, j: int, k: int) {
    0 <= j < |cs| && 0 <= k < |cs[j].ports| && IsRunning(pod, cs[j]) && x == NewInstance(pod, cs[j], cs[j].ports[k], now)
  }

  lemma {:induction false} PortOfPrefix(pod: Pod, cs: seq<Container>, n: nat, now: Time, x: ServiceInstance, j: int, k: int)
    requires n <= |cs| && 0 <= j < n
    ensures PortOf(pod, cs[..n], now, x, j, k) <==> PortOf(pod, cs, now, x, j, k)
  {
    assert cs[..n][j] == cs[j];
  }

  /** Every instance of the containers `cs` is some port of a running one. */
  lemma {:induction false} ContainerInstancesSound(pod: Pod, cs: seq<Container>, now: Time, x: ServiceInstance) returns (j: nat, k: nat)
    requires x in ContainerInstances(pod, cs, now)
    ensures PortOf(pod, cs, now, x, j, k)
  {
    var n := |cs| - 1;
    var c := cs[n];
    if x in ContainerInstances(pod, cs[..n], now) {
      j, k := ContainerInstancesSound(pod, cs[..n], now, x);
      PortOfPrefix(pod, cs, n, now, x, j, k);
    } else {
      var tail := PortInstances(pod, c, c.ports, now);
      assert IsRunning(pod, c) && x in tail;
      var m :| 0 <= m < |tail| && tail[m] == x;
      j, k := n, m;
    }
  }

  /** Every port of a running container of `cs` is among its instances. */
  lemma {:induction false} ContainerInstancesComplete(pod: Pod, cs: seq<Container>, now: Time, x: ServiceInstance, j: nat, k: nat)
    requires PortOf(pod, cs, now, x, j, k)
    ensures x in ContainerInstances(pod, cs, now)
  {
    var n := |cs| - 1;
    var c := cs[n];
    if j < n {
      PortOfPrefix(pod, cs, n, now, x, j, k);
      ContainerInstancesComplete(pod, cs[..n], now, x, j, k);
    } else {
      var tail := PortInstances(pod, c, c.ports, now);
      assert tail[k] == x;
    }
  }

  /** An instance comes from a running container of the pod, one of its ports. */
  lemma {:induction false} ContainerInstancesMembers(pod: Pod, cs: seq<Container>, now: Time, x: ServiceInstance)
    ensures x in ContainerInstances(pod, cs, now) <==> exists j, k :: PortOf(pod, cs, now, x, j, k)
  {
    if x in ContainerInstances(pod, cs, now) {
      var j, k := ContainerInstancesSound(pod, cs, now, x);
    }
    if exists j, k :: PortOf(pod, cs, now, x, j, k) {
      var j, k :| PortOf(pod, cs, now, x, j, k);
      ContainerInstancesComplete(pod, cs, now, x, j, k);
    }
  }

  /** A pod none of whose containers is running contributes nothing, and no error. */
  lemma {:induction false} NoRunningContainerNoInstances(pod: Pod, now: Time)
    requires forall j :: 0 <= j < |pod.spec.containers| ==> !IsRunning(pod, pod.spec.containers[j])
    ensures PodInstances(pod, now) == []
  {
    var s := PodInstances(pod, now);
    if s != [] {
      ContainerInstancesMembers(pod, pod.spec.containers, now, s[0]);
      assert false;
    }
  }

  /** Every instance of the pods `items` is an instance of one of them. */
  lemma {:induction false} PodsInstancesSound(items: seq<Pod>, now: Time, x: ServiceInstance) returns (i: nat)
    requires x in PodsInstances(items, now)
    ensures i < |items| && x in PodInstances(items[i], now)
  {
    var n := |items| - 1;
    if x in PodsInstances(items[..n], now) {
      i := PodsInstancesSound(items[..n], now, x);
      assert items[..n][i] == items[i];
    } else {
      i := n;
    }
  }

  /** Every instance of one of the pods `items` is among their instances. */
  lemma {:induction false} PodsInstancesComplete(items: seq<Pod>, now: Time, x: ServiceInstance, i: nat)
    requires i < |items| && x in PodInstances(items[i], now)
    ensures x in PodsInstances(items, now)
  {
    var n := |items| - 1;
    if i < n {
      assert items[..n][i] == items[i];
      PodsInstancesComplete(items[..n], now, x, i);
    }
  }

  /** An instance of the snapshot is an instance of one of its pods. */
  lemma {:induction false} PodsInstancesMembers(items: seq<Pod>, now: Time, x: ServiceInstance)
    ensures x in PodsInstances(items, now) <==> exists i :: 0 <= i < |items| && x in PodInstances(items[i], now)
  {
    if x in PodsInstances(items, now) {
      var i := PodsInstancesSound(items, now, x);
    }
    if exists i :: 0 <= i < |items| && x in PodInstances(items[i], now) {
      var i :| 0 <= i < |items| && x in PodInstances(items[i], now);
      PodsInstancesComplete(items, now, x, i);
    }
  }

  /** Only running containers are reported: every instance is a declared port
      of a container whose status has the `running` key, stamped with `now`. */
  lemma {:induction false} OnlyRunningReported(items: seq<Pod>, now: Time, x: ServiceInstance)
    requires x in PodsInstances(items, now)
    ensures x.discovered == now
    ensures exists i, j, k :: 0 <= i < |items| && PortOf(items[i], items[i].spec.containers, now, x, j, k)
  {
    PodsInstancesMembers(items, now, x);
    var i :| 0 <= i < |items| && x in PodInstances(items[i], now);
    ContainerInstancesMembers(items[i], items[i].spec.containers, now, x);
    var j, k :| PortOf(items[i], items[i].spec.containers, now, x, j, k);
  }

  /** Every declared port of every running container is reported. */
  lemma {:induction false} EveryRunningPortReported(items: seq<Pod>, now: Time, i: nat, j: nat, k: nat)
    requires i < |items| && j < |items[i].spec.containers| && k < |items[i].spec.containers[j].ports|
    requires IsRunning(items[i], items[i].spec.containers[j])
    ensures NewInstance(items[i], items[i].spec.containers[j], items[i].spec.containers[j].ports[k], now) in PodsInstances(items, now)
  {
    var c := items[i].spec.containers[j];
    var x := NewInstance(items[i], c, c.ports[k], now);
    assert PortOf(items[i], items[i].spec.containers, now, x, j, k);
    ContainerInstancesMembers(items[i], items[i].spec.containers, now, x);
    PodsInstancesMembers(items, now, x);
  }

  /** The pods of a snapshot contribute in their order: mapping two runs of pods
      one after the other gives the two collections one after the other. */
  lemma {:induction false} PodsInstancesAppend(a: seq<Pod>, b: seq<Pod>, now: Time)
    ensures PodsInstances(a + b, now) == PodsInstances(a, now) + PodsInstances(b, now)
  {
    if b == [] {
      assert a + b == a;
    } else {
      var n := |b| - 1;
      ConcatInit(a, b);
      assert PodsInstances(a + b, now) == PodsInstances(a + b[..n], now) + PodInstances(b[n], now);
      PodsInstancesAppend(a, b[..n], now);
    }
  }

  lemma {:induction false} ConcatInit<T>(a: seq<T>, b: seq<T>)
    requires b != []
    ensures a + b != [] && (a + b)[..|a + b| - 1] == a + b[..|b| - 1] && (a + b)[|a + b| - 1] == b[|b| - 1]
  {
  }

  // ---------------------------------------------------------------------
  // The clock and the previous instances

  /** A collection with every discovery time set to `t`. */
  function Restamp(s: ServiceInstances, t: Time): (r: ServiceInstances)
    ensures |r| == |s| && forall k :: 0 <= k < |s| ==> r[k] == s[k].(discovered := t)
  {
    seq(|s|, k requires 0 <= k < |s| => s[k].(discovered := t))
  }

  lemma {:induction false} RestampAppend(s: ServiceInstances, u: ServiceInstances, t: Time)
    ensures Restamp(s + u, t) == Restamp(s, t) + Restamp(u, t)
  {
  }

  lemma {:induction false} ContainerInstancesClock(pod: Pod, cs: seq<Container>, t1: Time, t2: Time)
    ensures ContainerInstances(pod, cs, t2) == Restamp(ContainerInstances(pod, cs, t1), t2)
  {
    if cs != [] {
      var n := |cs| - 1;
      ContainerInstancesClock(pod, cs[..n], t1, t2);
      var c := cs[n];
      var tail1 := if IsRunning(pod, c) then PortInstances(pod, c, c.ports, t1) else [];
      var tail2 := if IsRunning(pod, c) then PortInstances(pod, c, c.ports, t2) else [];
      assert tail2 == Restamp(tail1, t2);
      RestampAppend(ContainerInstances(pod, cs[..n], t1), tail1, t2);
    }
  }

  /** The clock decides the discovery times and nothing else: mapping the same
      snapshot at another time gives the same instances with the new time. */
  lemma {:induction false} ClockOnlyStamps(items: seq<Pod>, t1: Time, t2: Time)
    ensures PodsInstances(items, t2) == Restamp(PodsInstances(items, t1), t2)
  {
    if items != [] {
      var n := |items| - 1;
      ClockOnlyStamps(items[..n], t1, t2);
      ContainerInstancesClock(items[n], items[n].spec.containers, t1, t2);
      RestampAppend(PodsInstances(items[..n], t1), PodInstances(items[n], t1), t2);
    }
  }

  /** A decoded snapshot always has the identity fields, so mapping it never fails. */
  lemma {:induction false} LoadedSnapshotMaps(body: seq<Json.byte>, now: Time)
    requires Load(body).Ok?
    ensures MapPods(Load(body).value, now) == Ok(PodsInstances(Load(body).value.items, now))
  {
    var ps := Load(body).value;
    forall i | 0 <= i < |ps.items| ensures HasIdentity(ps.items[i]) {
      WellFormedHasIdentity(ps, i);
    }
  }

  // ---------------------------------------------------------------------
  // Identifiers are unique

  /** Container names are unique within the pod, port numbers within each container. */
  predicate UniqueNames(pod: Pod) {
    var cs := pod.spec.containers;
    (forall a, b :: 0 <= a < b < |cs| ==> cs[a].name != cs[b].name)
    && forall j :: 0 <= j < |cs| ==> forall a, b :: 0 <= a < b < |cs[j].ports| ==> cs[j].ports[a].containerPort != cs[j].ports[b].containerPort
  }

  /** Pod identifiers are unique within the snapshot, and names within each pod. */
  predicate UniqueIdentities(items: seq<Pod>) {
    (forall a, b :: 0 <= a < b < |items| ==> items[a].metadata.uid != items[b].metadata.uid)
    && forall i :: 0 <= i < |items| ==> UniqueNames(items[i])
  }

  lemma {:induction false} ContainerIdsDistinct(pod: Pod, cs: seq<Container>, now: Time)
    requires forall a, b :: 0 <= a < b < |cs| ==> cs[a].name != cs[b].name
    requires forall j :: 0 <= j < |cs| ==> forall a, b :: 0 <= a < b < |cs[j].ports| ==> cs[j].ports[a].containerPort != cs[j].ports[b].containerPort
    ensures DistinctIds(ContainerInstances(pod, cs, now))
  {
    if cs != [] {
      var n := |cs| - 1;
      var c := cs[n];
      var s := ContainerInstances(pod, cs[..n], now);
      var tail := if IsRunning(pod, c) then PortInstances(pod, c, c.ports, now) else [];
      ContainerIdsDistinct(pod, cs[..n], now);
      forall a, b | 0 <= a < |s| && 0 <= b < |tail| ensures s[a].id != tail[b].id {
        ContainerInstancesMembers(pod, cs[..n], now, s[a]);
        var j, k :| PortOf(pod, cs[..n], now, s[a], j, k);
        PortOfPrefix(pod, cs, n, now, s[a], j, k);
        assert s[a].id.container == cs[j].name != c.name == tail[b].id.container;
      }
      DistinctIdsJoin(s, tail);
    }
  }

  /** Under unique pod identifiers and names, every reported instance has its own identifier. */
  lemma {:induction false} InstanceIdsDistinct(items: seq<Pod>, now: Time)
    requires UniqueIdentities(items)
    ensures DistinctIds(PodsInstances(items, now))
  {
    if items != [] {
      var n := |items| - 1;
      var s := PodsInstances(items[..n], now);
      var tail := PodInstances(items[n], now);
      InstanceIdsDistinct(items[..n], now);
      assert UniqueNames(items[n]);
      ContainerIdsDistinct(items[n], items[n].spec.containers, now);
      forall a, b | 0 <= a < |s| && 0 <= b < |tail| ensures s[a].id != tail[b].id {
        OnlyRunningReported(items[..n], now, s[a]);
        var i, j, k :| 0 <= i < n && PortOf(items[..n][i], items[..n][i].spec.containers, now, s[a], j, k);
        assert items[..n][i] == items[i];
        ContainerInstancesMembers(items[n], items[n].spec.containers, now, tail[b]);
        var j', k' :| PortOf(items[n], items[n].spec.containers, now, tail[b], j', k');
        assert s[a].id.podUid == items[i].metadata.uid != items[n].metadata.uid == tail[b].id.podUid;
      }
      DistinctIdsJoin(s, tail);
    }
  }

  /** The identifier leaves out the protocol, so the uniqueness above needs port
      numbers unique within a container: a running container that declares one
      port number for two protocols (UDP and TCP, say) reports two different
      instances with the same identifier. */
  lemma {:induction false} SharedPortNumberSharesId(items: seq<Pod>, now: Time, i: nat, j: nat, a: nat, b: nat)
    requires i < |items| && j < |items[i].spec.containers|
    requires IsRunning(items[i], items[i].spec.containers[j])
    requires a < |items[i].spec.containers[j].ports| && b < |items[i].spec.containers[j].ports|
    requires items[i].spec.containers[j].ports[a].containerPort == items[i].spec.containers[j].ports[b].containerPort
    requires items[i].spec.containers[j].ports[a].protocol != items[i].spec.containers[j].ports[b].protocol
    ensures !DistinctIds(PodsInstances(items, now))
  {
    var c := items[i].spec.containers[j];
    var s := PodsInstances(items, now);
    var x := NewInstance(items[i], c, c.ports[a], now);
    var y := NewInstance(items[i], c, c.ports[b], now);
    EveryRunningPortReported(items, now, i, j, a);
    EveryRunningPortReported(items, now, i, j, b);
    var p :| 0 <= p < |s| && s[p] == x;
    var q :| 0 <= q < |s| && s[q] == y;
    assert x != y && x.id == y.id;
    if p < q {
      assert s[p].id == s[q].id;
    } else {
      assert s[q].id == s[p].id;
    }
  }
}
