/** The scenarios of the observer's table-driven tests: `load` of a body that
    is not JSON, and `doMap` of an empty snapshot, of two running pods, and of
    the first pod alone with its first container switched to waiting. */
module KubernetesTest {
  import Json
  import opened Results
  import opened Kubelet
  import opened Services
  import opened Kubernetes

  /** The clock value the tests install in place of the wall clock. */
  const FIXED_TIME: Time := 1_500_000_000_000_000_000

  /** The bytes of the string "invalid". */
  const INVALID: seq<Json.byte> := [105, 110, 118, 97, 108, 105, 100]

  /** `load` fails on a body that is not JSON, and returns no snapshot. */
  lemma {:induction false} LoadRejectsInvalid()
    ensures Load(INVALID).Err? && Load(INVALID).error.SyntaxError?
  {
    assert Json.SkipWhitespace(INVALID) == INVALID;
    assert Json.ParseValue(INVALID).Stuck?;
  }

  // ---------------------------------------------------------------------
  // Making a container non-running

  /** Marks a state as waiting: `waiting` is inserted and `running` deleted. */
  function StopRunning(state: map<string, ()>): (r: map<string, ()>)
    ensures WAITING in r && RUNNING !in r
    ensures forall k :: k != WAITING && k != RUNNING ==> (k in r <==> k in state)
  {
    state[WAITING := ()] - {RUNNING}
  }

  /** The snapshot cut down to its first pod, whose first container status is
      marked as waiting; everything else is left as it was. */
  function MakeNonRunning(ps: Pods): (r: Pods)
    requires |ps.items| >= 1 && |ps.items[0].status.containerStatuses| >= 1
    ensures |r.items| == 1
    ensures var p, q := ps.items[0], r.items[0];
            q.metadata == p.metadata && q.spec == p.spec && q.status.podIP == p.status.podIP
            && |q.status.containerStatuses| == |p.status.containerStatuses|
            && q.status.containerStatuses[0] == p.status.containerStatuses[0].(state := StopRunning(p.status.containerStatuses[0].state))
            && forall j :: 1 <= j < |p.status.containerStatuses| ==> q.status.containerStatuses[j] == p.status.containerStatuses[j]
  {
    var p := ps.items[0];
    var ss := p.status.containerStatuses;
    var st := ss[0].(state := StopRunning(ss[0].state));
    Pods([p.(status := p.status.(containerStatuses := ss[0 := st]))])
  }

  /** Looking a name up in statuses that differ only in the first state. */
  lemma {:induction false} FindStatusAfterStop(ss: seq<ContainerStatus>, ss': seq<ContainerStatus>, name: string)
    requires |ss| >= 1 && |ss'| == |ss| && ss'[1..] == ss[1..] && ss'[0].name == ss[0].name
    ensures name == ss[0].name ==> FindStatus(ss', name) == Some(ss'[0])
    ensures name != ss[0].name ==> FindStatus(ss', name) == FindStatus(ss, name)
  {
  }

  /** With its first status marked as waiting, the first pod alone maps to
      nothing, as long as that status describes every container of the pod
      that was running; a non-running container is left out, not an error. */
  lemma {:induction false} NonRunningMapsToNothing(ps: Pods, now: Time)
    requires |ps.items| >= 1 && |ps.items[0].status.containerStatuses| >= 1 && HasIdentity(ps.items[0])
    requires var p := ps.items[0];
             forall j :: 0 <= j < |p.spec.containers| ==>
               p.spec.containers[j].name == p.status.containerStatuses[0].name || !IsRunning(p, p.spec.containers[j])
    ensures MapPods(MakeNonRunning(ps), now) == Ok([])
  {
    var p := ps.items[0];
    var r := MakeNonRunning(ps);
    var q := r.items[0];
    var ss, ss' := p.status.containerStatuses, q.status.containerStatuses;
    assert ss'[1..] == ss[1..];
    forall j | 0 <= j < |q.spec.containers| ensures !IsRunning(q, q.spec.containers[j]) {
      var c := q.spec.containers[j];
      FindStatusAfterStop(ss, ss', c.name);
      if c.name != ss[0].name {
        assert !IsRunning(p, p.spec.containers[j]);
      }
    }
    NoRunningContainerNoInstances(q, now);
    assert HasIdentity(r.items[0]);
    assert PodsInstances(r.items, now) == PodsInstances([], now) + PodInstances(q, now);
  }

  // ---------------------------------------------------------------------
  // Fixtures

  function ShopPod(name: string, uid: string, app: string, container: string, ip: string, port: Port): Pod {
    Pod(Metadata(name, "default", uid, map["app" := app]),
        PodSpec([Container(container, [port])]),
        PodStatus(ip, [ContainerStatus(container, map[RUNNING := ()], true, 0)]))
  }

  function RedisPod(): Pod {
    ShopPod("redis-0", "2f0b5e6a", "cache", "redis", "10.2.0.4", Port("", 6379, "TCP"))
  }

  function NginxPod(): Pod {
    ShopPod("nginx-0", "9c41d7e3", "web", "nginx", "10.2.0.5", Port("http", 80, "TCP"))
  }

  /** Two pods, each with one running container exposing one port. */
  function RunningPods(): Pods {
    Pods([RedisPod(), NginxPod()])
  }

  /** The two instances the running pods are discovered as. */
  function ExpectedInstances(): ServiceInstances {
    [ServiceInstance(InstanceId("2f0b5e6a", "redis", 6379), "10.2.0.4", 6379, "TCP", "",
                     map["app" := "cache", POD_NAME_DIMENSION := "redis-0", NAMESPACE_DIMENSION := "default",
                         CONTAINER_NAME_DIMENSION := "redis"], FIXED_TIME),
     ServiceInstance(InstanceId("9c41d7e3", "nginx", 80), "10.2.0.5", 80, "TCP", "http",
                     map["app" := "web", POD_NAME_DIMENSION := "nginx-0", NAMESPACE_DIMENSION := "default",
                         CONTAINER_NAME_DIMENSION := "nginx"], FIXED_TIME)]
  }

  lemma {:induction false} ShopPodOk(name: string, uid: string, app: string, container: string, ip: string, port: Port)
    requires name != [] && container != [] && IsInt32(port.containerPort)
    requires Json.IsText(name) && Json.IsText(uid) && Json.IsText(app) && Json.IsText(container) && Json.IsText(ip)
    requires Json.IsText(port.name) && Json.IsText(port.protocol)
    ensures PodOk(ShopPod(name, uid, app, container, ip, port))
  {
    var p := ShopPod(name, uid, app, container, ip, port);
    assert Json.IsText("default") && Json.IsText("app") && Json.IsText(RUNNING);
    assert PortOk(port) && ContainerOk(p.spec.containers[0]) && StatusOk(p.status.containerStatuses[0]);
  }

  lemma {:induction false} RedisPodOk()
    ensures PodOk(RedisPod())
  {
    assert Json.IsText("redis-0") && Json.IsText("2f0b5e6a") && Json.IsText("cache") && Json.IsText("redis");
    assert Json.IsText("10.2.0.4") && Json.IsText("TCP") && Json.IsText("");
    ShopPodOk("redis-0", "2f0b5e6a", "cache", "redis", "10.2.0.4", Port("", 6379, "TCP"));
  }

  lemma {:induction false} NginxPodOk()
    ensures PodOk(NginxPod())
  {
    assert Json.IsText("nginx-0") && Json.IsText("9c41d7e3") && Json.IsText("web") && Json.IsText("nginx");
    assert Json.IsText("10.2.0.5") && Json.IsText("http") && Json.IsText("TCP");
    ShopPodOk("nginx-0", "9c41d7e3", "web", "nginx", "10.2.0.5", Port("http", 80, "TCP"));
  }

  /** The test document's pods are well formed, so `load` of their serialized
      document succeeds and gives them back. */
  lemma {:induction false} FixtureLoads()
    ensures Json.Writable(EncodePods(RunningPods()))
    ensures Load(Json.Serialize(EncodePods(RunningPods()))) == Ok(RunningPods())
  {
    var ps := RunningPods();
    RedisPodOk();
    NginxPodOk();
    forall i | 0 <= i < |ps.items| ensures PodOk(ps.items[i]) {
      assert i == 0 || i == 1;
    }
    LoadRoundTrip(ps);
  }

  /** The table of the load test: the body that is not JSON fails, the document succeeds. */
  method TestLoad() {
    var got := Load(INVALID);
    LoadRejectsInvalid();
    assert got.Err?;
    FixtureLoads();
    ghost var loaded := Load(Json.Serialize(EncodePods(RunningPods())));
    assert loaded == Ok(RunningPods());
  }

  /** An empty snapshot maps to no instances and no error, whatever was known before. */
  lemma {:induction false} ZeroInstances(now: Time)
    ensures MapPods(Pods([]), now) == Ok([])
  {
  }

  /** A fixture pod is discovered as one instance, for its one port. */
  lemma {:induction false} ShopPodInstances(name: string, uid: string, app: string, container: string, ip: string, port: Port, now: Time)
    ensures PodInstances(ShopPod(name, uid, app, container, ip, port), now) ==
            [ServiceInstance(InstanceId(uid, container, port.containerPort), ip, port.containerPort, port.protocol, port.name,
                             map["app" := app, POD_NAME_DIMENSION := name, NAMESPACE_DIMENSION := "default",
                                 CONTAINER_NAME_DIMENSION := container], now)]
  {
    var pod := ShopPod(name, uid, app, container, ip, port);
    var c := pod.spec.containers[0];
    assert IsRunning(pod, c);
    assert PortInstances(pod, c, c.ports, now) == [NewInstance(pod, c, port, now)];
    var cs := pod.spec.containers;
    assert cs[..0] == [] && |cs| - 1 == 0 && cs[|cs| - 1] == c;
    assert ContainerInstances(pod, cs[..0], now) == [];
    assert ContainerInstances(pod, cs, now) == ContainerInstances(pod, cs[..0], now) + PortInstances(pod, c, c.ports, now);
    assert Dimensions(pod, c) == map["app" := app, POD_NAME_DIMENSION := name, NAMESPACE_DIMENSION := "default",
                                     CONTAINER_NAME_DIMENSION := container];
  }

  lemma {:induction false} RedisPodInstances()
    ensures PodInstances(RedisPod(), FIXED_TIME) == [ExpectedInstances()[0]]
  {
    ShopPodInstances("redis-0", "2f0b5e6a", "cache", "redis", "10.2.0.4", Port("", 6379, "TCP"), FIXED_TIME);
  }

  lemma {:induction false} NginxPodInstances()
    ensures PodInstances(NginxPod(), FIXED_TIME) == [ExpectedInstances()[1]]
  {
    ShopPodInstances("nginx-0", "9c41d7e3", "web", "nginx", "10.2.0.5", Port("http", 80, "TCP"), FIXED_TIME);
  }

  /** The two running pods map to exactly the two expected instances, in order,
      with distinct identifiers, discovered at the fixed time. */
  lemma {:induction false} TwoRunningPods()
    ensures MapPods(RunningPods(), FIXED_TIME) == Ok(ExpectedInstances())
    ensures DistinctIds(ExpectedInstances())
  {
    var items := RunningPods().items;
    var e := ExpectedInstances();
    RedisPodInstances();
    NginxPodInstances();
    PodsInstancesPair(items[0], items[1], FIXED_TIME);
    assert items == [items[0], items[1]];
    assert e == [e[0]] + [e[1]];
    forall i | 0 <= i < |items| ensures HasIdentity(items[i]) {
      assert i == 0 || i == 1;
    }
    assert MapPods(RunningPods(), FIXED_TIME) == Ok(PodsInstances(items, FIXED_TIME));
  }

  /** Two pods contribute their instances one after the other. */
  lemma {:induction false} PodsInstancesPair(a: Pod, b: Pod, now: Time)
    ensures PodsInstances([a, b], now) == PodInstances(a, now) + PodInstances(b, now)
  {
    var items := [a, b];
    assert items[..1] == [a] && items[..1][..0] == [];
    assert PodsInstances([a], now) == PodsInstances([], now) + PodInstances(a, now);
  }

  /** The fixture's first pod, with its container switched to waiting, maps to nothing. */
  lemma {:induction false} NonRunningFixture()
    ensures MapPods(MakeNonRunning(RunningPods()), FIXED_TIME) == Ok([])
  {
    NonRunningMapsToNothing(RunningPods(), FIXED_TIME);
  }

  /** The table of the doMap test: no row reports an error. */
  method TestDoMap() {
    var got := DoMap([], Pods([]), FIXED_TIME);
    assert got == Ok([]);
    got := DoMap([], RunningPods(), FIXED_TIME);
    TwoRunningPods();
    assert got == Ok(ExpectedInstances());
    got := DoMap([], MakeNonRunning(RunningPods()), FIXED_TIME);
    NonRunningFixture();
    assert got == Ok([]);
  }
}
