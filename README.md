# Kubernetes observer: pod snapshot decoding and instance mapping

A verified Dafny model of the kubernetes service-discovery observer of the
signalfx agent. The observer polls the kubelet for its pod list. It does two things with the result:

- `load` decodes the raw bytes of the kubelet's pod-list JSON document into a
  `pods` snapshot, or fails with an error and no snapshot;
- `Kubernetes.doMap` turns a snapshot into the collection of service
  instances the observer reports. It yields one instance per declared port of every
  running container, in pod, then container, then port order. Each instance carries
  an identifier made of the pod UID, the container name and the port. Its dimensions
  are the pod labels, overridden by the reserved pod name, namespace and container
  name dimensions. Its discovery time comes from an injected clock.

The only source file in this model is the observer's table-driven test,
`plugins/observers/kubernetes/kubernetes_test.go`. Every behaviour it checks is
modelled and proved:
- `load("invalid")` fails;
- a pod-list document loads (proved for the document this model writes for two
  illustrative pods; the test's fixture files are not part of this model);
- an empty snapshot maps to no instances;
- two running pods map to two instances;
- the first pod alone, with its container status switched from `running` to
  `waiting`, maps to no instances;
- no row is an error.

The test does not settle how `load` and `doMap` work inside. Where it says
nothing, the model makes these decisions:
- decoding follows Go's encoding/json rules for a struct whose fields (`metadata`,
  `spec`, `status`, `podIP`, `containerStatuses`, `ports`, `protocol`, `ready`,
  `restartCount`, ...) and int32 widths are assumptions of this model;
- the previous instances are an input that is not merged into the result;
- the clock is a parameter.

Modules, one per file:

| file | module | contents |
|---|---|---|
| results.dfy | `Results` | `Option`, `Result` (Go's `(value, error)` pair) |
| json.dfy | `Json` | the JSON subset of the document: byte parser, serializer, parse-after-serialize round trip |
| kubelet.dfy | `Kubelet` | the `pods` snapshot (`Pods`, `Pod`, `Metadata`, `PodSpec`, `PodStatus`, `Container`, `Port`, `ContainerStatus` whose `state` is a map from state name to unit), the decoder and `Load`, the encoder, round trips |
| services.dfy | `Services` | `ServiceInstance`, `InstanceId`, `Time` |
| kubernetes.dfy | `Kubernetes` | `doMap`: the specification functions (`MapPods`, `PodsInstances`, ...), the `DoMap`, `MapPod` and `MapPorts` methods with their loops, and the lemmas about the mapping |
| kubernetes_test.dfy | `KubernetesTest` | the test's scenarios: the state edit, the truncated snapshot, fixtures, and `TestLoad`/`TestDoMap` methods that state the test tables against the model |

Decisions where the test does not settle a behaviour:
- A container is running when its status's state map has the key `running`.
  This follows the test, which edits that map by inserting `waiting` and deleting `running`.
  A map without `running` is not running. A map that holds `running` next to another key,
  such as `{running, waiting}`, counts as running; this differs from a rule that the state
  must be exactly `running`. By the Kubernetes `ContainerState` convention exactly one of
  `waiting`, `running` and `terminated` is set. For such single-key maps, "has the `running`
  key" and "is exactly `running`" agree.
- A container's status is the first status entry with the container's name. A container without a status is not running.
- The host of an instance is the pod's IP (`status.podIP`). This is a decision: the test
  configures the kubelet URL as `"unused"`, which suggests the host does not come from that setting.
- An empty pod name or container name is a decode error (`MissingField`). `DoMap` checks
  the same identity defensively and fails with `MissingIdentity` on the first pod that lacks it.
  `LoadedSnapshotMaps` proves this never happens to a snapshot `load` produced. The doMap rows
  are not errors because of `ZeroInstances`, `TwoRunningPods` and `NonRunningFixture`, which
  `TestDoMap` puts together.

## Model

| member | source | states |
|---|---|---|
| `Kubelet.Load` | plugins/observers/kubernetes/kubernetes_test.go:36-45 | Bytes that are not JSON fail with a syntax error at an offset inside the body and give no snapshot. A successful load gives a well-formed snapshot: identity fields present, every string JSON text, every integer within int32. |
| `Kubelet.DecodePods` | plugins/observers/kubernetes/kubernetes_test.go:41 | A successful decoding of a writable pod-list value is a well-formed snapshot. |
| `Kubelet.DecodePod` | plugins/observers/kubernetes/kubernetes_test.go:41 | Every decoded pod has a pod name and non-empty container names. From writable JSON, every field of the pod is well formed. |
| `Kubelet.DecodeContainer` | plugins/observers/kubernetes/kubernetes_test.go:41 | A decoded container has a non-empty name. From writable JSON, its name is text and its ports are well formed. |
| `Kubelet.DecodeMetadata` | plugins/observers/kubernetes/kubernetes_test.go:41 | Decoded metadata has a non-empty pod name. From writable JSON, its strings and labels are JSON text. |
| `Kubelet.DecodeSpec` | plugins/observers/kubernetes/kubernetes_test.go:41 | Every container of a decoded pod spec has a non-empty name. From writable JSON, every container is well formed, its ports included. |
| `Kubelet.DecodePort` | plugins/observers/kubernetes/kubernetes_test.go:41 | From writable JSON, a decoded port is well formed: its name and protocol are text and its number fits in int32. |
| `Kubelet.DecodePodStatus` | plugins/observers/kubernetes/kubernetes_test.go:41 | From writable JSON, a decoded pod status has a text pod IP, and every container status in it is well formed. |
| `Kubelet.DecodeStatus` | plugins/observers/kubernetes/kubernetes_test.go:63 | From writable JSON, a decoded container status is well formed: its name and state keys are text, its restart count fits in int32. |
| `Kubelet.DecodeState` | plugins/observers/kubernetes/kubernetes_test.go:63-65 | The decoded state map's keys are exactly the member names of the `state` object. |
| `Kubelet.DecodeLabels` | plugins/observers/kubernetes/kubernetes_test.go:41 | The decoded label map's keys are exactly the member names of the `labels` object. From writable JSON, every key and value is text. |
| `Kubelet.DecodeLabelsValues` | plugins/observers/kubernetes/kubernetes_test.go:41 | Each decoded label's value is what the last member with that name reads as: its string, or the empty string for `null`. |
| `Kubelet.Member` | plugins/observers/kubernetes/kubernetes_test.go:41 | A member lookup finds nothing exactly when no member has the name. Otherwise it gives the value of the last member with that name. |
| `Kubelet.DecodeAll` | plugins/observers/kubernetes/kubernetes_test.go:41 | A decoded list has one element per JSON item, each the item's decoding. A failure is the failure of the first item that fails: every item before it decodes. |
| `Kubelet.PodsRoundTrip` | plugins/observers/kubernetes/kubernetes_test.go:37 | Decoding the document a well-formed snapshot is written as gives that snapshot back. |
| `Kubelet.LoadRoundTrip` | plugins/observers/kubernetes/kubernetes_test.go:37-49 | `load` of the serialized document of any well-formed snapshot succeeds and gives exactly that snapshot. |
| `Kubelet.ReloadIsStable` | plugins/observers/kubernetes/kubernetes_test.go:41-49 | Load, re-encode, then load again: the second load gives the same snapshot as the first. |
| `Json.ParseDocument` | plugins/observers/kubernetes/kubernetes_test.go:41-44 | A parsed document consumes the whole body and is writable back as JSON. |
| `Json.DocumentRoundTrip` | plugins/observers/kubernetes/kubernetes_test.go:37 | The parser reads back every document the serializer writes. |
| `Kubernetes.DoMap` | plugins/observers/kubernetes/kubernetes_test.go:100-108 | The loop over pods, containers and ports returns exactly the specification `MapPods` of the snapshot and the clock value. The previous instances have no influence on the result. |
| `Kubernetes.MapPod` | plugins/observers/kubernetes/kubernetes_test.go:100 | The loop over one pod's containers gives exactly that pod's instances: the ports of each running container, containers in declaration order. |
| `Kubernetes.MapPorts` | plugins/observers/kubernetes/kubernetes_test.go:94 | The loop over a running container's ports gives one instance per declared port, in declaration order. |
| `Kubernetes.FindStatus` | plugins/observers/kubernetes/kubernetes_test.go:63 | Finds nothing exactly when no status has the container's name. Otherwise it gives the first status with that name. |
| `Kubernetes.Dimensions` | plugins/observers/kubernetes/kubernetes_test.go:59 | The dimension keys are the pod labels plus the three reserved names. The reserved dimensions are the pod name, namespace and container name. Every other label is copied verbatim. |
| `Kubernetes.ContainerInstancesMembers` | plugins/observers/kubernetes/kubernetes_test.go:61-65 | An instance is in a pod's result if and only if it is the instance of a declared port of a running container of that pod. |
| `Kubernetes.PodsInstancesMembers` | plugins/observers/kubernetes/kubernetes_test.go:94 | An instance is in the snapshot's result if and only if it is in the result of one of its pods. |
| `Kubernetes.OnlyRunningReported` | plugins/observers/kubernetes/kubernetes_test.go:61-69 | Every reported instance is a declared port of a container whose status has the `running` key. It is stamped with the injected clock value. |
| `Kubernetes.EveryRunningPortReported` | plugins/observers/kubernetes/kubernetes_test.go:94 | Every declared port of every running container is reported. |
| `Kubernetes.NoRunningContainerNoInstances` | plugins/observers/kubernetes/kubernetes_test.go:95 | A pod with no running container contributes no instances. It is filtered out, not an error. |
| `Kubernetes.PodsInstancesAppend` | plugins/observers/kubernetes/kubernetes_test.go:94 | Pods contribute in snapshot order: mapping two runs of pods gives the two results one after the other. |
| `Kubernetes.ClockOnlyStamps` | plugins/observers/kubernetes/kubernetes_test.go:67-69 | Mapping the same snapshot at another clock value gives the same instances with only the discovery time changed. With the clock fixed, the output is determined by the snapshot alone. |
| `Kubernetes.LoadedSnapshotMaps` | plugins/observers/kubernetes/kubernetes_test.go:93-104 | Mapping any snapshot `load` produced succeeds with its instances, so the mapping error never occurs after a successful load. |
| `Kubernetes.InstanceIdsDistinct` | plugins/observers/kubernetes/kubernetes_test.go:94 | If pod IDs are unique, container names are unique within each pod and port numbers are unique within each container, then no two reported instances share an identifier. |
| `Kubernetes.SharedPortNumberSharesId` | plugins/observers/kubernetes/kubernetes_test.go:94 | A running container that declares the same port number for two protocols gives two different instances with the same identifier. So the instances of a running container can share an identifier when two of its ports share a number. |
| `KubernetesTest.LoadRejectsInvalid` | plugins/observers/kubernetes/kubernetes_test.go:36 | `load` of the bytes `invalid` fails with a syntax error. |
| `KubernetesTest.FixtureLoads` | plugins/observers/kubernetes/kubernetes_test.go:37 | The serialized document of the illustrative pods loads back as exactly those pods. |
| `KubernetesTest.StopRunning` | plugins/observers/kubernetes/kubernetes_test.go:63-65 | After inserting `waiting` and deleting `running`, the state has `waiting`, lacks `running`, and keeps every other key as it was. |
| `KubernetesTest.MakeNonRunning` | plugins/observers/kubernetes/kubernetes_test.go:61-65 | The snapshot is cut to its first pod. That pod's first container status has its state switched to waiting. Nothing else changes. |
| `KubernetesTest.NonRunningMapsToNothing` | plugins/observers/kubernetes/kubernetes_test.go:61-65 | Suppose the first container status describes every running container of the first pod. Then the edited one-pod snapshot maps to no instances and no error. |
| `KubernetesTest.ZeroInstances` | plugins/observers/kubernetes/kubernetes_test.go:93 | An empty snapshot maps to no instances and no error. |
| `KubernetesTest.TwoRunningPods` | plugins/observers/kubernetes/kubernetes_test.go:94 | Two running pods map to exactly the two expected instances, in order. The instances have distinct identifiers and are stamped with the fixed time. |
| `KubernetesTest.NonRunningFixture` | plugins/observers/kubernetes/kubernetes_test.go:95 | The illustrative pods, cut to one pod with its container switched to waiting, map to no instances and no error. |

## Left out

- Fixture files: the contents of `testdata/pods.json`, `pods-loaded.json` and `2-discovered.json` are not part of this model. The pods in `KubernetesTest` are illustrative. So are the field values of the expected instances and the value of `FIXED_TIME`.
- File reading (`ioutil.ReadFile`, `neotest.LoadJSON`), `reflect.DeepEqual` and `pretty.Ldiff` are left out. Dafny equality stands in for the deep comparison. A nil Go slice is modelled as the empty sequence, and a nil Go map as the empty map.
- `KubernetesTest.MakeNonRunning`: its precondition matches the test's index panics on an empty pod list or status list. It does not model the nil-map write panic of the test's state edit when the first status has no `state` member, because that status decodes to the empty map and nil and empty maps are not distinguished.
- Plugin construction (`NewKubernetes`, the viper `hosturl` setting, `plugins.Plugin`) is left out. It is configuration plumbing. In this model the host is the pod IP, so it does not depend on that setting.
- Kubelet HTTP polling and publishing the instances downstream are left out. They are I/O outside the core.
- The real `time.Now` and the swapping of the package-level `now` are left out. The clock is the `now` parameter, in nanoseconds. The model reads the clock once per `doMap` call, so every instance of one call gets the same time; the test does not settle whether the clock is read once per call or once per instance.
- `Kubelet.Load`: the JSON rules model Go's encoding/json for an assumed struct, not the body of `load`, which is not part of this model. The struct's field set (`podIP`, `protocol`, `ready`, `restartCount`, ...) and its int32 widths are assumptions. A repeated member name keeps only its last value. Go differs in three cases. A repeat whose value is `null` leaves Go's earlier value in place, for scalar fields too: the model decodes `containerPort` repeated as `80` then `null` to 0, and a `name` repeated as `"a"` then `null` to a missing-name error. A repeated object-valued member (`metadata`, `spec`, `status`, `labels`, `state`) is merged by Go into the value already decoded. A repeated array of objects (`items`, `containers`, `ports`, `containerStatuses`) is decoded by Go into the elements already in the slice. So a document that repeats any member name can decode differently, or fail, in the model. The JSON subset has no `\u` escapes, no fractions or exponents, and no UTF-8 decoding: each byte is one character. Member names match case-sensitively, while Go also accepts other letter cases. Error values do not reproduce Go's messages or its exact syntax-error offsets.
- `Kubernetes.DoMap`: the test does not show the textual format of instance identifiers, so an identifier is the structured triple (pod UID, container name, port). The names of the reserved dimensions are assumptions. The fields of the instance record are a decision of this model; the services package is not part of this model.
- `Kubernetes.InstanceIdsDistinct`: identifiers are not unique when a container declares one port number for two protocols, as a DNS server does with port 53 over UDP and TCP. The identifier is (pod UID, container name, port) with no protocol, so the two instances collide (`SharedPortNumberSharesId`). The lemma therefore requires port numbers to be unique within each container.
- `Kubernetes.DoMap`: the previous instances are accepted and not merged into the result. No reconciliation across poll cycles, such as keeping earlier discovery times, is modelled.
- The `ready` flag and the restart count are decoded but play no part in the mapping.
