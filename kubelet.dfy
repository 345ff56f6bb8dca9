/** The kubelet's pod-list document (the `pods` type of the kubernetes observer)
    and `load`, which decodes the raw bytes of that document into it.

    Decoding follows the rules of Go's encoding/json for the struct this model
    assumes (its fields and the int32 widths are assumptions): members that are
    absent or `null` leave the zero value (empty string, zero, false, empty
    sequence, empty map), unknown members are ignored, a repeated member name
    takes its last value (Go agrees only for a scalar field whose repeat is not
    `null`: a `null` repeat leaves Go's earlier value, and Go merges a repeated
    object, or array of objects, into what it already decoded), a value of the wrong JSON type and
    an integer outside int32 are errors. The identity fields (pod
    name, container name) are required. No partial snapshot is ever returned. */
module Kubelet {
  import Json
  import opened Results

  const INT32_MIN: int := -0x8000_0000
  const INT32_MAX: int := 0x7fff_ffff

  predicate IsInt32(n: int) {
    INT32_MIN <= n <= INT32_MAX
  }

  /** The state-name keys of a container status. */
  const RUNNING: string := "running"
  const WAITING: string := "waiting"

  // ---------------------------------------------------------------------
  // The snapshot, mirroring the document's nesting

  datatype Port = Port(name: string, containerPort: int, protocol: string)

  datatype Container = Container(name: string, ports: seq<Port>)

  /** `state` holds the names of the state the container is in, the
      orchestrator's `{"running": {...}}` encoding with the details dropped. */
  datatype ContainerStatus = ContainerStatus(name: string, state: map<string, ()>, ready: bool, restartCount: int)

  datatype Metadata = Metadata(name: string, namespace: string, uid: string, labels: map<string, string>)

  datatype PodSpec = PodSpec(containers: seq<Container>)

  datatype PodStatus = PodStatus(podIP: string, containerStatuses: seq<ContainerStatus>)

  datatype Pod = Pod(metadata: Metadata, spec: PodSpec, status: PodStatus)

  datatype Pods = Pods(items: seq<Pod>)

  datatype DecodeError =
    | SyntaxError(offset: nat)      // the byte offset at which the document stops being JSON
    | TypeError(field: string)      // a member holds a value of the wrong JSON type
    | RangeError(field: string)     // an integer member does not fit in int32
    | MissingField(field: string)   // a required identity field is absent or empty

  // ---------------------------------------------------------------------
  // What a decoded snapshot always satisfies

  /** The identity fields the observer needs: a pod name and container names. */
  predicate HasIdentity(p: Pod) {
    p.metadata.name != [] && forall j :: 0 <= j < |p.spec.containers| ==> p.spec.containers[j].name != []
  }

  predicate PortOk(p: Port) {
    Json.IsText(p.name) && Json.IsText(p.protocol) && IsInt32(p.containerPort)
  }

  predicate ContainerOk(c: Container) {
    Json.IsText(c.name) && c.name != [] && forall k :: 0 <= k < |c.ports| ==> PortOk(c.ports[k])
  }

  predicate StatusOk(s: ContainerStatus) {
    Json.IsText(s.name) && IsInt32(s.restartCount) && forall k :: k in s.state ==> Json.IsText(k)
  }

  predicate MetadataOk(m: Metadata) {
    Json.IsText(m.name) && m.name != [] && Json.IsText(m.namespace) && Json.IsText(m.uid)
    && forall k :: k in m.labels ==> Json.IsText(k) && Json.IsText(m.labels[k])
  }

  predicate PodOk(p: Pod) {
    MetadataOk(p.metadata)
    && (forall j :: 0 <= j < |p.spec.containers| ==> ContainerOk(p.spec.containers[j]))
    && Json.IsText(p.status.podIP)
    && (forall j :: 0 <= j < |p.status.containerStatuses| ==> StatusOk(p.status.containerStatuses[j]))
  }

  /** A snapshot `load` can produce: identity fields present, every string
      writable as JSON text, every integer within int32. */
  predicate WellFormed(ps: Pods) {
    forall i :: 0 <= i < |ps.items| ==> PodOk(ps.items[i])
  }

  lemma {:induction false} WellFormedHasIdentity(ps: Pods, i: nat)
    requires WellFormed(ps) && i < |ps.items|
    ensures HasIdentity(ps.items[i])
  {
    var p := ps.items[i];
    assert PodOk(p);
    forall j | 0 <= j < |p.spec.containers| ensures p.spec.containers[j].name != [] {
      assert ContainerOk(p.spec.containers[j]);
    }
  }

  // ---------------------------------------------------------------------
  // Reading members of a JSON object

  /** The value of the LAST member called `key`, as Go's decoder keeps the last one
      for a scalar field whose repeat is not `null`. */
  function Member(ms: seq<(string, Json.Value)>, key: string): (r: Option<Json.Value>)
    ensures r.None? <==> forall i :: 0 <= i < |ms| ==> ms[i].0 != key
    ensures r.Some? ==> exists i :: 0 <= i < |ms| && ms[i] == (key, r.value) && forall j :: i < j < |ms| ==> ms[j].0 != key
  {
    if ms == [] then None
    else if ms[|ms| - 1].0 == key then Some(ms[|ms| - 1].1)
    else Member(ms[..|ms| - 1], key)
  }

  /** The member names of an object. */
  function Names(ms: seq<(string, Json.Value)>): set<string> {
    if ms == [] then {} else Names(ms[..|ms| - 1]) + {ms[|ms| - 1].0}
  }

  lemma {:induction false} NamesIn(ms: seq<(string, Json.Value)>, key: string)
    ensures key in Names(ms) <==> exists i :: 0 <= i < |ms| && ms[i].0 == key
  {
    if ms != [] {
      var n := |ms| - 1;
      NamesIn(ms[..n], key);
      if key in Names(ms[..n]) {
        var i :| 0 <= i < n && ms[..n][i].0 == key;
        assert ms[i].0 == key;
      }
      if exists i :: 0 <= i < |ms| && ms[i].0 == key {
        var i :| 0 <= i < |ms| && ms[i].0 == key;
        if i < n { assert ms[..n][i].0 == key; }
      }
    }
  }

  /** Looking up a member whose name occurs exactly once. */
  lemma {:induction false} MemberUnique(ms: seq<(string, Json.Value)>, key: string, j: nat)
    requires j < |ms| && ms[j].0 == key
    requires forall i :: 0 <= i < |ms| && i != j ==> ms[i].0 != key
    ensures Member(ms, key) == Some(ms[j].1)
  {
  }

  /** A field that is absent, or present with a writable value. */
  predicate WritableField(f: Option<Json.Value>) {
    f.Some? ==> Json.Writable(f.value)
  }

  /** A member of a writable object is writable. */
  lemma {:induction false} MemberWritable(ms: seq<(string, Json.Value)>, key: string)
    ensures Json.Writable(Json.Object(ms)) ==> WritableField(Member(ms, key))
  {
  }

  function AsString(f: Option<Json.Value>, field: string): (r: Result<string, DecodeError>)
    ensures r.Ok? && WritableField(f) ==> Json.IsText(r.value)
  {
    match f
    case None => Ok([])
    case Some(Null) => Ok([])
    case Some(Str(s)) => Ok(s)
    case Some(_) => Err(TypeError(field))
  }

  function AsInt32(f: Option<Json.Value>, field: string): (r: Result<int, DecodeError>)
    ensures r.Ok? ==> IsInt32(r.value)
  {
    match f
    case None => Ok(0)
    case Some(Null) => Ok(0)
    case Some(Number(n)) => if IsInt32(n) then Ok(n) else Err(RangeError(field))
    case Some(_) => Err(TypeError(field))
  }

  function AsBool(f: Option<Json.Value>, field: string): Result<bool, DecodeError> {
    match f
    case None => Ok(false)
    case Some(Null) => Ok(false)
    case Some(Bool(b)) => Ok(b)
    case Some(_) => Err(TypeError(field))
  }

  /** The members of an object-valued field; absent or `null` reads as no members. */
  function AsObject(f: Option<Json.Value>, field: string): (r: Result<seq<(string, Json.Value)>, DecodeError>)
    ensures r.Ok? && WritableField(f) ==> Json.Writable(Json.Object(r.value))
  {
    match f
    case None => Ok([])
    case Some(Null) => Ok([])
    case Some(Object(ms)) => Ok(ms)
    case Some(_) => Err(TypeError(field))
  }

  /** The items of an array-valued field; absent or `null` reads as no items. */
  function AsArray(f: Option<Json.Value>, field: string): (r: Result<seq<Json.Value>, DecodeError>)
    ensures r.Ok? && WritableField(f) ==> forall i :: 0 <= i < |r.value| ==> Json.Writable(r.value[i])
  {
    match f
    case None => Ok([])
    case Some(Null) => Ok([])
    case Some(Array(vs)) => Ok(vs)
    case Some(_) => Err(TypeError(field))
  }

  /** Decodes every item with `dec`, failing with the first item's error. */
  function DecodeAll<T>(vs: seq<Json.Value>, dec: Json.Value -> Result<T, DecodeError>): (r: Result<seq<T>, DecodeError>)
    ensures r.Ok? ==> |r.value| == |vs| && forall i :: 0 <= i < |vs| ==> dec(vs[i]) == Ok(r.value[i])
    ensures r.Err? ==> exists i :: 0 <= i < |vs| && dec(vs[i]) == Err(r.error) && forall j :: 0 <= j < i ==> dec(vs[j]).Ok?
  {
    if vs == [] then Ok([])
    else
      match DecodeAll(vs[..|vs| - 1], dec)
      case Err(e) => Err(e)
      case Ok(xs) =>
        match dec(vs[|vs| - 1])
        case Err(e) => Err(e)
        case Ok(x) => Ok(xs + [x])
  }

  // ---------------------------------------------------------------------
  // The decoder, one function per struct of the document. `XFields` reads
  // a struct from the values of its members (each absent or present) in
  // field order; `DecodeX` looks those members up in the struct's object.

  function PortFields(name: Option<Json.Value>, containerPort: Option<Json.Value>, protocol: Option<Json.Value>): (r: Result<Port, DecodeError>)
    ensures r.Ok? && WritableField(name) && WritableField(protocol) ==> PortOk(r.value)
  {
    match AsString(name, "name")
    case Err(e) => Err(e)
    case Ok(n) =>
      match AsInt32(containerPort, "containerPort")
      case Err(e) => Err(e)
      case Ok(k) =>
        match AsString(protocol, "protocol")
        case Err(e) => Err(e)
        case Ok(proto) => Ok(Port(n, k, proto))
  }

  function DecodePort(v: Json.Value): (r: Result<Port, DecodeError>)
    ensures r.Ok? && Json.Writable(v) ==> PortOk(r.value)
  {
    match AsObject(Some(v), "ports")
    case Err(e) => Err(e)
    case Ok(ms) =>
      MemberWritable(ms, "name");
      MemberWritable(ms, "protocol");
      PortFields(Member(ms, "name"), Member(ms, "containerPort"), Member(ms, "protocol"))
  }

  function ContainerFields(name: Option<Json.Value>, ports: Option<Json.Value>): (r: Result<Container, DecodeError>)
    ensures r.Ok? ==> r.value.name != []
    ensures r.Ok? && WritableField(name) && WritableField(ports) ==> ContainerOk(r.value)
  {
    match AsString(name, "name")
    case Err(e) => Err(e)
    case Ok(n) =>
      if n == [] then Err(MissingField("name"))
      else
        match AsArray(ports, "ports")
        case Err(e) => Err(e)
        case Ok(vs) =>
          match DecodeAll(vs, DecodePort)
          case Err(e) => Err(e)
          case Ok(ps) => Ok(Container(n, ps))
  }

  function DecodeContainer(v: Json.Value): (r: Result<Container, DecodeError>)
    ensures r.Ok? ==> r.value.name != []
    ensures r.Ok? && Json.Writable(v) ==> ContainerOk(r.value)
  {
    match AsObject(Some(v), "containers")
    case Err(e) => Err(e)
    case Ok(ms) =>
      MemberWritable(ms, "name");
      MemberWritable(ms, "ports");
      ContainerFields(Member(ms, "name"), Member(ms, "ports"))
  }

  /** The state object: each member name is a state; its details must be an object (or null). */
  function DecodeState(ms: seq<(string, Json.Value)>): (r: Result<map<string, ()>, DecodeError>)
    ensures r.Ok? ==> r.value.Keys == Names(ms)
    ensures r.Ok? && Json.Writable(Json.Object(ms)) ==> forall k :: k in r.value ==> Json.IsText(k)
  {
    if ms == [] then Ok(map[])
    else
      match DecodeState(ms[..|ms| - 1])
      case Err(e) => Err(e)
      case Ok(m) =>
        match AsObject(Some(ms[|ms| - 1].1), "state")
        case Err(e) => Err(e)
        case Ok(_) => Ok(m[ms[|ms| - 1].0 := ()])
  }

  function StatusFields(name: Option<Json.Value>, state: Option<Json.Value>, ready: Option<Json.Value>, restartCount: Option<Json.Value>): (r: Result<ContainerStatus, DecodeError>)
    ensures r.Ok? && WritableField(name) && WritableField(state) ==> StatusOk(r.value)
  {
    match AsString(name, "name")
    case Err(e) => Err(e)
    case Ok(n) =>
      match AsObject(state, "state")
      case Err(e) => Err(e)
      case Ok(sms) =>
        match DecodeState(sms)
        case Err(e) => Err(e)
        case Ok(st) =>
          match AsBool(ready, "ready")
          case Err(e) => Err(e)
          case Ok(b) =>
            match AsInt32(restartCount, "restartCount")
            case Err(e) => Err(e)
            case Ok(k) => Ok(ContainerStatus(n, st, b, k))
  }

  function DecodeStatus(v: Json.Value): (r: Result<ContainerStatus, DecodeError>)
    ensures r.Ok? && Json.Writable(v) ==> StatusOk(r.value)
  {
    match AsObject(Some(v), "containerStatuses")
    case Err(e) => Err(e)
    case Ok(ms) =>
      MemberWritable(ms, "name");
      MemberWritable(ms, "state");
      StatusFields(Member(ms, "name"), Member(ms, "state"), Member(ms, "ready"), Member(ms, "restartCount"))
  }

  /** The labels object; a repeated label name keeps its last value. */
  function DecodeLabels(ms: seq<(string, Json.Value)>): (r: Result<map<string, string>, DecodeError>)
    ensures r.Ok? ==> r.value.Keys == Names(ms)
    ensures r.Ok? && Json.Writable(Json.Object(ms)) ==> forall k :: k in r.value ==> Json.IsText(k) && Json.IsText(r.value[k])
  {
    if ms == [] then Ok(map[])
    else
      match DecodeLabels(ms[..|ms| - 1])
      case Err(e) => Err(e)
      case Ok(m) =>
        match AsString(Some(ms[|ms| - 1].1), "labels")
        case Err(e) => Err(e)
        case Ok(s) => Ok(m[ms[|ms| - 1].0 := s])
  }

  /** Each decoded label has the value the last member with its name reads as
      (a `null` value reads as the empty string). */
  lemma {:induction false} DecodeLabelsValues(ms: seq<(string, Json.Value)>)
    requires DecodeLabels(ms).Ok?
    ensures forall k :: k in DecodeLabels(ms).value ==> AsString(Member(ms, k), "labels") == Ok(DecodeLabels(ms).value[k])
  {
    if ms != [] {
      DecodeLabelsValues(ms[..|ms| - 1]);
    }
  }

  function MetadataFields(name: Option<Json.Value>, namespace: Option<Json.Value>, uid: Option<Json.Value>, labels: Option<Json.Value>): (r: Result<Metadata, DecodeError>)
    ensures r.Ok? ==> r.value.name != []
    ensures r.Ok? && WritableField(name) && WritableField(namespace) && WritableField(uid) && WritableField(labels) ==> MetadataOk(r.value)
  {
    match AsString(name, "name")
    case Err(e) => Err(e)
    case Ok(n) =>
      if n == [] then Err(MissingField("name"))
      else
        match AsString(namespace, "namespace")
        case Err(e) => Err(e)
        case Ok(ns) =>
          match AsString(uid, "uid")
          case Err(e) => Err(e)
          case Ok(u) =>
            match AsObject(labels, "labels")
            case Err(e) => Err(e)
            case Ok(lms) =>
              match DecodeLabels(lms)
              case Err(e) => Err(e)
              case Ok(ls) => Ok(Metadata(n, ns, u, ls))
  }

  function DecodeMetadata(f: Option<Json.Value>): (r: Result<Metadata, DecodeError>)
    ensures r.Ok? ==> r.value.name != []
    ensures r.Ok? && WritableField(f) ==> MetadataOk(r.value)
  {
    match AsObject(f, "metadata")
    case Err(e) => Err(e)
    case Ok(ms) =>
      MemberWritable(ms, "name");
      MemberWritable(ms, "namespace");
      MemberWritable(ms, "uid");
      MemberWritable(ms, "labels");
      MetadataFields(Member(ms, "name"), Member(ms, "namespace"), Member(ms, "uid"), Member(ms, "labels"))
  }

  function SpecFields(containers: Option<Json.Value>): (r: Result<PodSpec, DecodeError>)
    ensures r.Ok? ==> forall j :: 0 <= j < |r.value.containers| ==> r.value.containers[j].name != []
    ensures r.Ok? && WritableField(containers) ==>
              forall j :: 0 <= j < |r.value.containers| ==> ContainerOk(r.value.containers[j])
  {
    match AsArray(containers, "containers")
    case Err(e) => Err(e)
    case Ok(vs) =>
      match DecodeAll(vs, DecodeContainer)
      case Err(e) => Err(e)
      case Ok(cs) => Ok(PodSpec(cs))
  }

  function DecodeSpec(f: Option<Json.Value>): (r: Result<PodSpec, DecodeError>)
    ensures r.Ok? ==> forall j :: 0 <= j < |r.value.containers| ==> r.value.containers[j].name != []
    ensures r.Ok? && WritableField(f) ==>
              forall j :: 0 <= j < |r.value.containers| ==> ContainerOk(r.value.containers[j])
  {
    match AsObject(f, "spec")
    case Err(e) => Err(e)
    case Ok(ms) =>
      MemberWritable(ms, "containers");
      SpecFields(Member(ms, "containers"))
  }

  function PodStatusFields(podIP: Option<Json.Value>, containerStatuses: Option<Json.Value>): (r: Result<PodStatus, DecodeError>)
    ensures r.Ok? && WritableField(podIP) && WritableField(containerStatuses) ==>
              Json.IsText(r.value.podIP) &&
              forall j :: 0 <= j < |r.value.containerStatuses| ==> StatusOk(r.value.containerStatuses[j])
  {
    match AsString(podIP, "podIP")
    case Err(e) => Err(e)
    case Ok(ip) =>
      match AsArray(containerStatuses, "containerStatuses")
      case Err(e) => Err(e)
      case Ok(vs) =>
        match DecodeAll(vs, DecodeStatus)
        case Err(e) => Err(e)
        case Ok(ss) => Ok(PodStatus(ip, ss))
  }

  function DecodePodStatus(f: Option<Json.Value>): (r: Result<PodStatus, DecodeError>)
    ensures r.Ok? && WritableField(f) ==>
              Json.IsText(r.value.podIP) &&
              forall j :: 0 <= j < |r.value.containerStatuses| ==> StatusOk(r.value.containerStatuses[j])
  {
    match AsObject(f, "status")
    case Err(e) => Err(e)
    case Ok(ms) =>
      MemberWritable(ms, "podIP");
      MemberWritable(ms, "containerStatuses");
      PodStatusFields(Member(ms, "podIP"), Member(ms, "containerStatuses"))
  }

  function PodFields(metadata: Option<Json.Value>, spec: Option<Json.Value>, status: Option<Json.Value>): (r: Result<Pod, DecodeError>)
    ensures r.Ok? ==> HasIdentity(r.value)
    ensures r.Ok? && WritableField(metadata) && WritableField(spec) && WritableField(status) ==> PodOk(r.value)
  {
    match DecodeMetadata(metadata)
    case Err(e) => Err(e)
    case Ok(meta) =>
      match DecodeSpec(spec)
      case Err(e) => Err(e)
      case Ok(sp) =>
        match DecodePodStatus(status)
        case Err(e) => Err(e)
        case Ok(st) => Ok(Pod(meta, sp, st))
  }

  function DecodePod(v: Json.Value): (r: Result<Pod, DecodeError>)
    ensures r.Ok? ==> HasIdentity(r.value)
    ensures r.Ok? && Json.Writable(v) ==> PodOk(r.value)
  {
    match AsObject(Some(v), "items")
    case Err(e) => Err(e)
    case Ok(ms) =>
      MemberWritable(ms, "metadata");
      MemberWritable(ms, "spec");
      MemberWritable(ms, "status");
      PodFields(Member(ms, "metadata"), Member(ms, "spec"), Member(ms, "status"))
  }

  function PodsFields(items: Option<Json.Value>): (r: Result<Pods, DecodeError>)
    ensures r.Ok? && WritableField(items) ==> WellFormed(r.value)
  {
    match AsArray(items, "items")
    case Err(e) => Err(e)
    case Ok(vs) =>
      match DecodeAll(vs, DecodePod)
      case Err(e) => Err(e)
      case Ok(ps) => Ok(Pods(ps))
  }

  /** The top-level document: an object whose `items` member lists the pods. */
  function DecodePods(v: Json.Value): (r: Result<Pods, DecodeError>)
    ensures r.Ok? && Json.Writable(v) ==> WellFormed(r.value)
  {
    match AsObject(Some(v), "pods")
    case Err(e) => Err(e)
    case Ok(ms) =>
      MemberWritable(ms, "items");
      PodsFields(Member(ms, "items"))
  }

  /** `load`: the raw body of the kubelet's pod-list endpoint to a snapshot, or an error. */
  function Load(body: seq<Json.byte>): (r: Result<Pods, DecodeError>)
    ensures r.Ok? ==> WellFormed(r.value)
    ensures Json.ParseDocument(body).Stuck? ==> r.Err? && r.error.SyntaxError? && r.error.offset <= |body|
  {
    match Json.ParseDocument(body)
    case Stuck(at) => Err(SyntaxError(|body| - |at|))
    case Parsed(v, _) => DecodePods(v)
  }

  // ---------------------------------------------------------------------
  // The document a snapshot is written as, and the round trip through it

  function EncodeList<T>(xs: seq<T>, enc: T -> Json.Value): (r: seq<Json.Value>)
    ensures |r| == |xs| && forall i :: 0 <= i < |xs| ==> r[i] == enc(xs[i])
  {
    seq(|xs|, i requires 0 <= i < |xs| => enc(xs[i]))
  }

  function EncodePort(p: Port): Json.Value {
    Json.Object([("name", Json.Str(p.name)), ("containerPort", Json.Number(p.containerPort)), ("protocol", Json.Str(p.protocol))])
  }

  function EncodeContainer(c: Container): Json.Value {
    Json.Object([("name", Json.Str(c.name)), ("ports", Json.Array(EncodeList(c.ports, EncodePort)))])
  }

  lemma {:induction false} InitOfSnoc<T>(xs: seq<T>, y: T)
    ensures (xs + [y])[..|xs|] == xs && (xs + [y])[|xs|] == y
  {
  }

  /** The members of a state map, one empty detail object per state name, in some order. */
  ghost function EncodeState(m: map<string, ()>): (r: seq<(string, Json.Value)>)
    ensures Names(r) == m.Keys
    ensures forall i :: 0 <= i < |r| ==> r[i].1 == Json.Object([])
    decreases |m|
  {
    if m == map[] then []
    else
      var k :| k in m;
      var r := EncodeState(m - {k}) + [(k, Json.Object([]))];
      InitOfSnoc(EncodeState(m - {k}), r[|r| - 1]);
      r
  }

  /** The members of a label map, in some order. */
  ghost function EncodeLabels(m: map<string, string>): (r: seq<(string, Json.Value)>)
    ensures Names(r) == m.Keys
    ensures forall i :: 0 <= i < |r| ==> r[i].0 in m && r[i].1 == Json.Str(m[r[i].0])
    decreases |m|
  {
    if m == map[] then []
    else
      var k :| k in m;
      var r := EncodeLabels(m - {k}) + [(k, Json.Str(m[k]))];
      InitOfSnoc(EncodeLabels(m - {k}), r[|r| - 1]);
      r
  }

  ghost function EncodeStatus(s: ContainerStatus): Json.Value {
    Json.Object([("name", Json.Str(s.name)), ("state", Json.Object(EncodeState(s.state))),
                 ("ready", Json.Bool(s.ready)), ("restartCount", Json.Number(s.restartCount))])
  }

  ghost function EncodeMetadata(m: Metadata): Json.Value {
    Json.Object([("name", Json.Str(m.name)), ("namespace", Json.Str(m.namespace)), ("uid", Json.Str(m.uid)),
                 ("labels", Json.Object(EncodeLabels(m.labels)))])
  }

  /** The object a pod's `spec` is written as. */
  function EncodeSpec(sp: PodSpec): Json.Value {
    Json.Object([("containers", Json.Array(EncodeList(sp.containers, EncodeContainer)))])
  }

  /** The object a pod's `status` is written as. */
  ghost function EncodePodStatus(st: PodStatus): Json.Value {
    Json.Object([("podIP", Json.Str(st.podIP)), ("containerStatuses", Json.Array(EncodeList(st.containerStatuses, EncodeStatus)))])
  }

  ghost function EncodePod(p: Pod): Json.Value {
    Json.Object([("metadata", EncodeMetadata(p.metadata)), ("spec", EncodeSpec(p.spec)), ("status", EncodePodStatus(p.status))])
  }

  /** A snapshot as a pod-list document. */
  ghost function EncodePods(ps: Pods): Json.Value {
    Json.Object([("items", Json.Array(EncodeList(ps.items, EncodePod)))])
  }

  lemma {:induction false} DecodeAllRoundTrip<T>(xs: seq<T>, vs: seq<Json.Value>, dec: Json.Value -> Result<T, DecodeError>)
    requires |vs| == |xs| && forall i :: 0 <= i < |xs| ==> dec(vs[i]) == Ok(xs[i])
    ensures DecodeAll(vs, dec) == Ok(xs)
  {
    if xs != [] {
      var n := |xs| - 1;
      DecodeAllRoundTrip(xs[..n], vs[..n], dec);
      assert xs == xs[..n] + [xs[n]];
    }
  }

  // Each round trip below is put together from three small facts: how the
  // decoder reads an object (`DecodeXReads`), what the field decoder makes of
  // the encoded member values (`XFieldsFrom`), and what the member lookups in
  // the encoded object find (`EncodedXMembers`).

  lemma {:induction false} DecodePortReads(ms: seq<(string, Json.Value)>)
    ensures DecodePort(Json.Object(ms)) == PortFields(Member(ms, "name"), Member(ms, "containerPort"), Member(ms, "protocol"))
  {
    assert AsObject(Some(Json.Object(ms)), "ports") == Ok(ms);
  }

  lemma {:induction false} PortFieldsFrom(p: Port)
    requires IsInt32(p.containerPort)
    ensures PortFields(Some(Json.Str(p.name)), Some(Json.Number(p.containerPort)), Some(Json.Str(p.protocol))) == Ok(p)
  {
  }

  lemma {:induction false} EncodedPortMembers(p: Port)
    ensures Member(EncodePort(p).members, "name") == Some(Json.Str(p.name))
    ensures Member(EncodePort(p).members, "containerPort") == Some(Json.Number(p.containerPort))
    ensures Member(EncodePort(p).members, "protocol") == Some(Json.Str(p.protocol))
  {
    var ms := EncodePort(p).members;
    MemberUnique(ms, "name", 0);
    MemberUnique(ms, "containerPort", 1);
    MemberUnique(ms, "protocol", 2);
  }

  lemma {:induction false} PortRoundTrip(p: Port)
    requires IsInt32(p.containerPort)
    ensures DecodePort(EncodePort(p)) == Ok(p)
  {
    DecodePortReads(EncodePort(p).members);
    EncodedPortMembers(p);
    PortFieldsFrom(p);
  }

  lemma {:induction false} PortsRoundTrip(ps: seq<Port>)
    requires forall i :: 0 <= i < |ps| ==> PortOk(ps[i])
    ensures DecodeAll(EncodeList(ps, EncodePort), DecodePort) == Ok(ps)
  {
    var vs := EncodeList(ps, EncodePort);
    forall i | 0 <= i < |ps| ensures DecodePort(vs[i]) == Ok(ps[i]) {
      assert PortOk(ps[i]);
      PortRoundTrip(ps[i]);
    }
    DecodeAllRoundTrip(ps, vs, DecodePort);
  }

  lemma {:induction false} DecodeContainerReads(ms: seq<(string, Json.Value)>)
    ensures DecodeContainer(Json.Object(ms)) == ContainerFields(Member(ms, "name"), Member(ms, "ports"))
  {
    assert AsObject(Some(Json.Object(ms)), "containers") == Ok(ms);
  }

  lemma {:induction false} ContainerFieldsFrom(name: string, vs: seq<Json.Value>, ports: seq<Port>)
    requires name != [] && DecodeAll(vs, DecodePort) == Ok(ports)
    ensures ContainerFields(Some(Json.Str(name)), Some(Json.Array(vs))) == Ok(Container(name, ports))
  {
  }

  lemma {:induction false} EncodedContainerMembers(c: Container)
    ensures Member(EncodeContainer(c).members, "name") == Some(Json.Str(c.name))
    ensures Member(EncodeContainer(c).members, "ports") == Some(Json.Array(EncodeList(c.ports, EncodePort)))
  {
    var ms := EncodeContainer(c).members;
    MemberUnique(ms, "name", 0);
    MemberUnique(ms, "ports", 1);
  }

  lemma {:induction false} ContainerRoundTrip(c: Container)
    requires ContainerOk(c)
    ensures DecodeContainer(EncodeContainer(c)) == Ok(c)
  {
    DecodeContainerReads(EncodeContainer(c).members);
    EncodedContainerMembers(c);
    PortsRoundTrip(c.ports);
    ContainerFieldsFrom(c.name, EncodeList(c.ports, EncodePort), c.ports);
  }

  lemma {:induction false} ContainersRoundTrip(cs: seq<Container>)
    requires forall i :: 0 <= i < |cs| ==> ContainerOk(cs[i])
    ensures DecodeAll(EncodeList(cs, EncodeContainer), DecodeContainer) == Ok(cs)
  {
    var vs := EncodeList(cs, EncodeContainer);
    forall i | 0 <= i < |cs| ensures DecodeContainer(vs[i]) == Ok(cs[i]) {
      assert ContainerOk(cs[i]);
      ContainerRoundTrip(cs[i]);
    }
    DecodeAllRoundTrip(cs, vs, DecodeContainer);
  }

  lemma {:induction false} UnitMapsEqual(a: map<string, ()>, b: map<string, ()>)
    requires a.Keys == b.Keys
    ensures a == b
  {
    forall k | k in a ensures a[k] == b[k] {
      var u, w := a[k], b[k];
      assert u == () && w == ();
    }
  }

  /** A state map is read back from members that name each of its states once or more. */
  lemma {:induction false} StateRoundTrip(ms: seq<(string, Json.Value)>, m: map<string, ()>)
    requires forall i :: 0 <= i < |ms| ==> ms[i].1 == Json.Object([])
    requires Names(ms) == m.Keys
    ensures DecodeState(ms) == Ok(m)
  {
    if ms != [] {
      var n := |ms| - 1;
      var k := ms[n].0;
      var rest := m - {k};
      if k in Names(ms[..n]) {
        StateRoundTrip(ms[..n], m);
        UnitMapsEqual(m[k := ()], m);
      } else {
        assert Names(ms[..n]) == rest.Keys;
        StateRoundTrip(ms[..n], rest);
        UnitMapsEqual(rest[k := ()], m);
      }
    }
  }

  lemma {:induction false} DecodeStatusReads(ms: seq<(string, Json.Value)>)
    ensures DecodeStatus(Json.Object(ms)) ==
            StatusFields(Member(ms, "name"), Member(ms, "state"), Member(ms, "ready"), Member(ms, "restartCount"))
  {
    assert AsObject(Some(Json.Object(ms)), "containerStatuses") == Ok(ms);
  }

  lemma {:induction false} StatusFieldsFrom(s: ContainerStatus, sms: seq<(string, Json.Value)>)
    requires DecodeState(sms) == Ok(s.state) && IsInt32(s.restartCount)
    ensures StatusFields(Some(Json.Str(s.name)), Some(Json.Object(sms)), Some(Json.Bool(s.ready)), Some(Json.Number(s.restartCount))) == Ok(s)
  {
  }

  lemma {:induction false} EncodedStatusMembers(s: ContainerStatus)
    ensures Member(EncodeStatus(s).members, "name") == Some(Json.Str(s.name))
    ensures Member(EncodeStatus(s).members, "state") == Some(Json.Object(EncodeState(s.state)))
    ensures Member(EncodeStatus(s).members, "ready") == Some(Json.Bool(s.ready))
    ensures Member(EncodeStatus(s).members, "restartCount") == Some(Json.Number(s.restartCount))
  {
    var ms := EncodeStatus(s).members;
    MemberUnique(ms, "name", 0);
    MemberUnique(ms, "state", 1);
    MemberUnique(ms, "ready", 2);
    MemberUnique(ms, "restartCount", 3);
  }

  lemma {:induction false} StatusRoundTrip(s: ContainerStatus)
    requires IsInt32(s.restartCount)
    ensures DecodeStatus(EncodeStatus(s)) == Ok(s)
  {
    DecodeStatusReads(EncodeStatus(s).members);
    EncodedStatusMembers(s);
    StateRoundTrip(EncodeState(s.state), s.state);
    StatusFieldsFrom(s, EncodeState(s.state));
  }

  lemma {:induction false} StatusesRoundTrip(ss: seq<ContainerStatus>)
    requires forall i :: 0 <= i < |ss| ==> StatusOk(ss[i])
    ensures DecodeAll(EncodeList(ss, EncodeStatus), DecodeStatus) == Ok(ss)
  {
    var vs := EncodeList(ss, EncodeStatus);
    forall i | 0 <= i < |ss| ensures DecodeStatus(vs[i]) == Ok(ss[i]) {
      assert StatusOk(ss[i]);
      StatusRoundTrip(ss[i]);
    }
    DecodeAllRoundTrip(ss, vs, DecodeStatus);
  }

  /** A label map is read back from members that give each label its value, once or more. */
  lemma {:induction false} LabelsRoundTrip(ms: seq<(string, Json.Value)>, m: map<string, string>)
    requires forall i :: 0 <= i < |ms| ==> ms[i].0 in m && ms[i].1 == Json.Str(m[ms[i].0])
    requires Names(ms) == m.Keys
    ensures DecodeLabels(ms) == Ok(m)
  {
    if ms != [] {
      var n := |ms| - 1;
      var k := ms[n].0;
      var rest := m - {k};
      if k in Names(ms[..n]) {
        LabelsRoundTrip(ms[..n], m);
        NamesIn(ms, k);
        RestoreKey(m, k);
      } else {
        LabelsWithout(ms, m);
        LabelsRoundTrip(ms[..n], rest);
        NamesIn(ms, k);
        RestoreKey(m, k);
      }
    }
  }

  lemma {:induction false} RestoreKey<K, V>(m: map<K, V>, k: K)
    requires k in m
    ensures m[k := m[k]] == m && (m - {k})[k := m[k]] == m
  {
  }

  /** Members that name their last label only once give the other labels. */
  lemma {:induction false} LabelsWithout(ms: seq<(string, Json.Value)>, m: map<string, string>)
    requires ms != [] && ms[|ms| - 1].0 !in Names(ms[..|ms| - 1])
    requires forall i :: 0 <= i < |ms| ==> ms[i].0 in m && ms[i].1 == Json.Str(m[ms[i].0])
    requires Names(ms) == m.Keys
    ensures var init, rest := ms[..|ms| - 1], m - {ms[|ms| - 1].0};
            Names(init) == rest.Keys && forall i :: 0 <= i < |init| ==> init[i].0 in rest && init[i].1 == Json.Str(rest[init[i].0])
  {
    var n := |ms| - 1;
    var init, rest := ms[..n], m - {ms[n].0};
    forall i | 0 <= i < n ensures init[i].0 in rest && init[i].1 == Json.Str(rest[init[i].0]) {
      NamesIn(init, init[i].0);
    }
  }

  lemma {:induction false} DecodeMetadataReads(ms: seq<(string, Json.Value)>)
    ensures DecodeMetadata(Some(Json.Object(ms))) ==
            MetadataFields(Member(ms, "name"), Member(ms, "namespace"), Member(ms, "uid"), Member(ms, "labels"))
  {
    assert AsObject(Some(Json.Object(ms)), "metadata") == Ok(ms);
  }

  lemma {:induction false} MetadataFieldsFrom(m: Metadata, lms: seq<(string, Json.Value)>)
    requires m.name != [] && DecodeLabels(lms) == Ok(m.labels)
    ensures MetadataFields(Some(Json.Str(m.name)), Some(Json.Str(m.namespace)), Some(Json.Str(m.uid)), Some(Json.Object(lms))) == Ok(m)
  {
    assert AsString(Some(Json.Str(m.name)), "name") == Ok(m.name);
    assert AsString(Some(Json.Str(m.namespace)), "namespace") == Ok(m.namespace);
    assert AsString(Some(Json.Str(m.uid)), "uid") == Ok(m.uid);
    assert AsObject(Some(Json.Object(lms)), "labels") == Ok(lms);
  }

  lemma {:induction false} EncodedMetadataMembers(m: Metadata)
    ensures Member(EncodeMetadata(m).members, "name") == Some(Json.Str(m.name))
    ensures Member(EncodeMetadata(m).members, "namespace") == Some(Json.Str(m.namespace))
    ensures Member(EncodeMetadata(m).members, "uid") == Some(Json.Str(m.uid))
    ensures Member(EncodeMetadata(m).members, "labels") == Some(Json.Object(EncodeLabels(m.labels)))
  {
    var ms := EncodeMetadata(m).members;
    MemberUnique(ms, "name", 0);
    MemberUnique(ms, "namespace", 1);
    MemberUnique(ms, "uid", 2);
    MemberUnique(ms, "labels", 3);
  }

  lemma {:induction false} MetadataRoundTrip(m: Metadata)
    requires m.name != []
    ensures DecodeMetadata(Some(EncodeMetadata(m))) == Ok(m)
  {
    DecodeMetadataReads(EncodeMetadata(m).members);
    EncodedMetadataMembers(m);
    LabelsRoundTrip(EncodeLabels(m.labels), m.labels);
    MetadataFieldsFrom(m, EncodeLabels(m.labels));
  }

  lemma {:induction false} DecodeSpecReads(ms: seq<(string, Json.Value)>)
    ensures DecodeSpec(Some(Json.Object(ms))) == SpecFields(Member(ms, "containers"))
  {
    assert AsObject(Some(Json.Object(ms)), "spec") == Ok(ms);
  }

  lemma {:induction false} SpecFieldsFrom(vs: seq<Json.Value>, cs: seq<Container>)
    requires DecodeAll(vs, DecodeContainer) == Ok(cs)
    ensures SpecFields(Some(Json.Array(vs))) == Ok(PodSpec(cs))
  {
  }

  lemma {:induction false} EncodedSpecMembers(sp: PodSpec)
    ensures Member(EncodeSpec(sp).members, "containers") == Some(Json.Array(EncodeList(sp.containers, EncodeContainer)))
  {
    MemberUnique(EncodeSpec(sp).members, "containers", 0);
  }

  lemma {:induction false} SpecRoundTrip(sp: PodSpec)
    requires forall i :: 0 <= i < |sp.containers| ==> ContainerOk(sp.containers[i])
    ensures DecodeSpec(Some(EncodeSpec(sp))) == Ok(sp)
  {
    DecodeSpecReads(EncodeSpec(sp).members);
    EncodedSpecMembers(sp);
    ContainersRoundTrip(sp.containers);
    SpecFieldsFrom(EncodeList(sp.containers, EncodeContainer), sp.containers);
  }

  lemma {:induction false} DecodePodStatusReads(ms: seq<(string, Json.Value)>)
    ensures DecodePodStatus(Some(Json.Object(ms))) == PodStatusFields(Member(ms, "podIP"), Member(ms, "containerStatuses"))
  {
    assert AsObject(Some(Json.Object(ms)), "status") == Ok(ms);
  }

  lemma {:induction false} PodStatusFieldsFrom(ip: string, vs: seq<Json.Value>, ss: seq<ContainerStatus>)
    requires DecodeAll(vs, DecodeStatus) == Ok(ss)
    ensures PodStatusFields(Some(Json.Str(ip)), Some(Json.Array(vs))) == Ok(PodStatus(ip, ss))
  {
  }

  lemma {:induction false} EncodedPodStatusMembers(st: PodStatus)
    ensures Member(EncodePodStatus(st).members, "podIP") == Some(Json.Str(st.podIP))
    ensures Member(EncodePodStatus(st).members, "containerStatuses") == Some(Json.Array(EncodeList(st.containerStatuses, EncodeStatus)))
  {
    var ms := EncodePodStatus(st).members;
    MemberUnique(ms, "podIP", 0);
    MemberUnique(ms, "containerStatuses", 1);
  }

  lemma {:induction false} PodStatusRoundTrip(st: PodStatus)
    requires forall i :: 0 <= i < |st.containerStatuses| ==> StatusOk(st.containerStatuses[i])
    ensures DecodePodStatus(Some(EncodePodStatus(st))) == Ok(st)
  {
    DecodePodStatusReads(EncodePodStatus(st).members);
    EncodedPodStatusMembers(st);
    StatusesRoundTrip(st.containerStatuses);
    PodStatusFieldsFrom(st.podIP, EncodeList(st.containerStatuses, EncodeStatus), st.containerStatuses);
  }

  lemma {:induction false} DecodePodReads(ms: seq<(string, Json.Value)>)
    ensures DecodePod(Json.Object(ms)) == PodFields(Member(ms, "metadata"), Member(ms, "spec"), Member(ms, "status"))
  {
    assert AsObject(Some(Json.Object(ms)), "items") == Ok(ms);
  }

  lemma {:induction false} PodFieldsFrom(p: Pod, mv: Json.Value, sv: Json.Value, tv: Json.Value)
    requires DecodeMetadata(Some(mv)) == Ok(p.metadata)
    requires DecodeSpec(Some(sv)) == Ok(p.spec)
    requires DecodePodStatus(Some(tv)) == Ok(p.status)
    ensures PodFields(Some(mv), Some(sv), Some(tv)) == Ok(p)
  {
  }

  lemma {:induction false} EncodedPodMembers(p: Pod)
    ensures Member(EncodePod(p).members, "metadata") == Some(EncodeMetadata(p.metadata))
    ensures Member(EncodePod(p).members, "spec") == Some(EncodeSpec(p.spec))
    ensures Member(EncodePod(p).members, "status") == Some(EncodePodStatus(p.status))
  {
    var ms := EncodePod(p).members;
    MemberUnique(ms, "metadata", 0);
    MemberUnique(ms, "spec", 1);
    MemberUnique(ms, "status", 2);
  }

  lemma {:induction false} PodRoundTrip(p: Pod)
    requires PodOk(p)
    ensures DecodePod(EncodePod(p)) == Ok(p)
  {
    DecodePodReads(EncodePod(p).members);
    EncodedPodMembers(p);
    MetadataRoundTrip(p.metadata);
    SpecRoundTrip(p.spec);
    PodStatusRoundTrip(p.status);
    PodFieldsFrom(p, EncodeMetadata(p.metadata), EncodeSpec(p.spec), EncodePodStatus(p.status));
  }

  lemma {:induction false} PodListRoundTrip(items: seq<Pod>)
    requires forall i :: 0 <= i < |items| ==> PodOk(items[i])
    ensures DecodeAll(EncodeList(items, EncodePod), DecodePod) == Ok(items)
  {
    var vs := EncodeList(items, EncodePod);
    forall i | 0 <= i < |items| ensures DecodePod(vs[i]) == Ok(items[i]) {
      PodRoundTrip(items[i]);
    }
    DecodeAllRoundTrip(items, vs, DecodePod);
  }

  lemma {:induction false} DecodePodsReads(ms: seq<(string, Json.Value)>)
    ensures DecodePods(Json.Object(ms)) == PodsFields(Member(ms, "items"))
  {
    assert AsObject(Some(Json.Object(ms)), "pods") == Ok(ms);
  }

  lemma {:induction false} PodsFieldsFrom(vs: seq<Json.Value>, items: seq<Pod>)
    requires DecodeAll(vs, DecodePod) == Ok(items)
    ensures PodsFields(Some(Json.Array(vs))) == Ok(Pods(items))
  {
  }

  /** Decoding the document a well-formed snapshot is written as gives the snapshot back. */
  lemma {:induction false} PodsRoundTrip(ps: Pods)
    requires WellFormed(ps)
    ensures DecodePods(EncodePods(ps)) == Ok(ps)
  {
    var vs := EncodeList(ps.items, EncodePod);
    DecodePodsReads(EncodePods(ps).members);
    MemberUnique(EncodePods(ps).members, "items", 0);
    PodListRoundTrip(ps.items);
    PodsFieldsFrom(vs, ps.items);
  }

  // ---------------------------------------------------------------------
  // Every well-formed snapshot can be written out

  /** The member names the document is written with are JSON text. */
  lemma {:induction false} KeysAreText()
    ensures Json.IsText("name")
    ensures Json.IsText("containerPort")
    ensures Json.IsText("protocol")
    ensures Json.IsText("ports")
    ensures Json.IsText("state")
    ensures Json.IsText("ready")
    ensures Json.IsText("restartCount")
    ensures Json.IsText("namespace")
    ensures Json.IsText("uid")
    ensures Json.IsText("labels")
    ensures Json.IsText("containers")
    ensures Json.IsText("podIP")
    ensures Json.IsText("containerStatuses")
    ensures Json.IsText("metadata")
    ensures Json.IsText("spec")
    ensures Json.IsText("status")
    ensures Json.IsText("items")
  {
  }

  lemma {:induction false} PortWritable(p: Port)
    requires PortOk(p)
    ensures Json.Writable(EncodePort(p))
  {
    KeysAreText();
  }

  lemma {:induction false} ContainerWritable(c: Container)
    requires ContainerOk(c)
    ensures Json.Writable(EncodeContainer(c))
  {
    var vs := EncodeList(c.ports, EncodePort);
    forall i | 0 <= i < |vs| ensures Json.Writable(vs[i]) {
      assert PortOk(c.ports[i]);
      PortWritable(c.ports[i]);
    }
    assert Json.Writable(Json.Array(vs));
    KeysAreText();
  }

  lemma {:induction false} StateWritable(m: map<string, ()>)
    requires forall k :: k in m ==> Json.IsText(k)
    ensures Json.Writable(Json.Object(EncodeState(m)))
  {
    var sms := EncodeState(m);
    forall i | 0 <= i < |sms| ensures Json.IsText(sms[i].0) && Json.Writable(sms[i].1) {
      NamesIn(sms, sms[i].0);
    }
  }

  lemma {:induction false} StatusWritable(s: ContainerStatus)
    requires StatusOk(s)
    ensures Json.Writable(EncodeStatus(s))
  {
    StateWritable(s.state);
    KeysAreText();
  }

  lemma {:induction false} LabelsWritable(m: map<string, string>)
    requires forall k :: k in m ==> Json.IsText(k) && Json.IsText(m[k])
    ensures Json.Writable(Json.Object(EncodeLabels(m)))
  {
    var lms := EncodeLabels(m);
    forall i | 0 <= i < |lms| ensures Json.IsText(lms[i].0) && Json.Writable(lms[i].1) {
      assert lms[i].0 in m;
    }
  }

  lemma {:induction false} MetadataWritable(m: Metadata)
    requires MetadataOk(m)
    ensures Json.Writable(EncodeMetadata(m))
  {
    LabelsWritable(m.labels);
    KeysAreText();
  }

  lemma {:induction false} SpecWritable(sp: PodSpec)
    requires forall j :: 0 <= j < |sp.containers| ==> ContainerOk(sp.containers[j])
    ensures Json.Writable(EncodeSpec(sp))
  {
    var vs := EncodeList(sp.containers, EncodeContainer);
    forall i | 0 <= i < |vs| ensures Json.Writable(vs[i]) {
      ContainerWritable(sp.containers[i]);
    }
    KeysAreText();
    assert Json.Writable(Json.Array(vs));
  }

  lemma {:induction false} PodStatusWritable(st: PodStatus)
    requires Json.IsText(st.podIP)
    requires forall j :: 0 <= j < |st.containerStatuses| ==> StatusOk(st.containerStatuses[j])
    ensures Json.Writable(EncodePodStatus(st))
  {
    var vs := EncodeList(st.containerStatuses, EncodeStatus);
    forall i | 0 <= i < |vs| ensures Json.Writable(vs[i]) {
      StatusWritable(st.containerStatuses[i]);
    }
    KeysAreText();
    assert Json.Writable(Json.Array(vs));
  }

  lemma {:induction false} PodWritable(p: Pod)
    requires PodOk(p)
    ensures Json.Writable(EncodePod(p))
  {
    MetadataWritable(p.metadata);
    SpecWritable(p.spec);
    PodStatusWritable(p.status);
    KeysAreText();
  }

  lemma {:induction false} PodsWritable(ps: Pods)
    requires WellFormed(ps)
    ensures Json.Writable(EncodePods(ps))
  {
    var vs := EncodeList(ps.items, EncodePod);
    forall i | 0 <= i < |vs| ensures Json.Writable(vs[i]) {
      PodWritable(ps.items[i]);
    }
    KeysAreText();
    assert Json.Writable(Json.Array(vs));
  }

  // ---------------------------------------------------------------------
  // Round trips through bytes

  /** `load` reads back the document any well-formed snapshot is serialized as. */
  lemma {:induction false} LoadRoundTrip(ps: Pods)
    requires WellFormed(ps)
    ensures Json.Writable(EncodePods(ps))
    ensures Load(Json.Serialize(EncodePods(ps))) == Ok(ps)
  {
    PodsWritable(ps);
    Json.DocumentRoundTrip(EncodePods(ps));
    PodsRoundTrip(ps);
  }

  /** Re-encoding what `load` decoded and decoding it again gives the same snapshot. */
  lemma {:induction false} ReloadIsStable(body: seq<Json.byte>)
    requires Load(body).Ok?
    ensures Json.Writable(EncodePods(Load(body).value))
    ensures Load(Json.Serialize(EncodePods(Load(body).value))) == Load(body)
  {
    var ps := Load(body).value;
    LoadRoundTrip(ps);
  }
}
