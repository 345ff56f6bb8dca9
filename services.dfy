/** Discovered service instances, the values the observer hands to the
    service-discovery publisher. */
module Services {

  /** A point in time, as the nanoseconds the injected clock reports. */
  type Time = int

  /** The identity of an instance: the pod it runs in, its container and its port. */
  datatype InstanceId = InstanceId(podUid: string, container: string, port: int)

  datatype ServiceInstance = ServiceInstance(
    id: InstanceId,
    host: string,
    port: int,
    protocol: string,
    portName: string,
    dimensions: map<string, string>,
    discovered: Time)

  type ServiceInstances = seq<ServiceInstance>

  /** No two instances of the collection share an identifier. */
  predicate DistinctIds(s: ServiceInstances) {
    forall a, b :: 0 <= a < b < |s| ==> s[a].id != s[b].id
  }

  /** Joining two collections with distinct identifiers and no identifier in common. */
  lemma {:induction false} DistinctIdsJoin(s: ServiceInstances, t: ServiceInstances)
    requires DistinctIds(s) && DistinctIds(t)
    requires forall a, b :: 0 <= a < |s| && 0 <= b < |t| ==> s[a].id != t[b].id
    ensures DistinctIds(s + t)
  {
    forall a, b | 0 <= a < b < |s + t| ensures (s + t)[a].id != (s + t)[b].id {
      if b < |s| {
        assert (s + t)[a] == s[a] && (s + t)[b] == s[b];
      } else if a < |s| {
        assert (s + t)[a] == s[a] && (s + t)[b] == t[b - |s|];
      } else {
        assert (s + t)[a] == t[a - |s|] && (s + t)[b] == t[b - |s|];
      }
    }
  }
}
