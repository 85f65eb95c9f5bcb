/**
 * The Kubernetes tool of the MCP server (mcp-server/src/tools/kubernetes.ts):
 * how pods, events and deployments read from the cluster are summarised, the
 * field selector used to list a pod's events, and the key lists of config
 * maps and secrets. The API calls are left out; their responses are
 * parameters. Fields the client types as optional are `Option`s, and leaf
 * values that may be `null` or `undefined` are `Json`.
 */
module KubernetesTool {
  import opened Js

  const ProjectInfoAnnotation: string := "project.info/metadata"
  const InvolvedObjectName: string := "involvedObject.name="

  /** `v ?? undefined`: `null` becomes `undefined`, anything else stays. */
  function Defined(v: Json): (r: Json)
    ensures !r.Null?
    ensures !Nullish(v) ==> r == v
    ensures Nullish(v) ==> r == Undefined
  {
    if Nullish(v) then Undefined else v
  }

  // ---------------------------------------------------------------------------
  // Events

  /** A timestamp as the client hands it over: a `Date`, carried here as the
      text its `toISOString()` gives, or any other value. */
  datatype Stamp = Date(iso: string) | Raw(value: Json)

  datatype Event = Event(kind: Json, reason: Json, message: Json, lastTimestamp: Stamp)

  datatype EventSummary = EventSummary(kind: Json, reason: Json, message: Json, lastTimestamp: Json)

  /** `mapEvent(event)`: type, reason and message with `null` made
      `undefined`; a `Date` timestamp as ISO text, any other timestamp as it
      came, `null` included. */
  function MapEvent(e: Event): (r: EventSummary)
    ensures r.kind == Defined(e.kind) && r.reason == Defined(e.reason) && r.message == Defined(e.message)
    ensures e.lastTimestamp.Date? ==> r.lastTimestamp == Str(e.lastTimestamp.iso)
    ensures e.lastTimestamp.Raw? ==> r.lastTimestamp == e.lastTimestamp.value
  {
    EventSummary(Defined(e.kind), Defined(e.reason), Defined(e.message),
      match e.lastTimestamp
      case Date(iso) => Str(iso)
      case Raw(v) => v)
  }

  function MapEvents(events: seq<Event>): (r: seq<EventSummary>)
    ensures |r| == |events|
    ensures forall i :: 0 <= i < |events| ==> r[i] == MapEvent(events[i])
  {
    seq(|events|, i requires 0 <= i < |events| => MapEvent(events[i]))
  }

  // ---------------------------------------------------------------------------
  // Pods

  datatype ObjectMeta = ObjectMeta(name: Json, namespace: Json, annotations: Option<map<string, string>>)

  datatype ContainerStatus = ContainerStatus(name: Json, ready: Json, restartCount: Json, state: Json)

  datatype PodStatus = PodStatus(
    phase: Json,
    startTime: Stamp,
    conditions: Option<seq<Json>>,
    containerStatuses: Option<seq<ContainerStatus>>)

  datatype Pod = Pod(metadata: Option<ObjectMeta>, nodeName: Option<Json>, status: Option<PodStatus>)

  datatype ContainerSummary = ContainerSummary(name: Json, ready: Json, restartCount: Json, state: Json)

  datatype PodDescription = PodDescription(
    name: Json,
    namespace: Json,
    status: Json,
    nodeName: Json,
    startTime: Json,
    conditions: seq<Json>,
    containerStatuses: seq<ContainerSummary>,
    events: seq<EventSummary>)

  /** One container's status: restart count `0` when missing, state only
      when there is one. */
  function MapContainer(c: ContainerStatus): (r: ContainerSummary)
    ensures r.name == c.name && r.ready == c.ready
    ensures !Nullish(c.restartCount) ==> r.restartCount == c.restartCount
    ensures Nullish(c.restartCount) ==> r.restartCount == Number(Finite(0))
    ensures Truthy(c.state) ==> r.state == c.state
    ensures !Truthy(c.state) ==> r.state == Undefined
  {
    ContainerSummary(c.name, c.ready, Coalesce(c.restartCount, Number(Finite(0))),
      if Truthy(c.state) then c.state else Undefined)
  }

  function MapContainers(cs: seq<ContainerStatus>): (r: seq<ContainerSummary>)
    ensures |r| == |cs|
    ensures forall i :: 0 <= i < |cs| ==> r[i] == MapContainer(cs[i])
  {
    seq(|cs|, i requires 0 <= i < |cs| => MapContainer(cs[i]))
  }

  /** `pod.metadata?.name ?? undefined` and its siblings. */
  function MetaName(m: Option<ObjectMeta>): (r: Json)
    ensures m.Some? ==> r == Defined(m.value.name)
    ensures m.None? ==> r == Undefined
  {
    if m.Some? then Defined(m.value.name) else Undefined
  }

  function MetaNamespace(m: Option<ObjectMeta>): (r: Json)
    ensures m.Some? ==> r == Defined(m.value.namespace)
    ensures m.None? ==> r == Undefined
  {
    if m.Some? then Defined(m.value.namespace) else Undefined
  }

  /** `mapPodDescription(pod, events)` */
  function MapPodDescription(pod: Pod, events: seq<Event>): (r: PodDescription)
    ensures r.name == MetaName(pod.metadata) && r.namespace == MetaNamespace(pod.metadata)
    ensures r.nodeName == (if pod.nodeName.Some? then Defined(pod.nodeName.value) else Undefined)
    ensures pod.status.None? ==> (r.status == Undefined && r.startTime == Undefined
      && r.conditions == [] && r.containerStatuses == [])
    ensures pod.status.Some? ==> (r.status == Defined(pod.status.value.phase)
      && r.conditions == pod.status.value.conditions.GetOr([])
      && r.containerStatuses == MapContainers(pod.status.value.containerStatuses.GetOr([])))
    ensures pod.status.Some? && pod.status.value.startTime.Date? ==> r.startTime == Str(pod.status.value.startTime.iso)
    ensures pod.status.Some? && pod.status.value.startTime.Raw? ==> r.startTime == Defined(pod.status.value.startTime.value)
    ensures r.events == MapEvents(events)
  {
    var status := pod.status;
    PodDescription(
      MetaName(pod.metadata),
      MetaNamespace(pod.metadata),
      if status.Some? then Defined(status.value.phase) else Undefined,
      if pod.nodeName.Some? then Defined(pod.nodeName.value) else Undefined,
      if status.None? then Undefined
      else match status.value.startTime
        case Date(iso) => Str(iso)
        case Raw(v) => Defined(v),
      if status.Some? then status.value.conditions.GetOr([]) else [],
      if status.Some? then MapContainers(status.value.containerStatuses.GetOr([])) else [],
      MapEvents(events))
  }

  /** A `null` timestamp is kept on an event but dropped from a pod's start
      time. */
  lemma NullTimestampTreatedDifferently(pod: Pod, events: seq<Event>, e: Event)
    requires pod.status.Some? && pod.status.value.startTime == Raw(Null)
    requires e.lastTimestamp == Raw(Null)
    ensures MapPodDescription(pod, events).startTime == Undefined
    ensures MapEvent(e).lastTimestamp == Null
  {
  }

  /** The containers keep their order and count; a container with no
      restart count reports zero restarts. */
  lemma ContainersOneToOne(pod: Pod, events: seq<Event>, i: int)
    requires pod.status.Some? && pod.status.value.containerStatuses.Some?
    requires 0 <= i < |pod.status.value.containerStatuses.value|
    requires pod.status.value.containerStatuses.value[i].restartCount == Undefined
    ensures var r := MapPodDescription(pod, events);
      |r.containerStatuses| == |pod.status.value.containerStatuses.value|
      && r.containerStatuses[i].name == pod.status.value.containerStatuses.value[i].name
      && r.containerStatuses[i].restartCount == Number(Finite(0))
  {
  }

  // ---------------------------------------------------------------------------
  // Field selectors

  /** The event query a call makes: namespace and optional field selector. */
  datatype EventQuery = EventQuery(namespace: string, fieldSelector: Option<string>)

  /** `describePod(namespace, podName)`: the pod and the events whose
      involved object has the pod's name. */
  function DescribePod(namespace: string, podName: string, pod: Pod, items: Option<seq<Event>>): (r: (EventQuery, PodDescription))
    ensures r.0 == EventQuery(namespace, Some(InvolvedObjectName + podName))
    ensures r.1 == MapPodDescription(pod, items.GetOr([]))
  {
    (EventQuery(namespace, Some(InvolvedObjectName + podName)), MapPodDescription(pod, items.GetOr([])))
  }

  /** `getEvents(namespace, podName)`: a selector only for a non-empty pod
      name. */
  function GetEvents(namespace: string, podName: Option<string>, items: Option<seq<Event>>): (r: (EventQuery, seq<EventSummary>))
    ensures r.0.namespace == namespace
    ensures r.0.fieldSelector.Some? <==> podName.Some? && |podName.value| > 0
    ensures r.0.fieldSelector.Some? ==> r.0.fieldSelector.value == InvolvedObjectName + podName.value
    ensures r.1 == MapEvents(items.GetOr([]))
  {
    var selector := if podName.Some? && |podName.value| > 0 then Some(InvolvedObjectName + podName.value) else None;
    (EventQuery(namespace, selector), MapEvents(items.GetOr([])))
  }

  // ---------------------------------------------------------------------------
  // Deployments

  datatype DeploymentStatus = DeploymentStatus(replicas: Json, availableReplicas: Json, updatedReplicas: Json)

  datatype Deployment = Deployment(metadata: Option<ObjectMeta>, status: Option<DeploymentStatus>)

  datatype DeploymentSummary = DeploymentSummary(
    name: Json,
    namespace: Json,
    annotations: map<string, string>,
    projectInfoMetadata: Option<string>,
    replicas: Json,
    availableReplicas: Json,
    updatedReplicas: Json)

  /** The deployment's annotations, `{}` when it has none. */
  function Annotations(m: Option<ObjectMeta>): (r: map<string, string>)
    ensures m.Some? && m.value.annotations.Some? ==> r == m.value.annotations.value
    ensures m.None? || m.value.annotations.None? ==> r == map[]
  {
    if m.Some? then m.value.annotations.GetOr(map[]) else map[]
  }

  /** `getDeployment(namespace, name)` */
  function GetDeployment(d: Deployment): (r: DeploymentSummary)
    ensures r.annotations == Annotations(d.metadata)
    ensures r.projectInfoMetadata.Some? <==> ProjectInfoAnnotation in r.annotations
    ensures r.projectInfoMetadata.Some? ==> r.projectInfoMetadata.value == r.annotations[ProjectInfoAnnotation]
    ensures r.name == MetaName(d.metadata) && r.namespace == MetaNamespace(d.metadata)
    ensures d.status.None? ==> r.replicas == r.availableReplicas == r.updatedReplicas == Undefined
    ensures d.status.Some? ==> (r.replicas == Defined(d.status.value.replicas)
      && r.availableReplicas == Defined(d.status.value.availableReplicas)
      && r.updatedReplicas == Defined(d.status.value.updatedReplicas))
  {
    var annotations := Annotations(d.metadata);
    DeploymentSummary(
      MetaName(d.metadata),
      MetaNamespace(d.metadata),
      annotations,
      if ProjectInfoAnnotation in annotations then Some(annotations[ProjectInfoAnnotation]) else None,
      if d.status.Some? then Defined(d.status.value.replicas) else Undefined,
      if d.status.Some? then Defined(d.status.value.availableReplicas) else Undefined,
      if d.status.Some? then Defined(d.status.value.updatedReplicas) else Undefined)
  }

  /** A deployment with no metadata has no project information. */
  lemma NoMetadataNoProjectInfo(d: Deployment)
    requires d.metadata.None?
    ensures GetDeployment(d).projectInfoMetadata == None
    ensures GetDeployment(d).annotations == map[]
  {
  }

  // ---------------------------------------------------------------------------
  // Key lists

  /** The default order of `Array.prototype.sort` on strings: lexicographic
      by character. */
  predicate Less(a: string, b: string)
    decreases |a|
  {
    |b| > 0 && (|a| == 0 || a[0] < b[0] || (a[0] == b[0] && Less(a[1..], b[1..])))
  }

  lemma {:induction false} LessIrreflexive(a: string)
    ensures !Less(a, a)
    decreases |a|
  {
    if |a| > 0 {
      LessIrreflexive(a[1..]);
    }
  }

  lemma {:induction false} LessTransitive(a: string, b: string, c: string)
    requires Less(a, b) && Less(b, c)
    ensures Less(a, c)
    decreases |a|
  {
    if |a| > 0 && a[0] == b[0] && b[0] == c[0] {
      LessTransitive(a[1..], b[1..], c[1..]);
    }
  }

  lemma {:induction false} LessTotal(a: string, b: string)
    ensures a == b || Less(a, b) || Less(b, a)
    decreases |a|
  {
    if |a| > 0 && |b| > 0 && a[0] == b[0] {
      LessTotal(a[1..], b[1..]);
      if a[1..] == b[1..] {
        assert a == [a[0]] + a[1..] && b == [b[0]] + b[1..];
      }
    }
  }

  lemma LessAsymmetric(a: string, b: string)
    requires Less(a, b)
    ensures !Less(b, a)
  {
    if Less(b, a) {
      LessTransitive(a, b, a);
      LessIrreflexive(a);
    }
  }

  /** Strictly increasing, hence free of duplicates. */
  predicate StrictlySorted(s: seq<string>) {
    forall i, j :: 0 <= i < j < |s| ==> Less(s[i], s[j])
  }

  predicate Distinct(s: seq<string>) {
    forall i, j :: 0 <= i < j < |s| ==> s[i] != s[j]
  }

  /** `Array.from(new Set(s))`: the first occurrence of each string, in
      order. */
  function Dedup(s: seq<string>): (r: seq<string>)
    ensures Distinct(r)
    ensures forall x :: x in r <==> x in s
  {
    if |s| == 0 then []
    else
      var d := Dedup(s[..|s| - 1]);
      var last := s[|s| - 1];
      assert forall x :: x in s <==> x in s[..|s| - 1] || x == last;
      if last in d then d else d + [last]
  }

  /** Puts `x` into its place in a strictly sorted list. */
  function Insert(x: string, s: seq<string>): (r: seq<string>)
    requires StrictlySorted(s) && x !in s
    ensures StrictlySorted(r)
    ensures |r| == |s| + 1
    ensures forall y :: y in r <==> y == x || y in s
  {
    if |s| == 0 then [x]
    else if Less(x, s[0]) then
      assert forall j :: 0 < j < |s| ==> Less(x, s[j]) by {
        forall j | 0 < j < |s| ensures Less(x, s[j]) {
          LessTransitive(x, s[0], s[j]);
        }
      }
      [x] + s
    else
      LessTotal(x, s[0]);
      var rest := Insert(x, s[1..]);
      assert forall y :: y in rest ==> Less(s[0], y);
      [s[0]] + rest
  }

  /** The sort of a duplicate-free list. */
  function Sort(s: seq<string>): (r: seq<string>)
    requires Distinct(s)
    ensures StrictlySorted(r)
    ensures |r| == |s|
    ensures forall y :: y in r <==> y in s
  {
    if |s| == 0 then []
    else
      var rest := Sort(s[1..]);
      Insert(s[0], rest)
  }

  /** Two strictly sorted lists with the same elements are the same list. */
  lemma {:induction false} SortedUnique(a: seq<string>, b: seq<string>)
    requires StrictlySorted(a) && StrictlySorted(b)
    requires forall x :: x in a <==> x in b
    ensures a == b
    decreases |a|
  {
    if |a| > 0 && |b| > 0 {
      assert a[0] in a && b[0] in b;
      if a[0] != b[0] {
        var i :| 0 <= i < |a| && a[i] == b[0];
        var j :| 0 <= j < |b| && b[j] == a[0];
        assert Less(a[0], a[i]) && Less(b[0], b[j]);
        LessAsymmetric(a[0], b[0]);
        assert false;
      }
      forall x ensures x in a[1..] <==> x in b[1..] {
        if x in a[1..] { TailMember(a, b, x); }
        if x in b[1..] { TailMember(b, a, x); }
      }
      SortedUnique(a[1..], b[1..]);
      assert a == [a[0]] + a[1..] && b == [b[0]] + b[1..];
    } else if |a| > 0 {
      ElementShared(a, b, 0);
      assert false;
    } else if |b| > 0 {
      ElementShared(b, a, 0);
      assert false;
    }
  }

  lemma ElementShared(a: seq<string>, b: seq<string>, i: int)
    requires forall x :: x in a <==> x in b
    requires 0 <= i < |a|
    ensures |b| > 0
  {
    assert a[i] in a;
  }

  lemma TailMember(a: seq<string>, b: seq<string>, x: string)
    requires StrictlySorted(a) && |a| > 0 && |b| > 0 && a[0] == b[0]
    requires forall y :: y in a <==> y in b
    requires x in a[1..]
    ensures x in b[1..]
  {
    var k :| 1 <= k < |a| && a[k] == x;
    assert Less(a[0], a[k]);
    LessIrreflexive(x);
    assert x in b;
    var m :| 0 <= m < |b| && b[m] == x;
    assert m != 0;
    assert b[1..][m - 1] == x;
  }

  /** The keys of an object, in enumeration order. */
  function Keys(entries: seq<(string, string)>): (r: seq<string>)
    ensures |r| == |entries|
    ensures forall i :: 0 <= i < |entries| ==> r[i] == entries[i].0
  {
    seq(|entries|, i requires 0 <= i < |entries| => entries[i].0)
  }

  /** The sorted, duplicate-free union of the keys of two optional objects.
      Only keys are read: no value reaches the result. */
  function SortedKeyUnion(first: Option<seq<(string, string)>>, second: Option<seq<(string, string)>>): (r: seq<string>)
    ensures StrictlySorted(r)
    ensures forall k :: k in r <==> k in Keys(first.GetOr([])) || k in Keys(second.GetOr([]))
  {
    Sort(Dedup(Keys(first.GetOr([])) + Keys(second.GetOr([]))))
  }

  /** The order the two objects are read in does not matter. */
  lemma SortedKeyUnionSymmetric(first: Option<seq<(string, string)>>, second: Option<seq<(string, string)>>)
    ensures SortedKeyUnion(first, second) == SortedKeyUnion(second, first)
  {
    SortedUnique(SortedKeyUnion(first, second), SortedKeyUnion(second, first));
  }

  datatype ConfigMap = ConfigMap(data: Option<seq<(string, string)>>, binaryData: Option<seq<(string, string)>>)

  datatype Secret = Secret(data: Option<seq<(string, string)>>, stringData: Option<seq<(string, string)>>)

  /** `extractConfigMapKeys(configMap)` */
  function ConfigMapKeys(c: ConfigMap): (r: seq<string>)
    ensures StrictlySorted(r)
    ensures forall k :: k in r <==> k in Keys(c.data.GetOr([])) || k in Keys(c.binaryData.GetOr([]))
  {
    SortedKeyUnion(c.data, c.binaryData)
  }

  /** `extractSecretKeys(secret)`: the names of the secret's entries, never
      their values. */
  function SecretKeys(s: Secret): (r: seq<string>)
    ensures StrictlySorted(r)
    ensures forall k :: k in r <==> k in Keys(s.data.GetOr([])) || k in Keys(s.stringData.GetOr([]))
  {
    SortedKeyUnion(s.data, s.stringData)
  }

  /** A key present in both parts of a secret is listed once. */
  lemma SharedSecretKeyOnce(s: Secret, k: string)
    requires k in Keys(s.data.GetOr([])) && k in Keys(s.stringData.GetOr([]))
    ensures multiset(SecretKeys(s))[k] == 1
  {
    var r := SecretKeys(s);
    var i :| 0 <= i < |r| && r[i] == k;
    LessIrreflexive(k);
    assert r == r[..i] + [k] + r[i + 1..];
    assert k !in r[..i] && k !in r[i + 1..] by {
      forall j | 0 <= j < |r| && j != i ensures r[j] != k {
        if j < i { assert Less(r[j], r[i]); } else { assert Less(r[i], r[j]); }
      }
    }
  }
}
