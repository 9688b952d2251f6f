/**
  The policy drift engine: what one evaluation of a tenant's fleet reports.
  Source: internal/policy/engine.go.
 */
module Policy {
  import opened Text
  import opened Fleet
  import opened Lists

  // ---------------------------------------------------------------- the catalog

  datatype Policy =
    | KubernetesVersion | RequiredLabels | NamespaceDrift | WorkloadDrift | WorkloadHealth
    | PodSecurity | NamespaceSecurity

  function Id(p: Policy): string {
    match p
    case KubernetesVersion => "kubernetes-version-consistency"
    case RequiredLabels => "required-cluster-labels"
    case NamespaceDrift => "namespace-consistency"
    case WorkloadDrift => "workload-configuration-consistency"
    case WorkloadHealth => "workload-availability"
    case PodSecurity => "pod-security-baseline"
    case NamespaceSecurity => "namespace-pod-security"
  }

  // ---------------------------------------------------------------- the snapshot read

  /** `lastHeartbeat` is None for the zero time. */
  datatype Cluster = Cluster(id: ClusterId, name: string, version: string, labels: map<string, string>,
                             lastHeartbeat: Option<Time>)

  datatype Deployment = Deployment(namespace: string, name: string, configHash: string, images: seq<string>,
                                   desired: int, updated: int, available: int)

  datatype Pod = Pod(namespace: string, name: string, known: bool, privileged: bool, runAsNonRoot: bool,
                     readOnlyRoot: bool, allowsEscalation: bool, droppedAll: bool,
                     hostNetwork: bool, hostPID: bool, hostIPC: bool)

  datatype Namespace = Namespace(name: string, labels: map<string, string>)

  /** What the store answers for a cluster; a read of an absent entry fails. */
  datatype Reader = Reader(namespaces: map<ClusterId, seq<string>>, deployments: map<ClusterId, seq<Deployment>>,
                           pods: map<ClusterId, seq<Pod>>, configs: map<ClusterId, seq<Namespace>>)

  datatype World = World(clusters: seq<Cluster>, reader: Reader, now: Time, staleAfter: Time)

  /** now.Sub(lastHeartbeat) > staleAfter, or no heartbeat yet */
  predicate IsStale(w: World, c: Cluster) {
    c.lastHeartbeat.None? || w.now - c.lastHeartbeat.value > w.staleAfter
  }

  function Get<K, V>(m: map<K, seq<V>>, k: K): seq<V> { if k in m then m[k] else [] }

  // ---------------------------------------------------------------- results

  datatype Status = Pass | Fail | NotKnown | Stale

  datatype Message =
    | VersionNotReported | NoVersionBaseline | VersionMatches | VersionDiffers
    | LabelsPresent | LabelsMissing
    | NoNamespaceInventory | NamespacesMatch | NamespacesDiffer
    | NoConfiguration | NoDeployments | HashNotReported | NoPeer | ConfigurationMatches | ConfigurationDiffers
    | ReplicasAvailable | ReplicasNotAvailable
    | NoPodEvidence | ContextNotReported | PodMeetsProfile | PodViolatesProfile
    | NoNamespaceEvidence | NamespaceEnforces | NamespaceDoesNotEnforce
    | SnapshotTooOld

  datatype Subject = Subject(clusterId: ClusterId, clusterName: string, namespace: string, kind: string, name: string)

  datatype Value = Words(text: string) | Number(n: int) | Duration(d: Time)

  datatype Result = Result(policy: Policy, subject: Subject, status: Status, message: Message,
                           expected: map<string, Value>, actual: map<string, Value>,
                           observedAt: Option<Time>, evaluatedAt: Time)

  function ClusterSubject(c: Cluster): Subject { Subject(c.id, c.name, "", "", "") }

  /** A result about the cluster as a whole. */
  function Finding(w: World, p: Policy, c: Cluster, status: Status, message: Message,
                   expected: map<string, Value>, actual: map<string, Value>): Result {
    Result(p, ClusterSubject(c), status, message, expected, actual, c.lastHeartbeat, w.now)
  }

  function FindingOn(w: World, p: Policy, c: Cluster, kind: string, namespace: string, name: string, status: Status,
                     message: Message, expected: map<string, Value>, actual: map<string, Value>): Result {
    Result(p, Subject(c.id, c.name, namespace, kind, name), status, message, expected, actual, c.lastHeartbeat, w.now)
  }

  function StaleFinding(w: World, p: Policy, c: Cluster): Result {
    Finding(w, p, c, Stale, SnapshotTooOld, map["freshWithin" := Duration(w.staleAfter)], map[])
  }

  // ---------------------------------------------------------------- orders

  /** Go's `<` on strings. */
  predicate StringLess(a: string, b: string) {
    b != "" && (a == "" || a[0] < b[0] || (a[0] == b[0] && StringLess(a[1..], b[1..])))
  }

  lemma {:induction false} StringIrreflexive(a: string)
    ensures !StringLess(a, a)
  {
    if a != "" { StringIrreflexive(a[1..]); }
  }

  lemma {:induction false} StringTrichotomy(a: string, b: string)
    ensures !StringLess(a, a)
    ensures StringLess(a, b) || a == b || StringLess(b, a)
    ensures !(StringLess(a, b) && StringLess(b, a))
    decreases |a| + |b|
  {
    StringIrreflexive(a);
    if a != "" && b != "" {
      StringTrichotomy(a[1..], b[1..]);
      assert a == [a[0]] + a[1..] && b == [b[0]] + b[1..];
    }
  }

  lemma {:induction false} StringTransitive(a: string, b: string, c: string)
    requires StringLess(a, b) && StringLess(b, c)
    ensures StringLess(a, c)
  {
    if a != "" && a[0] == b[0] == c[0] { StringTransitive(a[1..], b[1..], c[1..]); }
  }

  lemma StringOrders()
    ensures Orders(StringLess)
  {
    forall x: string ensures !StringLess(x, x) { StringTrichotomy(x, x); }
    forall x: string, y: string, z: string | StringLess(x, y) && StringLess(y, z) ensures StringLess(x, z) {
      StringTransitive(x, y, z);
    }
    forall x: string, y: string, z: string | StringLess(x, z) ensures StringLess(x, y) || StringLess(y, z) {
      StringTrichotomy(x, y);
      StringTrichotomy(y, z);
    }
  }

  /** The comparison of the final sort. */
  predicate ResultLess(l: Result, r: Result) {
    if l.policy != r.policy then StringLess(Id(l.policy), Id(r.policy))
    else if l.subject.clusterName != r.subject.clusterName then StringLess(l.subject.clusterName, r.subject.clusterName)
    else if l.subject.namespace != r.subject.namespace then StringLess(l.subject.namespace, r.subject.namespace)
    else if l.subject.kind != r.subject.kind then StringLess(l.subject.kind, r.subject.kind)
    else StringLess(l.subject.name, r.subject.name)
  }

  predicate SameKey(l: Result, r: Result) {
    l.policy == r.policy && l.subject.(clusterId := "") == r.subject.(clusterId := "")
  }

  lemma IdsDiffer(p: Policy, q: Policy)
    requires p != q
    ensures Id(p) != Id(q)
  {
    assert Id(NamespaceDrift)[0] == 'n' && Id(WorkloadHealth)[0] == 'w' && Id(PodSecurity)[0] == 'p';
  }

  lemma ResultTrichotomy(l: Result, r: Result)
    ensures !ResultLess(l, l)
    ensures ResultLess(l, r) || SameKey(l, r) || ResultLess(r, l)
    ensures !(ResultLess(l, r) && ResultLess(r, l))
  {
    if l.policy != r.policy { IdsDiffer(l.policy, r.policy); }
    StringTrichotomy(Id(l.policy), Id(r.policy));
    StringTrichotomy(l.subject.clusterName, r.subject.clusterName);
    StringTrichotomy(l.subject.namespace, r.subject.namespace);
    StringTrichotomy(l.subject.kind, r.subject.kind);
    StringTrichotomy(l.subject.name, r.subject.name);
  }

  lemma StringChain(a: string, b: string, c: string)
    ensures StringLess(a, b) && StringLess(b, c) ==> StringLess(a, c)
    ensures !StringLess(a, a)
    ensures !(StringLess(a, b) && StringLess(b, a))
  {
    StringTrichotomy(a, b);
    if StringLess(a, b) && StringLess(b, c) { StringTransitive(a, b, c); }
  }

  lemma ResultTransitive(x: Result, y: Result, z: Result)
    requires ResultLess(x, y) && ResultLess(y, z)
    ensures ResultLess(x, z)
  {
    StringChain(Id(x.policy), Id(y.policy), Id(z.policy));
    StringChain(x.subject.clusterName, y.subject.clusterName, z.subject.clusterName);
    StringChain(x.subject.namespace, y.subject.namespace, z.subject.namespace);
    StringChain(x.subject.kind, y.subject.kind, z.subject.kind);
    StringChain(x.subject.name, y.subject.name, z.subject.name);
  }

  lemma ResultOrders()
    ensures Orders(ResultLess)
  {
    forall x: Result ensures !ResultLess(x, x) { ResultTrichotomy(x, x); }
    forall x: Result, y: Result, z: Result | ResultLess(x, y) && ResultLess(y, z) ensures ResultLess(x, z) {
      ResultTransitive(x, y, z);
    }
    forall x: Result, y: Result, z: Result | ResultLess(x, z) ensures ResultLess(x, y) || ResultLess(y, z) {
      ResultTrichotomy(x, y);
      if SameKey(x, y) {
        assert ResultLess(y, z);
      } else if ResultLess(y, x) {
        ResultTransitive(y, x, z);
      }
    }
  }

  // ---------------------------------------------------------------- the mode

  /** The non-empty value of greatest count; of several such, the least. Empty when there is none. */
  ghost predicate IsMode(values: multiset<string>, best: string) {
    if best == "" then forall v :: v in values ==> v == ""
    else
      && best in values
      && forall v :: v in values && v != "" ==>
           values[v] < values[best] || (values[v] == values[best] && (v == best || StringLess(best, v)))
  }

  lemma ModeIsUnique(values: multiset<string>, a: string, b: string)
    requires IsMode(values, a) && IsMode(values, b)
    ensures a == b
  {
    StringTrichotomy(a, b);
  }

  /** One more occurrence of a value makes it the mode, or leaves the mode as it was. */
  lemma ModeStep(values: multiset<string>, best: string, value: string)
    requires IsMode(values, best) && value != ""
    ensures var more := values + multiset{value};
      var better := more[value] > values[best] || (more[value] == values[best] && StringLess(value, best));
      IsMode(more, if best == "" || better then value else best)
  {
    var more := values + multiset{value};
    forall v ensures more[v] == if v == value then values[v] + 1 else values[v] { }
    StringTrichotomy(value, best);
    forall v | v in values && v != "" ensures StringLess(value, best) && StringLess(best, v) ==> StringLess(value, v) {
      StringChain(value, best, v);
    }
  }

  lemma {:induction false} ModeExists(values: seq<string>) returns (best: string)
    ensures IsMode(multiset(values), best)
    decreases |values|
  {
    if values == [] { return ""; }
    var n := |values| - 1;
    best := ModeExists(values[..n]);
    LastOut(values);
    if values[n] != "" {
      ModeStep(multiset(values[..n]), best, values[n]);
      var counted := multiset(values[..n]);
      var count := counted[values[n]] + 1;
      if best == "" || count > counted[best] || (count == counted[best] && StringLess(values[n], best)) {
        best := values[n];
      }
    }
  }

  ghost function ModeOf(values: seq<string>): (best: string)
    ensures IsMode(multiset(values), best)
  {
    assert exists best :: IsMode(multiset(values), best) by { var best := ModeExists(values); }
    var best :| IsMode(multiset(values), best);
    best
  }

  /** The mode does not depend on the order of the values. */
  lemma ModeIgnoresOrder(a: seq<string>, b: seq<string>)
    requires multiset(a) == multiset(b)
    ensures ModeOf(a) == ModeOf(b)
  {
    ModeIsUnique(multiset(a), ModeOf(a), ModeOf(b));
  }

  // ---------------------------------------------------------------- baselines

  predicate IsSpace(c: char) { c in {' ', '\t', '\n', '\r', '\U{0B}', '\U{0C}'} }

  function TrimLeft(s: string): string {
    if s != "" && IsSpace(s[0]) then TrimLeft(s[1..]) else s
  }

  function TrimRight(s: string): string {
    if s != "" && IsSpace(s[|s| - 1]) then TrimRight(s[..|s| - 1]) else s
  }

  function TrimSpace(s: string): string { TrimRight(TrimLeft(s)) }

  /** The major and minor version, or empty when the version has none. */
  function VersionLine(version: string): string {
    var parts := Split(TrimByte(TrimSpace(version), 'v'), '.');
    if |parts| < 2 || parts[0] == "" || parts[1] == "" then "" else parts[0] + "." + parts[1]
  }

  const NUL: char := '\0'

  function FreshVersion(w: World, c: Cluster): seq<string> {
    if IsStale(w, c) || VersionLine(c.version) == "" then [] else [VersionLine(c.version)]
  }

  function SortedNamespaces(w: World, c: Cluster): seq<string> { Sort(Get(w.reader.namespaces, c.id), StringLess) }

  function Signature(w: World, c: Cluster): seq<string> {
    if IsStale(w, c) || SortedNamespaces(w, c) == [] then [] else [Join(SortedNamespaces(w, c), [NUL])]
  }

  function DeploymentKey(d: Deployment): string { d.namespace + [NUL] + d.name }

  function HashOf(d: Deployment): seq<(string, string)> {
    if d.configHash == "" then [] else [(DeploymentKey(d), d.configHash)]
  }

  function Hashes(w: World, c: Cluster): seq<(string, string)> {
    if IsStale(w, c) then [] else Flat(Get(w.reader.deployments, c.id), HashOf)
  }

  function HashUnder(key: string): ((string, string)) -> seq<string> {
    (h: (string, string)) => if h.0 == key then [h.1] else []
  }

  /** The hashes reported under one key. */
  function Peers(hashes: seq<(string, string)>, key: string): seq<string> {
    Flat(hashes, HashUnder(key))
  }

  function VersionOf(w: World): Cluster -> seq<string> { c => FreshVersion(w, c) }

  function SignatureOf(w: World): Cluster -> seq<string> { c => Signature(w, c) }

  function HashesOf(w: World): Cluster -> seq<(string, string)> { c => Hashes(w, c) }

  function Versions(w: World): seq<string> { Flat(w.clusters, VersionOf(w)) }

  function Signatures(w: World): seq<string> { Flat(w.clusters, SignatureOf(w)) }

  function AllHashes(w: World): seq<(string, string)> { Flat(w.clusters, HashesOf(w)) }

  function SplitSignature(signature: string): seq<string> { if signature == "" then [] else Split(signature, NUL) }

  function SetDifference(left: seq<string>, right: seq<string>): seq<string> { Filter(left, v => v !in right) }

  // ---------------------------------------------------------------- what is reported of one cluster

  function VersionResult(w: World, c: Cluster, expected: string): Result {
    var actual := VersionLine(c.version);
    var evidence := map["majorMinor" := Words(actual), "version" := Words(c.version)];
    if IsStale(w, c) then StaleFinding(w, KubernetesVersion, c)
    else if actual == "" then Finding(w, KubernetesVersion, c, NotKnown, VersionNotReported, map[], map[])
    else if expected == "" then Finding(w, KubernetesVersion, c, NotKnown, NoVersionBaseline, map[], map[])
    else if actual == expected
    then Finding(w, KubernetesVersion, c, Pass, VersionMatches, map["majorMinor" := Words(expected)], evidence)
    else Finding(w, KubernetesVersion, c, Fail, VersionDiffers, map["majorMinor" := Words(expected)], evidence)
  }

  const REQUIRED_LABELS: seq<string> := ["environment", "owner", "region"]

  function MissingLabels(labels: map<string, string>): seq<string> {
    Filter(REQUIRED_LABELS, name => name !in labels || TrimSpace(labels[name]) == "")
  }

  function LabelResult(w: World, c: Cluster): Result {
    var missing := MissingLabels(c.labels);
    var expected := map["labels" := Words(Join(REQUIRED_LABELS, ","))];
    if IsStale(w, c) then StaleFinding(w, RequiredLabels, c)
    else if missing == [] then Finding(w, RequiredLabels, c, Pass, LabelsPresent, expected, map[])
    else Finding(w, RequiredLabels, c, Fail, LabelsMissing, expected, map["missing" := Words(Join(missing, ","))])
  }

  function NamespaceResult(w: World, c: Cluster, namespaces: seq<string>, signature: string): Result {
    var baseline := SplitSignature(signature);
    var missing, extra := SetDifference(baseline, namespaces), SetDifference(namespaces, baseline);
    var expected := map["namespaces" := Words(Join(baseline, ","))];
    var actual := map["namespaces" := Words(Join(namespaces, ","))];
    if IsStale(w, c) then StaleFinding(w, NamespaceDrift, c)
    else if namespaces == [] || signature == ""
      then Finding(w, NamespaceDrift, c, NotKnown, NoNamespaceInventory, map[], map[])
    else if missing == [] && extra == [] then Finding(w, NamespaceDrift, c, Pass, NamespacesMatch, expected, actual)
    else Finding(w, NamespaceDrift, c, Fail, NamespacesDiffer, expected,
                 actual["missing" := Words(Join(missing, ","))]["extra" := Words(Join(extra, ","))])
  }

  function DriftResult(w: World, c: Cluster, d: Deployment, baseline: string, peers: nat): Result {
    var hash := map["configHash" := Words(d.configHash)];
    var evidence := map["configHash" := Words(d.configHash), "images" := Words(Join(d.images, ","))];
    if d.configHash == ""
    then FindingOn(w, WorkloadDrift, c, "Deployment", d.namespace, d.name, NotKnown, HashNotReported, map[], map[])
    else if peers < 2
    then FindingOn(w, WorkloadDrift, c, "Deployment", d.namespace, d.name, NotKnown, NoPeer, map[], hash)
    else if d.configHash == baseline
    then FindingOn(w, WorkloadDrift, c, "Deployment", d.namespace, d.name, Pass, ConfigurationMatches,
                   map["configHash" := Words(baseline)], evidence)
    else FindingOn(w, WorkloadDrift, c, "Deployment", d.namespace, d.name, Fail, ConfigurationDiffers,
                   map["configHash" := Words(baseline)], evidence)
  }

  function HealthResult(w: World, c: Cluster, d: Deployment): Result {
    var ok := d.desired == d.updated && d.desired == d.available;
    FindingOn(w, WorkloadHealth, c, "Deployment", d.namespace, d.name,
              if ok then Pass else Fail, if ok then ReplicasAvailable else ReplicasNotAvailable,
              map["updatedReplicas" := Number(d.desired), "availableReplicas" := Number(d.desired)],
              map["desiredReplicas" := Number(d.desired), "updatedReplicas" := Number(d.updated),
                  "availableReplicas" := Number(d.available)])
  }

  ghost function WorkloadPair(w: World, c: Cluster, hashes: seq<(string, string)>): Deployment -> seq<Result> {
    d => [DriftResult(w, c, d, ModeOf(Peers(hashes, DeploymentKey(d))), |Peers(hashes, DeploymentKey(d))|),
      HealthResult(w, c, d)]
  }

  ghost function WorkloadResults(w: World, c: Cluster, hashes: seq<(string, string)>): seq<Result> {
    if IsStale(w, c) then [StaleFinding(w, WorkloadDrift, c), StaleFinding(w, WorkloadHealth, c)]
    else if Get(w.reader.deployments, c.id) == []
    then [Finding(w, WorkloadDrift, c, NotKnown, NoConfiguration, map[], map[]),
          Finding(w, WorkloadHealth, c, NotKnown, NoDeployments, map[], map[])]
    else Flat(Get(w.reader.deployments, c.id), WorkloadPair(w, c, hashes))
  }

  predicate IsSystemNamespace(n: string) { n in {"kube-system", "kube-public", "kube-node-lease", "kfleet-system"} }

  /** The rules of the restricted profile, in the order of the checks. */
  datatype PodRule =
    | Privileged | RunAsNonRoot | ReadOnlyRoot | AllowEscalation | DropAll | HostNetwork | HostPID | HostIPC

  const POD_RULES: seq<PodRule> :=
    [Privileged, RunAsNonRoot, ReadOnlyRoot, AllowEscalation, DropAll, HostNetwork, HostPID, HostIPC]

  function RuleName(rule: PodRule): string {
    match rule
    case Privileged => "privileged"
    case RunAsNonRoot => "runAsNonRoot"
    case ReadOnlyRoot => "readOnlyRootFilesystem"
    case AllowEscalation => "allowPrivilegeEscalation"
    case DropAll => "dropAllCapabilities"
    case HostNetwork => "hostNetwork"
    case HostPID => "hostPID"
    case HostIPC => "hostIPC"
  }

  predicate Breaks(p: Pod, rule: PodRule) {
    match rule
    case Privileged => p.privileged
    case RunAsNonRoot => !p.runAsNonRoot
    case ReadOnlyRoot => !p.readOnlyRoot
    case AllowEscalation => p.allowsEscalation
    case DropAll => !p.droppedAll
    case HostNetwork => p.hostNetwork
    case HostPID => p.hostPID
    case HostIPC => p.hostIPC
  }

  function Broken(p: Pod): PodRule -> bool { (rule: PodRule) => Breaks(p, rule) }

  function PodSecurityViolations(p: Pod): seq<PodRule> { Filter(POD_RULES, Broken(p)) }

  function RuleNames(): PodRule -> seq<string> { (rule: PodRule) => [RuleName(rule)] }

  function PodFinding(w: World, c: Cluster): Pod -> seq<Result> { p => [PodResult(w, c, p)] }

  function ConfigFinding(w: World, c: Cluster): Namespace -> seq<Result> { n => [ConfigResult(w, c, n)] }

  function PodResult(w: World, c: Cluster, p: Pod): Result {
    var violations := PodSecurityViolations(p);
    var expected := map["profile" := Words("restricted")];
    if !p.known then FindingOn(w, PodSecurity, c, "Pod", p.namespace, p.name, NotKnown, ContextNotReported, map[],
      map[])
    else if violations == [] then FindingOn(w, PodSecurity, c, "Pod", p.namespace, p.name, Pass, PodMeetsProfile,
      expected, map[])
    else FindingOn(w, PodSecurity, c, "Pod", p.namespace, p.name, Fail, PodViolatesProfile, expected,
                   map["violations" := Words(Join(Flat(violations, RuleNames()), ","))])
  }

  const ENFORCE: string := "pod-security.kubernetes.io/enforce"

  function ConfigResult(w: World, c: Cluster, n: Namespace): Result {
    var enforce := if ENFORCE in n.labels then n.labels[ENFORCE] else "";
    var ok := enforce == "baseline" || enforce == "restricted";
    FindingOn(w, NamespaceSecurity, c, "Namespace", n.name, n.name,
              if ok then Pass else Fail, if ok then NamespaceEnforces else NamespaceDoesNotEnforce,
              map[ENFORCE := Words("baseline|restricted")], map[ENFORCE := Words(enforce)])
  }

  function IsApplicationPod(): Pod -> bool { (p: Pod) => !IsSystemNamespace(p.namespace) }

  function IsApplicationNamespace(): Namespace -> bool { (n: Namespace) => !IsSystemNamespace(n.name) }

  function ApplicationPods(w: World, c: Cluster): seq<Pod> { Filter(Get(w.reader.pods, c.id), IsApplicationPod()) }

  function ApplicationNamespaces(w: World, c: Cluster): seq<Namespace> {
    Filter(Get(w.reader.configs, c.id), IsApplicationNamespace())
  }

  function PodResults(w: World, c: Cluster): seq<Result> {
    if ApplicationPods(w, c) == [] then [Finding(w, PodSecurity, c, NotKnown, NoPodEvidence, map[], map[])]
    else Flat(ApplicationPods(w, c), PodFinding(w, c))
  }

  function ConfigResults(w: World, c: Cluster): seq<Result> {
    if ApplicationNamespaces(w, c) == []
      then [Finding(w, NamespaceSecurity, c, NotKnown, NoNamespaceEvidence, map[], map[])]
    else Flat(ApplicationNamespaces(w, c), ConfigFinding(w, c))
  }

  function SecurityResults(w: World, c: Cluster): seq<Result> {
    if IsStale(w, c) then [StaleFinding(w, PodSecurity, c), StaleFinding(w, NamespaceSecurity, c)]
    else PodResults(w, c) + ConfigResults(w, c)
  }

  // ---------------------------------------------------------------- one evaluation

  /** The five evaluators, in the order in which they run. */
  datatype Part = VersionPart | LabelPart | NamespacePart | WorkloadPart | SecurityPart

  const PARTS: seq<Part> := [VersionPart, LabelPart, NamespacePart, WorkloadPart, SecurityPart]

  ghost function Contribution(w: World, part: Part, c: Cluster): seq<Result> {
    match part
    case VersionPart => [VersionResult(w, c, ModeOf(Versions(w)))]
    case LabelPart => [LabelResult(w, c)]
    case NamespacePart => [NamespaceResult(w, c, SortedNamespaces(w, c), ModeOf(Signatures(w)))]
    case WorkloadPart => WorkloadResults(w, c, AllHashes(w))
    case SecurityPart => SecurityResults(w, c)
  }

  ghost function Contributions(w: World, part: Part): Cluster -> seq<Result> { c => Contribution(w, part, c) }

  ghost function PartResults(w: World): Part -> seq<Result> { part => Flat(w.clusters, Contributions(w, part)) }

  ghost function All(w: World): seq<Result> { Flat(PARTS, PartResults(w)) }

  /** Everything the evaluators read of the cluster can be read. */
  predicate Readable(w: World, c: Cluster) {
    IsStale(w, c) ||
    (c.id in w.reader.namespaces && c.id in w.reader.deployments && c.id in w.reader.pods && c.id in w.reader.configs)
  }

  /** Evaluate: None when a read of a fresh cluster fails. */
  ghost function Evaluated(w: World): Option<seq<Result>> {
    if forall c :: c in w.clusters ==> Readable(w, c) then Some(Sort(All(w), ResultLess)) else None
  }

  // ---------------------------------------------------------------- order independence

  /** No two different clusters of a tenant share a name, no two different resources of a cluster share a key. */
  ghost predicate Keyed(w: World) {
    && (forall c, d :: c in w.clusters && d in w.clusters && c.name == d.name ==> c == d)
    && (forall c :: c in w.clusters ==> KeyedResources(w, c))
  }

  ghost predicate KeyedResources(w: World, c: Cluster) {
    && KeyedDeployments(Get(w.reader.deployments, c.id))
    && KeyedPods(Get(w.reader.pods, c.id))
    && KeyedNamespaces(Get(w.reader.configs, c.id))
  }

  ghost predicate KeyedDeployments(ds: seq<Deployment>) {
    forall x, y :: x in ds && y in ds && x.namespace == y.namespace && x.name == y.name ==> x == y
  }

  ghost predicate KeyedPods(ps: seq<Pod>) {
    forall x, y :: x in ps && y in ps && x.namespace == y.namespace && x.name == y.name ==> x == y
  }

  ghost predicate KeyedNamespaces(ns: seq<Namespace>) {
    forall x, y :: x in ns && y in ns && x.name == y.name ==> x == y
  }

  function PartOf(p: Policy): Part {
    match p
    case KubernetesVersion => VersionPart
    case RequiredLabels => LabelPart
    case NamespaceDrift => NamespacePart
    case WorkloadDrift => WorkloadPart
    case WorkloadHealth => WorkloadPart
    case PodSecurity => SecurityPart
    case NamespaceSecurity => SecurityPart
  }

  ghost predicate Shaped(r: Result, w: World, part: Part, c: Cluster) {
    && r.subject.clusterId == c.id && r.subject.clusterName == c.name
    && PartOf(r.policy) == part
    && (r.status == Stale <==> IsStale(w, c))
  }

  lemma VersionShape(w: World, c: Cluster, expected: string)
    ensures Shaped(VersionResult(w, c, expected), w, VersionPart, c)
  {
  }

  lemma LabelShape(w: World, c: Cluster)
    ensures Shaped(LabelResult(w, c), w, LabelPart, c)
  {
  }

  lemma NamespaceShape(w: World, c: Cluster, namespaces: seq<string>, signature: string)
    ensures Shaped(NamespaceResult(w, c, namespaces, signature), w, NamespacePart, c)
  {
  }

  /** Every result names its cluster, belongs to a policy of its evaluator, and is stale iff the cluster is. */
  lemma ResultShape(w: World, part: Part, c: Cluster, r: Result)
    requires r in Contribution(w, part, c)
    ensures Shaped(r, w, part, c)
  {
    match part
    case VersionPart => VersionShape(w, c, ModeOf(Versions(w)));
    case LabelPart => LabelShape(w, c);
    case NamespacePart => NamespaceShape(w, c, SortedNamespaces(w, c), ModeOf(Signatures(w)));
    case WorkloadPart => WorkloadShape(w, c, AllHashes(w), r);
    case SecurityPart => SecurityShape(w, c, r);
  }

  lemma PairMember(w: World, c: Cluster, hashes: seq<(string, string)>, d: Deployment, r: Result)
    requires r in WorkloadPair(w, c, hashes)(d)
    ensures r.subject == Subject(c.id, c.name, d.namespace, "Deployment", d.name) && r.status != Stale
    ensures r.policy == WorkloadDrift || r.policy == WorkloadHealth
    ensures r == if r.policy == WorkloadDrift then WorkloadPair(w, c, hashes)(d)[0]
      else WorkloadPair(w, c, hashes)(d)[1]
  {
  }

  lemma WorkloadShape(w: World, c: Cluster, hashes: seq<(string, string)>, r: Result)
    requires r in WorkloadResults(w, c, hashes)
    ensures r.subject.clusterId == c.id && r.subject.clusterName == c.name
    ensures r.policy == WorkloadDrift || r.policy == WorkloadHealth
    ensures r.status == Stale <==> IsStale(w, c)
  {
    if !IsStale(w, c) && Get(w.reader.deployments, c.id) != [] {
      var d := FlatMember(Get(w.reader.deployments, c.id), WorkloadPair(w, c, hashes), r);
      PairMember(w, c, hashes, d, r);
    }
  }

  lemma PodMember(w: World, c: Cluster, r: Result) returns (p: Pod)
    requires r in PodResults(w, c) && ApplicationPods(w, c) != []
    ensures p in Get(w.reader.pods, c.id) && r == PodResult(w, c, p)
    ensures r.subject == Subject(c.id, c.name, p.namespace, "Pod", p.name)
  {
    p := FlatMember(ApplicationPods(w, c), PodFinding(w, c), r);
    FilterMember(Get(w.reader.pods, c.id), IsApplicationPod(), p);
  }

  lemma ConfigMember(w: World, c: Cluster, r: Result) returns (n: Namespace)
    requires r in ConfigResults(w, c) && ApplicationNamespaces(w, c) != []
    ensures n in Get(w.reader.configs, c.id) && r == ConfigResult(w, c, n)
    ensures r.subject == Subject(c.id, c.name, n.name, "Namespace", n.name)
  {
    n := FlatMember(ApplicationNamespaces(w, c), ConfigFinding(w, c), r);
    FilterMember(Get(w.reader.configs, c.id), IsApplicationNamespace(), n);
  }

  lemma SecurityShape(w: World, c: Cluster, r: Result)
    requires r in SecurityResults(w, c)
    ensures r.subject.clusterId == c.id && r.subject.clusterName == c.name
    ensures r.status == Stale <==> IsStale(w, c)
    ensures r.policy == PodSecurity || r.policy == NamespaceSecurity
    ensures !IsStale(w, c) ==> if r.policy == PodSecurity then r in PodResults(w, c) else r in ConfigResults(w, c)
  {
    if !IsStale(w, c) {
      if r in PodResults(w, c) {
        if ApplicationPods(w, c) != [] { var p := PodMember(w, c, r); }
      } else if ApplicationNamespaces(w, c) != [] {
        var n := ConfigMember(w, c, r);
      }
    }
  }

  lemma WorkloadKey(w: World, c: Cluster, hashes: seq<(string, string)>, x: Result, y: Result)
    requires KeyedResources(w, c) && x in WorkloadResults(w, c, hashes) && y in WorkloadResults(w, c, hashes)
      && SameKey(x, y)
    ensures x == y
  {
    if !IsStale(w, c) && Get(w.reader.deployments, c.id) != [] {
      var d := FlatMember(Get(w.reader.deployments, c.id), WorkloadPair(w, c, hashes), x);
      var e := FlatMember(Get(w.reader.deployments, c.id), WorkloadPair(w, c, hashes), y);
      PairMember(w, c, hashes, d, x);
      PairMember(w, c, hashes, e, y);
      assert d == e;
    }
  }

  lemma PodKey(w: World, c: Cluster, x: Result, y: Result)
    requires KeyedResources(w, c) && x in PodResults(w, c) && y in PodResults(w, c) && SameKey(x, y)
    ensures x == y
  {
    if ApplicationPods(w, c) != [] {
      var p := PodMember(w, c, x);
      var q := PodMember(w, c, y);
      assert p == q;
    }
  }

  lemma ConfigKey(w: World, c: Cluster, x: Result, y: Result)
    requires KeyedResources(w, c) && x in ConfigResults(w, c) && y in ConfigResults(w, c) && SameKey(x, y)
    ensures x == y
  {
    if ApplicationNamespaces(w, c) != [] {
      var m := ConfigMember(w, c, x);
      var n := ConfigMember(w, c, y);
      assert m == n;
    }
  }

  /** Two results of one cluster with the same sort key are the same result. */
  lemma KeyWithinCluster(w: World, part: Part, c: Cluster, x: Result, y: Result)
    requires KeyedResources(w, c) && x in Contribution(w, part, c) && y in Contribution(w, part, c) && SameKey(x, y)
    ensures x == y
  {
    if part == WorkloadPart {
      WorkloadKey(w, c, AllHashes(w), x, y);
    } else if part == SecurityPart {
      SecurityShape(w, c, x);
      SecurityShape(w, c, y);
      if !IsStale(w, c) {
        if x.policy == PodSecurity { PodKey(w, c, x, y); } else { ConfigKey(w, c, x, y); }
      }
    }
  }

  /** The key of the final sort tells all results apart. */
  lemma SortKeyIsUnique(w: World, x: Result, y: Result)
    requires Keyed(w) && x in All(w) && y in All(w) && SameKey(x, y)
    ensures x == y
  {
    var p := FlatMember(PARTS, PartResults(w), x);
    var q := FlatMember(PARTS, PartResults(w), y);
    var c := FlatMember(w.clusters, Contributions(w, p), x);
    var d := FlatMember(w.clusters, Contributions(w, q), y);
    ResultShape(w, p, c, x);
    ResultShape(w, q, d, y);
    KeyWithinCluster(w, p, c, x, y);
  }

  /** The same snapshot, with the clusters and every list that was read in any other order. */
  ghost predicate Shuffled(v: World, w: World) {
    && v.now == w.now && v.staleAfter == w.staleAfter
    && multiset(v.clusters) == multiset(w.clusters)
    && forall c :: c in v.clusters && !IsStale(v, c) ==> SameReads(v.reader, w.reader, c.id)
  }

  ghost predicate SameRead<T>(a: map<ClusterId, seq<T>>, b: map<ClusterId, seq<T>>, id: ClusterId) {
    (id in a <==> id in b) && multiset(Get(a, id)) == multiset(Get(b, id))
  }

  ghost predicate SameReads(a: Reader, b: Reader, id: ClusterId) {
    && SameRead(a.namespaces, b.namespaces, id) && SameRead(a.deployments, b.deployments, id)
    && SameRead(a.pods, b.pods, id) && SameRead(a.configs, b.configs, id)
  }

  lemma SameFreshness(v: World, w: World, c: Cluster)
    requires v.now == w.now && v.staleAfter == w.staleAfter
    ensures IsStale(v, c) == IsStale(w, c)
  {
  }

  lemma SameVersionResult(v: World, w: World, c: Cluster, expected: string)
    requires v.now == w.now && v.staleAfter == w.staleAfter
    ensures VersionResult(v, c, expected) == VersionResult(w, c, expected)
  {
  }

  lemma SameNamespaceResult(v: World, w: World, c: Cluster, a: seq<string>, b: seq<string>, signature: string)
    requires v.now == w.now && v.staleAfter == w.staleAfter && (IsStale(v, c) || a == b)
    ensures NamespaceResult(v, c, a, signature) == NamespaceResult(w, c, b, signature)
  {
  }

  lemma SortedStrings(a: seq<string>, b: seq<string>)
    requires multiset(a) == multiset(b)
    ensures Sort(a, StringLess) == Sort(b, StringLess)
  {
    StringOrders();
    forall x, y | x in a && y in a ensures x == y || StringLess(x, y) || StringLess(y, x) { StringTrichotomy(x, y); }
    SortIgnoresOrder(a, b, StringLess);
  }

  lemma SameVersions(v: World, w: World)
    requires Shuffled(v, w)
    ensures ModeOf(Versions(v)) == ModeOf(Versions(w))
  {
    FlatPermutes(v.clusters, w.clusters, VersionOf(v), VersionOf(w));
    ModeIgnoresOrder(Versions(v), Versions(w));
  }

  lemma SameNamespaces(v: World, w: World, c: Cluster)
    requires Shuffled(v, w) && c in v.clusters
    ensures !IsStale(v, c) ==> SortedNamespaces(v, c) == SortedNamespaces(w, c)
  {
    if !IsStale(v, c) { SortedStrings(Get(v.reader.namespaces, c.id), Get(w.reader.namespaces, c.id)); }
  }

  lemma SameSignatures(v: World, w: World)
    requires Shuffled(v, w)
    ensures ModeOf(Signatures(v)) == ModeOf(Signatures(w))
  {
    forall c | c in v.clusters ensures SignatureOf(v)(c) == SignatureOf(w)(c) { SameNamespaces(v, w, c); }
    FlatPermutes(v.clusters, w.clusters, SignatureOf(v), SignatureOf(w));
    ModeIgnoresOrder(Signatures(v), Signatures(w));
  }

  lemma SameHashes(v: World, w: World)
    requires Shuffled(v, w)
    ensures multiset(AllHashes(v)) == multiset(AllHashes(w))
  {
    forall c | c in v.clusters ensures multiset(HashesOf(v)(c)) == multiset(HashesOf(w)(c)) {
      if !IsStale(v, c) {
        FlatPermutes(Get(v.reader.deployments, c.id), Get(w.reader.deployments, c.id), HashOf, HashOf);
      }
    }
    FlatPermutes(v.clusters, w.clusters, HashesOf(v), HashesOf(w));
  }

  /** A deployment is judged by its peers, in whatever order they were read. */
  lemma SamePair(v: World, w: World, c: Cluster, d: Deployment, a: seq<(string, string)>, b: seq<(string, string)>)
    requires v.now == w.now && multiset(a) == multiset(b)
    ensures WorkloadPair(v, c, a)(d) == WorkloadPair(w, c, b)(d)
  {
    var key := DeploymentKey(d);
    FlatPermutes(a, b, HashUnder(key), HashUnder(key));
    SameSize(Peers(a, key), Peers(b, key));
    ModeIgnoresOrder(Peers(a, key), Peers(b, key));
  }

  lemma NoneLeft<T>(a: seq<T>, b: seq<T>)
    requires multiset(a) == multiset(b)
    ensures a == [] <==> b == []
  {
    SameSize(a, b);
  }

  lemma SamePairs(v: World, w: World, c: Cluster, ds: seq<Deployment>, es: seq<Deployment>,
                  a: seq<(string, string)>, b: seq<(string, string)>)
    requires v.now == w.now && multiset(a) == multiset(b) && multiset(ds) == multiset(es)
    ensures multiset(Flat(ds, WorkloadPair(v, c, a))) == multiset(Flat(es, WorkloadPair(w, c, b)))
  {
    forall d | d in ds ensures multiset(WorkloadPair(v, c, a)(d)) == multiset(WorkloadPair(w, c, b)(d)) {
      SamePair(v, w, c, d, a, b);
    }
    FlatPermutes(ds, es, WorkloadPair(v, c, a), WorkloadPair(w, c, b));
  }

  lemma SameWorkloads(v: World, w: World, c: Cluster, a: seq<(string, string)>, b: seq<(string, string)>)
    requires v.now == w.now && v.staleAfter == w.staleAfter && multiset(a) == multiset(b)
    requires IsStale(v, c) || SameRead(v.reader.deployments, w.reader.deployments, c.id)
    ensures multiset(WorkloadResults(v, c, a)) == multiset(WorkloadResults(w, c, b))
  {
    if !IsStale(v, c) {
      var ds, es := Get(v.reader.deployments, c.id), Get(w.reader.deployments, c.id);
      NoneLeft(ds, es);
      SamePairs(v, w, c, ds, es, a, b);
    }
  }

  lemma {:induction false} FilterPermutes<T>(a: seq<T>, keep: T -> bool)
    ensures multiset(Filter(a, keep)) == multiset(Flat(a, x => if keep(x) then [x] else []))
    decreases |a|
  {
    if a != [] { FilterPermutes(a[..|a| - 1], keep); }
  }

  lemma SameFilter<T>(a: seq<T>, b: seq<T>, keep: T -> bool)
    requires multiset(a) == multiset(b)
    ensures multiset(Filter(a, keep)) == multiset(Filter(b, keep))
  {
    var one := x => if keep(x) then [x] else [];
    FilterPermutes(a, keep);
    FilterPermutes(b, keep);
    FlatPermutes(a, b, one, one);
  }

  lemma SamePods(v: World, w: World, c: Cluster)
    requires v.now == w.now && SameRead(v.reader.pods, w.reader.pods, c.id)
    ensures multiset(PodResults(v, c)) == multiset(PodResults(w, c))
  {
    SameFilter(Get(v.reader.pods, c.id), Get(w.reader.pods, c.id), IsApplicationPod());
    NoneLeft(ApplicationPods(v, c), ApplicationPods(w, c));
    FlatPermutes(ApplicationPods(v, c), ApplicationPods(w, c), PodFinding(v, c), PodFinding(w, c));
  }

  lemma SameConfigs(v: World, w: World, c: Cluster)
    requires v.now == w.now && SameRead(v.reader.configs, w.reader.configs, c.id)
    ensures multiset(ConfigResults(v, c)) == multiset(ConfigResults(w, c))
  {
    SameFilter(Get(v.reader.configs, c.id), Get(w.reader.configs, c.id), IsApplicationNamespace());
    NoneLeft(ApplicationNamespaces(v, c), ApplicationNamespaces(w, c));
    FlatPermutes(ApplicationNamespaces(v, c), ApplicationNamespaces(w, c), ConfigFinding(v, c), ConfigFinding(w, c));
  }

  lemma SameSecurity(v: World, w: World, c: Cluster)
    requires v.now == w.now && v.staleAfter == w.staleAfter
    requires IsStale(v, c) || SameReads(v.reader, w.reader, c.id)
    ensures multiset(SecurityResults(v, c)) == multiset(SecurityResults(w, c))
  {
    if !IsStale(v, c) { SamePods(v, w, c); SameConfigs(v, w, c); }
  }

  lemma SameContribution(v: World, w: World, part: Part, c: Cluster)
    requires Shuffled(v, w) && c in v.clusters
    ensures multiset(Contribution(v, part, c)) == multiset(Contribution(w, part, c))
  {
    match part
    case VersionPart =>
      SameVersions(v, w);
      SameVersionResult(v, w, c, ModeOf(Versions(v)));
    case LabelPart => assert LabelResult(v, c) == LabelResult(w, c);
    case NamespacePart =>
      SameNamespaces(v, w, c);
      SameSignatures(v, w);
      SameNamespaceResult(v, w, c, SortedNamespaces(v, c), SortedNamespaces(w, c), ModeOf(Signatures(v)));
    case WorkloadPart =>
      SameHashes(v, w);
      SameWorkloads(v, w, c, AllHashes(v), AllHashes(w));
    case SecurityPart => SameSecurity(v, w, c);
  }

  lemma SameResults(v: World, w: World)
    requires Shuffled(v, w)
    ensures multiset(All(v)) == multiset(All(w))
  {
    forall part: Part ensures multiset(PartResults(v)(part)) == multiset(PartResults(w)(part)) {
      forall c | c in v.clusters ensures multiset(Contributions(v, part)(c)) == multiset(Contributions(w, part)(c)) {
        SameContribution(v, w, part, c);
      }
      FlatPermutes(v.clusters, w.clusters, Contributions(v, part), Contributions(w, part));
    }
    FlatPermutes(PARTS, PARTS, PartResults(v), PartResults(w));
  }

  lemma SameReadability(v: World, w: World)
    requires Shuffled(v, w)
    ensures (forall c :: c in v.clusters ==> Readable(v, c)) <==> (forall c :: c in w.clusters ==> Readable(w, c))
  {
    forall c ensures c in v.clusters <==> c in w.clusters {
      assert c in multiset(v.clusters) <==> c in multiset(w.clusters);
    }
    forall c | c in v.clusters ensures Readable(v, c) <==> Readable(w, c) { SameFreshness(v, w, c); }
  }

  /** The order in which clusters and their resources are read does not show in an evaluation. */
  lemma OrderIndependence(v: World, w: World)
    requires Shuffled(v, w) && Keyed(v)
    ensures Evaluated(v) == Evaluated(w)
  {
    SameReadability(v, w);
    SameResults(v, w);
    ResultOrders();
    forall x, y | x in All(v) && y in All(v) ensures x == y || ResultLess(x, y) || ResultLess(y, x) {
      ResultTrichotomy(x, y);
      if SameKey(x, y) { SortKeyIsUnique(v, x, y); }
    }
    SortIgnoresOrder(All(v), All(w), ResultLess);
  }

  // ---------------------------------------------------------------- stale clusters

  ghost predicate UniqueIds(w: World) {
    forall i, j :: 0 <= i < j < |w.clusters| ==> w.clusters[i].id != w.clusters[j].id
  }

  function IsFresh(w: World): Cluster -> bool { c => !IsStale(w, c) }

  /** The same snapshot without its stale clusters. */
  function FreshOnly(w: World): World { w.(clusters := Filter(w.clusters, IsFresh(w))) }

  function Current(): Result -> bool { (r: Result) => r.status != Stale }

  lemma FreshBaselines(w: World)
    ensures Versions(FreshOnly(w)) == Versions(w) && Signatures(FreshOnly(w)) == Signatures(w)
    ensures AllHashes(FreshOnly(w)) == AllHashes(w)
  {
    var v := FreshOnly(w);
    FlatSkips(w.clusters, VersionOf(w), IsFresh(w));
    FlatEqual(v.clusters, VersionOf(v), VersionOf(w));
    FlatSkips(w.clusters, SignatureOf(w), IsFresh(w));
    FlatEqual(v.clusters, SignatureOf(v), SignatureOf(w));
    FlatSkips(w.clusters, HashesOf(w), IsFresh(w));
    FlatEqual(v.clusters, HashesOf(v), HashesOf(w));
  }

  /** Without the stale clusters every remaining cluster is reported on as before. */
  lemma FreshContribution(w: World, part: Part, c: Cluster)
    ensures Contribution(FreshOnly(w), part, c) == Contribution(w, part, c)
  {
    var v := FreshOnly(w);
    FreshBaselines(w);
    match part
    case VersionPart => SameVersionResult(v, w, c, ModeOf(Versions(w)));
    case LabelPart => assert LabelResult(v, c) == LabelResult(w, c);
    case NamespacePart => SameNamespaceResult(v, w, c, SortedNamespaces(v, c), SortedNamespaces(w, c),
      ModeOf(Signatures(w)));
    case WorkloadPart => FreshWorkloads(w, c, AllHashes(w));
    case SecurityPart => FreshSecurity(w, c);
  }

  lemma FreshWorkloads(w: World, c: Cluster, hashes: seq<(string, string)>)
    ensures WorkloadResults(FreshOnly(w), c, hashes) == WorkloadResults(w, c, hashes)
  {
    FlatEqual(Get(w.reader.deployments, c.id), WorkloadPair(FreshOnly(w), c, hashes), WorkloadPair(w, c, hashes));
  }

  lemma FreshSecurity(w: World, c: Cluster)
    ensures SecurityResults(FreshOnly(w), c) == SecurityResults(w, c)
  {
    FlatEqual(ApplicationPods(w, c), PodFinding(FreshOnly(w), c), PodFinding(w, c));
    FlatEqual(ApplicationNamespaces(w, c), ConfigFinding(FreshOnly(w), c), ConfigFinding(w, c));
  }

  lemma FreshPart(w: World, part: Part)
    ensures Filter(PartResults(w)(part), Current()) == PartResults(FreshOnly(w))(part)
  {
    var v := FreshOnly(w);
    forall c, r | c in w.clusters && r in Contributions(w, part)(c) ensures Current()(r) <==> IsFresh(w)(c) {
      ResultShape(w, part, c, r);
    }
    FilterFlat(w.clusters, Contributions(w, part), IsFresh(w), Current());
    forall c | c in v.clusters ensures Contributions(v, part)(c) == Contributions(w, part)(c) {
      FreshContribution(w, part, c);
    }
    FlatEqual(v.clusters, Contributions(v, part), Contributions(w, part));
  }

  /**
    Stale clusters influence no one: taking them out of the snapshot removes the stale results and
    leaves the results of the fresh clusters as they were, in the same order.
   */
  lemma StaleNonInterference(w: World)
    ensures Evaluated(FreshOnly(w)).Some? <==> Evaluated(w).Some?
    ensures Evaluated(w).Some? ==> Evaluated(FreshOnly(w)).value == Filter(Evaluated(w).value, Current())
  {
    var v := FreshOnly(w);
    forall c ensures c in v.clusters <==> c in w.clusters && !IsStale(w, c) { FilterMember(w.clusters, IsFresh(w), c); }
    forall part | part in PARTS ensures Filter(PartResults(w)(part), Current()) == PartResults(v)(part) {
      FreshPart(w, part);
    }
    FilterEach(PARTS, PartResults(w), PartResults(v), Current());
    ResultOrders();
    FilterSort(All(w), ResultLess, Current());
  }

  // ---------------------------------------------------------------- coverage

  function About(id: ClusterId, p: Policy): Result -> bool { (r: Result) => r.subject.clusterId == id && r.policy == p }

  function AtLeastOne(n: nat): nat { if n == 0 then 1 else n }

  /** How many results a cluster owes a policy. */
  function Owed(w: World, c: Cluster, p: Policy): (n: nat)
    ensures n >= 1
  {
    if IsStale(w, c) then 1
    else match p
      case WorkloadDrift => AtLeastOne(|Get(w.reader.deployments, c.id)|)
      case WorkloadHealth => AtLeastOne(|Get(w.reader.deployments, c.id)|)
      case PodSecurity => AtLeastOne(|ApplicationPods(w, c)|)
      case NamespaceSecurity => AtLeastOne(|ApplicationNamespaces(w, c)|)
      case _ => 1
  }

  lemma CountPairs(w: World, c: Cluster, ds: seq<Deployment>, hashes: seq<(string, string)>, p: Policy)
    requires p == WorkloadDrift || p == WorkloadHealth
    ensures |Filter(Flat(ds, WorkloadPair(w, c, hashes)), About(c.id, p))| == |ds|
  {
    var one := (d: Deployment) => [WorkloadPair(w, c, hashes)(d)[if p == WorkloadDrift then 0 else 1]];
    forall d | d in ds ensures Filter(WorkloadPair(w, c, hashes)(d), About(c.id, p)) == one(d) {
      FilterTwo(WorkloadPair(w, c, hashes)(d)[0], WorkloadPair(w, c, hashes)(d)[1], About(c.id, p));
    }
    FilterEach(ds, WorkloadPair(w, c, hashes), one, About(c.id, p));
    FlatSingles(ds, one);
  }

  lemma FilterTwo<T>(x: T, y: T, keep: T -> bool)
    ensures Filter([x, y], keep) == (if keep(x) then [x] else []) + (if keep(y) then [y] else [])
  {
    FilterAppend([x], [y], keep);
    FilterOne(x, keep);
    FilterOne(y, keep);
    assert [x] + [y] == [x, y];
  }

  lemma FilterOne<T>(x: T, keep: T -> bool)
    ensures Filter([x], keep) == if keep(x) then [x] else []
  {
    assert [x][..0] == [];
  }

  lemma CountWorkloads(w: World, c: Cluster, hashes: seq<(string, string)>, p: Policy)
    requires p == WorkloadDrift || p == WorkloadHealth
    ensures |Filter(WorkloadResults(w, c, hashes), About(c.id, p))| == Owed(w, c, p)
  {
    var rs := WorkloadResults(w, c, hashes);
    if IsStale(w, c) || Get(w.reader.deployments, c.id) == [] {
      FilterTwo(rs[0], rs[1], About(c.id, p));
    } else {
      CountPairs(w, c, Get(w.reader.deployments, c.id), hashes, p);
    }
  }

  lemma CountSecurity(w: World, c: Cluster, p: Policy)
    requires p == PodSecurity || p == NamespaceSecurity
    ensures |Filter(SecurityResults(w, c), About(c.id, p))| == Owed(w, c, p)
  {
    var shown := About(c.id, p);
    if IsStale(w, c) {
      FilterTwo(SecurityResults(w, c)[0], SecurityResults(w, c)[1], shown);
    } else {
      var mine, other := if p == PodSecurity then PodResults(w, c) else ConfigResults(w, c),
                         if p == PodSecurity then ConfigResults(w, c) else PodResults(w, c);
      FlatSingles(ApplicationPods(w, c), PodFinding(w, c));
      FlatSingles(ApplicationNamespaces(w, c), ConfigFinding(w, c));
      PodPolicies(w, c);
      FilterAppend(PodResults(w, c), ConfigResults(w, c), shown);
      FilterAll(mine, shown);
      FilterNone(other, shown);
    }
  }

  lemma PodPolicies(w: World, c: Cluster)
    ensures forall r :: r in PodResults(w, c) ==> r.policy == PodSecurity && r.subject.clusterId == c.id
    ensures forall r :: r in ConfigResults(w, c) ==> r.policy == NamespaceSecurity && r.subject.clusterId == c.id
  {
    forall r | r in PodResults(w, c) ensures r.policy == PodSecurity && r.subject.clusterId == c.id {
      if ApplicationPods(w, c) != [] { var p := PodMember(w, c, r); }
    }
    forall r | r in ConfigResults(w, c) ensures r.policy == NamespaceSecurity && r.subject.clusterId == c.id {
      if ApplicationNamespaces(w, c) != [] { var n := ConfigMember(w, c, r); }
    }
  }

  lemma CountContribution(w: World, c: Cluster, p: Policy)
    ensures |Filter(Contribution(w, PartOf(p), c), About(c.id, p))| == Owed(w, c, p)
  {
    match PartOf(p)
    case VersionPart =>
      VersionShape(w, c, ModeOf(Versions(w)));
      FilterOne(VersionResult(w, c, ModeOf(Versions(w))), About(c.id, p));
    case LabelPart =>
      LabelShape(w, c);
      FilterOne(LabelResult(w, c), About(c.id, p));
    case NamespacePart =>
      NamespaceShape(w, c, SortedNamespaces(w, c), ModeOf(Signatures(w)));
      FilterOne(NamespaceResult(w, c, SortedNamespaces(w, c), ModeOf(Signatures(w))), About(c.id, p));
    case WorkloadPart => CountWorkloads(w, c, AllHashes(w), p);
    case SecurityPart => CountSecurity(w, c, p);
  }

  function IndexOfPart(part: Part): (k: nat)
    ensures k < |PARTS| && PARTS[k] == part
  {
    match part
    case VersionPart => 0
    case LabelPart => 1
    case NamespacePart => 2
    case WorkloadPart => 3
    case SecurityPart => 4
  }

  lemma PartAbout(w: World, id: ClusterId, p: Policy)
    ensures Filter(All(w), About(id, p)) == Filter(PartResults(w)(PartOf(p)), About(id, p))
  {
    var shown, k := About(id, p), IndexOfPart(PartOf(p));
    forall j, r | 0 <= j < |PARTS| && j != k && r in PartResults(w)(PARTS[j]) ensures !shown(r) {
      var c := FlatMember(w.clusters, Contributions(w, PARTS[j]), r);
      ResultShape(w, PARTS[j], c, r);
      assert PARTS[j] != PARTS[k];
    }
    FilterFlatOne(PARTS, PartResults(w), k, shown);
  }

  /** The results about one cluster and policy are those that the policy's evaluator contributes for it. */
  lemma ResultsAbout(w: World, i: nat, p: Policy)
    requires UniqueIds(w) && i < |w.clusters|
    ensures Filter(All(w), About(w.clusters[i].id, p))
         == Filter(Contribution(w, PartOf(p), w.clusters[i]), About(w.clusters[i].id, p))
  {
    var shown := About(w.clusters[i].id, p);
    PartAbout(w, w.clusters[i].id, p);
    forall j, r | 0 <= j < |w.clusters| && j != i && r in Contributions(w, PartOf(p))(w.clusters[j]) ensures !shown(r) {
      ResultShape(w, PartOf(p), w.clusters[j], r);
    }
    FilterFlatOne(w.clusters, Contributions(w, PartOf(p)), i, shown);
  }

  /**
    Every cluster is reported on under every policy: a stale one by exactly one stale result, a
    fresh one by one result for the cluster or for each of its resources, and none of them stale.
   */
  lemma Coverage(w: World, i: nat, p: Policy)
    requires UniqueIds(w) && i < |w.clusters| && Evaluated(w).Some?
    ensures var c := w.clusters[i];
      var rs := Filter(Evaluated(w).value, About(c.id, p));
      |rs| == Owed(w, c, p) && forall r :: r in rs ==> (r.status == Stale <==> IsStale(w, c))
  {
    var c := w.clusters[i];
    var shown := About(c.id, p);
    var mine := Filter(All(w), shown);
    ResultOrders();
    FilterSort(All(w), ResultLess, shown);
    SortSorts(mine, ResultLess);
    SameSize(Sort(mine, ResultLess), mine);
    ResultsAbout(w, i, p);
    CountContribution(w, c, p);
    forall r | r in Sort(mine, ResultLess) ensures r.status == Stale <==> IsStale(w, c) {
      assert r in multiset(Sort(mine, ResultLess));
      FilterMember(Contribution(w, PartOf(p), c), shown, r);
      ResultShape(w, PartOf(p), c, r);
    }
  }

  // ---------------------------------------------------------------- what the namespace baseline is

  lemma {:induction false} SplitJoin(parts: seq<string>, c: char)
    requires parts != [] && forall i :: 0 <= i < |parts| ==> c !in parts[i]
    ensures Split(Join(parts, [c]), c) == parts
    decreases |parts|
  {
    if |parts| == 1 {
      SplitPlain(parts[0], c);
    } else {
      SplitJoin(parts[1..], c);
      SplitHead(parts[0], Join(parts[1..], [c]), c);
      assert parts == [parts[0]] + parts[1..];
      assert parts[0] + [c] + Join(parts[1..], [c]) == parts[0] + ([c] + Join(parts[1..], [c]));
    }
  }

  lemma {:induction false} SplitPlain(s: string, c: char)
    requires c !in s
    ensures Split(s, c) == [s]
  {
    if s != "" {
      SplitPlain(s[1..], c);
      assert s == [s[0]] + s[1..];
    }
  }

  lemma {:induction false} SplitHead(s: string, rest: string, c: char)
    requires c !in s
    ensures Split(s + ([c] + rest), c) == [s] + Split(rest, c)
  {
    var t := s + ([c] + rest);
    if s == "" {
      assert t == [c] + rest && t[1..] == rest;
    } else {
      SplitHead(s[1..], rest, c);
      assert t[0] == s[0] && t[1..] == s[1..] + ([c] + rest);
      assert s == [s[0]] + s[1..];
      var parts := Split(t[1..], c);
      assert parts[0] == s[1..] && parts[1..] == Split(rest, c);
    }
  }

  lemma BaselineCluster(w: World) returns (d: Cluster)
    requires ModeOf(Signatures(w)) != ""
    requires forall d, n :: d in w.clusters && n in SortedNamespaces(w, d) ==> NUL !in n
    ensures d in w.clusters && !IsStale(w, d) && SplitSignature(ModeOf(Signatures(w))) == SortedNamespaces(w, d)
  {
    var signature := ModeOf(Signatures(w));
    assert signature in multiset(Signatures(w));
    d := FlatMember(w.clusters, SignatureOf(w), signature);
    SplitJoin(SortedNamespaces(w, d), NUL);
  }

  /**
    When no namespace name contains NUL, the namespace baseline is the sorted list of some fresh
    cluster, and a cluster passes exactly when its set of namespaces is the baseline's.
   */
  lemma NamespaceBaseline(w: World, c: Cluster)
    requires c in w.clusters && !IsStale(w, c) && SortedNamespaces(w, c) != [] && ModeOf(Signatures(w)) != ""
    requires forall d, n :: d in w.clusters && n in SortedNamespaces(w, d) ==> NUL !in n
    ensures exists d ::
      d in w.clusters && !IsStale(w, d) && SplitSignature(ModeOf(Signatures(w))) == SortedNamespaces(w, d)
    ensures Contribution(w, NamespacePart, c)[0].status == Pass
       <==> (forall n :: n in SortedNamespaces(w, c) <==> n in SplitSignature(ModeOf(Signatures(w))))
  {
    var signature := ModeOf(Signatures(w));
    var d := BaselineCluster(w);
    EmptyDifference(SplitSignature(signature), SortedNamespaces(w, c));
    EmptyDifference(SortedNamespaces(w, c), SplitSignature(signature));
  }

  lemma EmptyDifference(a: seq<string>, b: seq<string>)
    ensures SetDifference(a, b) == [] <==> forall n :: n in a ==> n in b
  {
    forall n ensures n in SetDifference(a, b) <==> n in a && n !in b { FilterMember(a, v => v !in b, n); }
    if SetDifference(a, b) != [] {
      assert SetDifference(a, b)[0] in SetDifference(a, b);
    }
  }

  // ---------------------------------------------------------------- what the verdicts mean

  /** The verdicts on a fresh cluster's version: known iff it has a version line, passing iff that line is the mode. */
  lemma VersionVerdict(w: World, c: Cluster)
    requires c in w.clusters && !IsStale(w, c)
    ensures var r, line := Contribution(w, VersionPart, c)[0], VersionLine(c.version);
      && (r.status == NotKnown <==> line == "")
      && (r.status == Pass <==> line != "" && IsMode(multiset(Versions(w)), line))
      && (r.status == Fail <==> line != "" && !IsMode(multiset(Versions(w)), line))
  {
    var line, baseline := VersionLine(c.version), ModeOf(Versions(w));
    if line != "" {
      FlatHas(w.clusters, VersionOf(w), c, line);
      assert line in multiset(Versions(w));
      if IsMode(multiset(Versions(w)), line) { ModeIsUnique(multiset(Versions(w)), line, baseline); }
    }
  }

  /** When any fresh cluster reports a version, some fresh cluster passes. */
  lemma SomeClusterPasses(w: World, c: Cluster) returns (d: Cluster)
    requires c in w.clusters && !IsStale(w, c) && VersionLine(c.version) != ""
    ensures d in w.clusters && !IsStale(w, d) && Contribution(w, VersionPart, d)[0].status == Pass
  {
    var baseline := ModeOf(Versions(w));
    FlatHas(w.clusters, VersionOf(w), c, VersionLine(c.version));
    assert VersionLine(c.version) in multiset(Versions(w));
    assert baseline in multiset(Versions(w));
    d := FlatMember(w.clusters, VersionOf(w), baseline);
  }

  /** Every label that is absent or blank is named as missing, and only those; none missing is a pass. */
  lemma LabelVerdict(w: World, c: Cluster)
    requires !IsStale(w, c)
    ensures forall l :: l in MissingLabels(c.labels) <==>
      l in REQUIRED_LABELS && (l !in c.labels || TrimSpace(c.labels[l]) == "")
    ensures LabelResult(w, c).status == Pass
       <==> forall l :: l in REQUIRED_LABELS ==> l in c.labels && TrimSpace(c.labels[l]) != ""
    ensures LabelResult(w, c).status != Pass ==> LabelResult(w, c).status == Fail
  {
    forall l ensures l in MissingLabels(c.labels) <==>
      l in REQUIRED_LABELS && (l !in c.labels || TrimSpace(c.labels[l]) == "") {
      FilterMember(REQUIRED_LABELS, name => name !in c.labels || TrimSpace(c.labels[name]) == "", l);
    }
    if MissingLabels(c.labels) != [] {
      assert MissingLabels(c.labels)[0] in MissingLabels(c.labels);
    }
  }

  lemma HashIsAmongPeers(w: World, c: Cluster, d: Deployment)
    requires c in w.clusters && !IsStale(w, c) && d in Get(w.reader.deployments, c.id) && d.configHash != ""
    ensures d.configHash in Peers(AllHashes(w), DeploymentKey(d))
  {
    var key := DeploymentKey(d);
    FlatHas(Get(w.reader.deployments, c.id), HashOf, d, (key, d.configHash));
    FlatHas(w.clusters, HashesOf(w), c, (key, d.configHash));
    FlatHas(AllHashes(w), HashUnder(key), (key, d.configHash), d.configHash);
  }

  /** A deployment drifts iff it has a hash and peers and the most frequent hash of its key is another one. */
  lemma DriftVerdict(w: World, c: Cluster, d: Deployment)
    requires c in w.clusters && !IsStale(w, c) && d in Get(w.reader.deployments, c.id)
    ensures var r := WorkloadPair(w, c, AllHashes(w))(d)[0];
      var peers := Peers(AllHashes(w), DeploymentKey(d));
      && (d.configHash != "" ==> d.configHash in peers)
      && (r.status == NotKnown <==> d.configHash == "" || |peers| == 1)
      && (r.status == Pass <==> d.configHash != "" && |peers| >= 2 && IsMode(multiset(peers), d.configHash))
      && (r.status == Fail <==> d.configHash != "" && |peers| >= 2 && !IsMode(multiset(peers), d.configHash))
  {
    var peers := Peers(AllHashes(w), DeploymentKey(d));
    if d.configHash != "" {
      HashIsAmongPeers(w, c, d);
      if IsMode(multiset(peers), d.configHash) { ModeIsUnique(multiset(peers), d.configHash, ModeOf(peers)); }
    }
  }

  /**
    A pod whose context is known passes iff it breaks no rule of the profile; otherwise it fails and
    the evidence names exactly the rules it breaks.
   */
  lemma PodVerdict(w: World, c: Cluster, p: Pod)
    ensures var r, broken := PodResult(w, c, p), PodSecurityViolations(p);
      && (forall rule :: rule in broken <==> Breaks(p, rule))
      && (r.status == NotKnown <==> !p.known)
      && (r.status == Pass <==> p.known && forall rule :: !Breaks(p, rule))
      && (r.status == Fail <==> p.known && exists rule :: Breaks(p, rule))
      && (r.status == Fail ==> r.actual == map["violations" := Words(Join(Flat(broken, RuleNames()), ","))])
  {
    var broken := PodSecurityViolations(p);
    forall rule ensures rule in broken <==> Breaks(p, rule) {
      FilterMember(POD_RULES, Broken(p), rule);
      assert rule in POD_RULES by { RuleListed(rule); }
    }
    if broken != [] { assert broken[0] in broken; }
  }

  lemma RuleListed(rule: PodRule)
    ensures rule in POD_RULES
  {
    match rule
    case Privileged => assert POD_RULES[0] == rule;
    case RunAsNonRoot => assert POD_RULES[1] == rule;
    case ReadOnlyRoot => assert POD_RULES[2] == rule;
    case AllowEscalation => assert POD_RULES[3] == rule;
    case DropAll => assert POD_RULES[4] == rule;
    case HostNetwork => assert POD_RULES[5] == rule;
    case HostPID => assert POD_RULES[6] == rule;
    case HostIPC => assert POD_RULES[7] == rule;
  }
}
