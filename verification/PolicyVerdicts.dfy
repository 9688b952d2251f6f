/**
  The verdicts of one evaluation, read off its final report and stated in terms of what the agents
  reported. Source: internal/policy/engine.go.
 */
module PolicyVerdicts {
  import opened Text
  import opened Fleet
  import opened Lists
  import opened Policy

  /** A heartbeat no older than the threshold. */
  predicate Fresh(w: World, c: Cluster) {
    c.lastHeartbeat.Some? && w.now <= c.lastHeartbeat.value + w.staleAfter
  }

  predicate AllRead(r: Reader, id: ClusterId) {
    id in r.namespaces && id in r.deployments && id in r.pods && id in r.configs
  }

  /** The evaluation fails exactly when something of a fresh cluster cannot be read. */
  lemma FailsExactly(w: World)
    ensures Evaluated(w) == None <==> exists c :: c in w.clusters && Fresh(w, c) && !AllRead(w.reader, c.id)
  {
    assert forall c: Cluster :: Fresh(w, c) <==> !IsStale(w, c);
  }

  // ---------------------------------------------------------------- the report

  ghost function Report(w: World): seq<Result>
    requires Evaluated(w).Some?
  {
    Evaluated(w).value
  }

  lemma Reports(w: World, part: Part, c: Cluster, r: Result)
    requires Evaluated(w).Some? && c in w.clusters && r in Contribution(w, part, c)
    ensures r in Report(w) && r in All(w)
  {
    assert part in PARTS by { assert PARTS[IndexOfPart(part)] == part; }
    FlatHas(w.clusters, Contributions(w, part), c, r);
    FlatHas(PARTS, PartResults(w), part, r);
    ResultOrders();
    SortSorts(All(w), ResultLess);
    assert r in multiset(All(w));
  }

  lemma FromAll(w: World, r: Result)
    requires Evaluated(w).Some? && r in Report(w)
    ensures r in All(w)
  {
    ResultOrders();
    SortSorts(All(w), ResultLess);
    assert r in multiset(Report(w));
  }

  /** The sort key of a result, column by column. */
  predicate Keys(r: Result, p: Policy, cluster: string, namespace: string, kind: string, name: string) {
    && r.policy == p && r.subject.clusterName == cluster && r.subject.namespace == namespace
    && r.subject.kind == kind && r.subject.name == name
  }

  predicate SameKeys(l: Result, r: Result) {
    Keys(l, r.policy, r.subject.clusterName, r.subject.namespace, r.subject.kind, r.subject.name)
  }

  /** The report has one result with a sort key. */
  ghost predicate OnlyOne(w: World, r: Result)
    requires Evaluated(w).Some?
  {
    && r in Report(w)
    && forall other :: other in Report(w) && SameKeys(other, r) ==> other == r
  }

  lemma TheOnly(w: World, part: Part, c: Cluster, r: Result)
    requires Keyed(w) && Evaluated(w).Some? && c in w.clusters && r in Contribution(w, part, c)
    ensures OnlyOne(w, r)
  {
    Reports(w, part, c, r);
    forall other | other in Report(w) && SameKeys(other, r) ensures other == r {
      FromAll(w, other);
      SortKeyIsUnique(w, other, r);
    }
  }

  /** One text is less than another if it is a proper beginning of it or smaller where they first differ. */
  lemma {:induction false} StringLessIs(a: string, b: string)
    ensures StringLess(a, b) <==> exists i: nat :: i <= |a| && DiffersAt(a, b, i)
    decreases |a|
  {
    if a != "" && b != "" && a[0] == b[0] {
      StringLessIs(a[1..], b[1..]);
      if i: nat :| i <= |a[1..]| && DiffersAt(a[1..], b[1..], i) { OneLater(a, b, i); }
      if i: nat :| i <= |a| && DiffersAt(a, b, i) { OneEarlier(a, b, i); }
    } else if StringLess(a, b) {
      assert DiffersAt(a, b, 0);
    }
  }

  /** The texts agree up to i, and there the first one ends or has the smaller character. */
  predicate DiffersAt(a: string, b: string, i: nat) {
    i <= |a| && i < |b| && a[..i] == b[..i] && (i == |a| || a[i] < b[i])
  }

  lemma OneLater(a: string, b: string, i: nat)
    requires a != "" && b != "" && a[0] == b[0] && DiffersAt(a[1..], b[1..], i)
    ensures DiffersAt(a, b, i + 1)
  {
    assert a[..i + 1] == [a[0]] + a[1..][..i] && b[..i + 1] == [b[0]] + b[1..][..i];
  }

  lemma OneEarlier(a: string, b: string, i: nat)
    requires a != "" && b != "" && a[0] == b[0] && DiffersAt(a, b, i)
    ensures i > 0 && DiffersAt(a[1..], b[1..], i - 1)
  {
    assert a[1..][..i - 1] == a[..i][1..] && b[1..][..i - 1] == b[..i][1..];
  }

  /** The place of a policy's results in the report. */
  function Rank(p: Policy): nat {
    match p
    case KubernetesVersion => 0
    case NamespaceDrift => 1
    case NamespaceSecurity => 2
    case PodSecurity => 3
    case RequiredLabels => 4
    case WorkloadHealth => 5
    case WorkloadDrift => 6
  }

  function Ranked(): seq<Policy> {
    [KubernetesVersion, NamespaceDrift, NamespaceSecurity, PodSecurity, RequiredLabels, WorkloadHealth, WorkloadDrift]
  }

  lemma LessAt(a: string, b: string, i: nat)
    requires DiffersAt(a, b, i)
    ensures StringLess(a, b)
  {
    StringLessIs(a, b);
  }

  lemma NextRank(k: nat)
    requires k < 6
    ensures StringLess(Id(Ranked()[k]), Id(Ranked()[k + 1]))
  {
    var at := [0, 10, 0, 0, 0, 9];
    assert DiffersAt(Id(Ranked()[k]), Id(Ranked()[k + 1]), at[k]);
    LessAt(Id(Ranked()[k]), Id(Ranked()[k + 1]), at[k]);
  }

  lemma {:induction false} LaterRank(j: nat, k: nat)
    requires j < k < 7
    ensures StringLess(Id(Ranked()[j]), Id(Ranked()[k]))
  {
    NextRank(k - 1);
    if j < k - 1 {
      LaterRank(j, k - 1);
      StringTransitive(Id(Ranked()[j]), Id(Ranked()[k - 1]), Id(Ranked()[k]));
    }
  }

  /** The ids put the policies in this order. */
  lemma PolicyOrder(p: Policy, q: Policy)
    ensures StringLess(Id(p), Id(q)) <==> Rank(p) < Rank(q)
  {
    if Rank(p) < Rank(q) {
      LaterRank(Rank(p), Rank(q));
    } else if Rank(q) < Rank(p) {
      LaterRank(Rank(q), Rank(p));
      StringTrichotomy(Id(p), Id(q));
    } else {
      StringTrichotomy(Id(p), Id(p));
    }
  }

  /** The report is in the order of policy id, cluster name, namespace, kind and name. */
  lemma ReportIsSorted(w: World, i: nat, j: nat)
    requires Evaluated(w).Some? && i < j < |Report(w)|
    ensures var l, r := Report(w)[i], Report(w)[j];
      || Rank(l.policy) < Rank(r.policy)
      || (l.policy == r.policy && StringLess(l.subject.clusterName, r.subject.clusterName))
      || (l.policy == r.policy && l.subject.clusterName == r.subject.clusterName
          && StringLess(l.subject.namespace, r.subject.namespace))
      || (l.policy == r.policy && l.subject.clusterName == r.subject.clusterName
          && l.subject.namespace == r.subject.namespace && StringLess(l.subject.kind, r.subject.kind))
      || (l.policy == r.policy && l.subject.clusterName == r.subject.clusterName
          && l.subject.namespace == r.subject.namespace && l.subject.kind == r.subject.kind
          && !StringLess(r.subject.name, l.subject.name))
  {
    var l, r := Report(w)[i], Report(w)[j];
    ResultOrders();
    SortSorts(All(w), ResultLess);
    assert !ResultLess(r, l);
    if l.policy != r.policy { IdsDiffer(l.policy, r.policy); }
    StringTrichotomy(Id(l.policy), Id(r.policy));
    PolicyOrder(l.policy, r.policy);
    StringTrichotomy(l.subject.clusterName, r.subject.clusterName);
    StringTrichotomy(l.subject.namespace, r.subject.namespace);
    StringTrichotomy(l.subject.kind, r.subject.kind);
  }

  /** It names the cluster, its last heartbeat and the time of the evaluation. */
  predicate Stamped(r: Result, w: World, c: Cluster) {
    r.subject.clusterId == c.id && r.observedAt == c.lastHeartbeat && r.evaluatedAt == w.now
  }

  /** Every result about a stale cluster says so. */
  lemma StaleVerdict(w: World, c: Cluster, p: Policy)
    requires Keyed(w) && Evaluated(w).Some? && c in w.clusters && !Fresh(w, c)
    ensures exists r :: r in Report(w) && Keys(r, p, c.name, "", "", "") && r.status == Stale && Stamped(r, w, c)
                        && r.expected == map["freshWithin" := Duration(w.staleAfter)]
  {
    var r := StaleFinding(w, p, c);
    Staleness(w, c, p);
    TheOnly(w, PartOf(p), c, r);
    assert Keys(r, p, c.name, "", "", "");
  }

  lemma Staleness(w: World, c: Cluster, p: Policy)
    requires !Fresh(w, c)
    ensures StaleFinding(w, p, c) in Contribution(w, PartOf(p), c)
  {
  }

  // ---------------------------------------------------------------- workload availability

  /** Available exactly if desired, updated and available replicas are equal, with these numbers as evidence. */
  predicate Availability(r: Result, d: Deployment) {
    && (r.status == Pass <==> d.desired == d.updated == d.available)
    && (r.status == Fail <==> d.desired != d.updated || d.desired != d.available)
    && r.actual == map["desiredReplicas" := Number(d.desired), "updatedReplicas" := Number(d.updated),
                       "availableReplicas" := Number(d.available)]
    && r.expected == map["updatedReplicas" := Number(d.desired), "availableReplicas" := Number(d.desired)]
    && r.message == (if r.status == Pass then ReplicasAvailable else ReplicasNotAvailable)
  }

  lemma AvailabilityColumns(w: World, c: Cluster, d: Deployment)
    ensures var r := HealthResult(w, c, d);
      && Keys(r, WorkloadHealth, c.name, d.namespace, "Deployment", d.name)
      && Availability(r, d) && Stamped(r, w, c)
  {
  }

  lemma PairIs(w: World, c: Cluster, d: Deployment)
    ensures var pair := WorkloadPair(w, c, AllHashes(w))(d);
      |pair| == 2 && pair[0] == DriftOf(w, c, d) && pair[1] == HealthResult(w, c, d)
  {
  }

  lemma WorkloadsAre(w: World, c: Cluster)
    requires Fresh(w, c) && c.id in w.reader.deployments && w.reader.deployments[c.id] != []
    ensures Contribution(w, WorkloadPart, c) == Flat(w.reader.deployments[c.id], WorkloadPair(w, c, AllHashes(w)))
  {
  }

  lemma PairContributes(w: World, c: Cluster, d: Deployment, k: nat)
    requires Fresh(w, c) && c.id in w.reader.deployments && d in w.reader.deployments[c.id] && k < 2
    ensures WorkloadPair(w, c, AllHashes(w))(d)[k] in Contribution(w, WorkloadPart, c)
  {
    var pair := WorkloadPair(w, c, AllHashes(w));
    FlatHas(w.reader.deployments[c.id], pair, d, pair(d)[k]);
    WorkloadsAre(w, c);
  }

  /** Both results of a deployment are contributed. */
  lemma DeploymentContributes(w: World, c: Cluster, d: Deployment)
    requires Fresh(w, c) && c.id in w.reader.deployments && d in w.reader.deployments[c.id]
    ensures HealthResult(w, c, d) in Contribution(w, WorkloadPart, c)
    ensures DriftOf(w, c, d) in Contribution(w, WorkloadPart, c)
  {
    PairIs(w, c, d);
    PairContributes(w, c, d, 0);
    PairContributes(w, c, d, 1);
  }

  ghost function DriftOf(w: World, c: Cluster, d: Deployment): Result {
    var peers := Peers(AllHashes(w), DeploymentKey(d));
    DriftResult(w, c, d, ModeOf(peers), |peers|)
  }

  lemma AvailabilityReported(w: World, c: Cluster, d: Deployment) returns (r: Result)
    requires Keyed(w) && Evaluated(w).Some? && c in w.clusters && Fresh(w, c)
    requires c.id in w.reader.deployments && d in w.reader.deployments[c.id]
    ensures Keys(r, WorkloadHealth, c.name, d.namespace, "Deployment", d.name)
    ensures OnlyOne(w, r) && Availability(r, d) && Stamped(r, w, c)
  {
    r := HealthResult(w, c, d);
    AvailabilityColumns(w, c, d);
    DeploymentContributes(w, c, d);
    TheOnly(w, WorkloadPart, c, r);
  }

  /** The report has one availability result for every deployment of a fresh cluster, with that verdict. */
  lemma AvailabilityVerdict(w: World, c: Cluster, d: Deployment)
    requires Keyed(w) && Evaluated(w).Some? && c in w.clusters && Fresh(w, c)
    requires c.id in w.reader.deployments && d in w.reader.deployments[c.id]
    ensures exists r :: r in Report(w) && Keys(r, WorkloadHealth, c.name, d.namespace, "Deployment", d.name)
    ensures forall r :: r in Report(w) && Keys(r, WorkloadHealth, c.name, d.namespace, "Deployment", d.name) ==>
      Availability(r, d) && Stamped(r, w, c)
  {
    var r := AvailabilityReported(w, c, d);
  }

  /** A fresh cluster without deployments is reported as unknown under both workload policies. */
  lemma NoDeploymentsVerdict(w: World, c: Cluster, p: Policy)
    requires Keyed(w) && Evaluated(w).Some? && c in w.clusters && Fresh(w, c)
    requires p == WorkloadDrift || p == WorkloadHealth
    requires c.id in w.reader.deployments && w.reader.deployments[c.id] == []
    ensures exists r :: r in Report(w) && Keys(r, p, c.name, "", "", "") && r.status == NotKnown
  {
    var rs := WorkloadResults(w, c, AllHashes(w));
    var r := rs[if p == WorkloadDrift then 0 else 1];
    assert r in rs;
    TheOnly(w, WorkloadPart, c, r);
    assert Keys(r, p, c.name, "", "", "");
  }

  // ---------------------------------------------------------------- security

  predicate IsApplication(namespace: string) {
    && namespace != "kube-system" && namespace != "kube-public"
    && namespace != "kube-node-lease" && namespace != "kfleet-system"
  }

  /** What a namespace's label says, or nothing. */
  function Enforced(n: Namespace): string {
    if "pod-security.kubernetes.io/enforce" in n.labels then n.labels["pod-security.kubernetes.io/enforce"] else ""
  }

  predicate Enforcement(r: Result, n: Namespace) {
    && (r.status == Pass <==> Enforced(n) == "baseline" || Enforced(n) == "restricted")
    && (r.status == Fail <==> Enforced(n) != "baseline" && Enforced(n) != "restricted")
    && r.actual == map["pod-security.kubernetes.io/enforce" := Words(Enforced(n))]
    && r.expected == map["pod-security.kubernetes.io/enforce" := Words("baseline|restricted")]
    && r.message == (if r.status == Pass then NamespaceEnforces else NamespaceDoesNotEnforce)
  }

  lemma EnforcementColumns(w: World, c: Cluster, n: Namespace)
    ensures var r := ConfigResult(w, c, n);
      && Keys(r, NamespaceSecurity, c.name, n.name, "Namespace", n.name)
      && Enforcement(r, n) && Stamped(r, w, c)
  {
  }

  lemma NamespaceContributes(w: World, c: Cluster, n: Namespace)
    requires Fresh(w, c) && IsApplication(n.name) && c.id in w.reader.configs && n in w.reader.configs[c.id]
    ensures ConfigResult(w, c, n) in Contribution(w, SecurityPart, c)
  {
    FilterMember(w.reader.configs[c.id], IsApplicationNamespace(), n);
    FlatHas(ApplicationNamespaces(w, c), ConfigFinding(w, c), n, ConfigResult(w, c, n));
    assert ConfigResult(w, c, n) in ConfigResults(w, c);
  }

  lemma EnforcementReported(w: World, c: Cluster, n: Namespace) returns (r: Result)
    requires Keyed(w) && Evaluated(w).Some? && c in w.clusters && Fresh(w, c) && IsApplication(n.name)
    requires c.id in w.reader.configs && n in w.reader.configs[c.id]
    ensures Keys(r, NamespaceSecurity, c.name, n.name, "Namespace", n.name)
    ensures OnlyOne(w, r) && Enforcement(r, n) && Stamped(r, w, c)
  {
    r := ConfigResult(w, c, n);
    EnforcementColumns(w, c, n);
    NamespaceContributes(w, c, n);
    TheOnly(w, SecurityPart, c, r);
  }

  /** An application namespace of a fresh cluster passes exactly if it enforces one of the two standards. */
  lemma NamespaceSecurityVerdict(w: World, c: Cluster, n: Namespace)
    requires Keyed(w) && Evaluated(w).Some? && c in w.clusters && Fresh(w, c) && IsApplication(n.name)
    requires c.id in w.reader.configs && n in w.reader.configs[c.id]
    ensures exists r :: r in Report(w) && Keys(r, NamespaceSecurity, c.name, n.name, "Namespace", n.name)
    ensures forall r :: r in Report(w) && Keys(r, NamespaceSecurity, c.name, n.name, "Namespace", n.name) ==>
      Enforcement(r, n) && Stamped(r, w, c)
  {
    var r := EnforcementReported(w, c, n);
  }

  /** The restricted profile. */
  predicate IsRestricted(p: Pod) {
    && !p.privileged && p.runAsNonRoot && p.readOnlyRoot && !p.allowsEscalation && p.droppedAll
    && !p.hostNetwork && !p.hostPID && !p.hostIPC
  }

  /** What the profile asks of a pod, each with whether the pod fails it and its name in the evidence. */
  function Checks(p: Pod): seq<(bool, string)> {
    [(p.privileged, "privileged"), (!p.runAsNonRoot, "runAsNonRoot"), (!p.readOnlyRoot, "readOnlyRootFilesystem"),
     (p.allowsEscalation, "allowPrivilegeEscalation"), (!p.droppedAll, "dropAllCapabilities"),
     (p.hostNetwork, "hostNetwork"), (p.hostPID, "hostPID"), (p.hostIPC, "hostIPC")]
  }

  /** The names of the failed checks, in order. */
  function FailedNames(checks: seq<(bool, string)>): seq<string> {
    if checks == [] then []
    else
      var n := |checks| - 1;
      if checks[n].0 then FailedNames(checks[..n]) + [checks[n].1] else FailedNames(checks[..n])
  }

  lemma CheckIs(p: Pod, n: nat)
    requires n < 8
    ensures Checks(p)[n] == (Breaks(p, POD_RULES[n]), RuleName(POD_RULES[n]))
  {
    assert n == 0 || n == 1 || n == 2 || n == 3 || n == 4 || n == 5 || n == 6 || n == 7;
  }

  lemma {:induction false} ViolationsUpTo(p: Pod, n: nat)
    requires n <= 8
    ensures Flat(Filter(POD_RULES[..n], Broken(p)), RuleNames()) == FailedNames(Checks(p)[..n])
  {
    if n > 0 {
      var found := if Breaks(p, POD_RULES[n - 1]) then [POD_RULES[n - 1]] else [];
      ViolationsUpTo(p, n - 1);
      FilterStep(POD_RULES, n - 1, Broken(p));
      FlatAppend(Filter(POD_RULES[..n - 1], Broken(p)), found, RuleNames());
      assert found != [] ==> found[..0] == [];
      CheckIs(p, n - 1);
      assert Checks(p)[..n][..n - 1] == Checks(p)[..n - 1];
    }
  }

  lemma ViolationsAre(p: Pod)
    ensures Flat(PodSecurityViolations(p), RuleNames()) == FailedNames(Checks(p))
  {
    ViolationsUpTo(p, 8);
    assert POD_RULES[..8] == POD_RULES && Checks(p)[..8] == Checks(p);
  }

  lemma RestrictedIs(p: Pod)
    ensures IsRestricted(p) <==> forall rule :: !Breaks(p, rule)
  {
    if forall rule :: !Breaks(p, rule) {
      assert !Breaks(p, Privileged) && !Breaks(p, RunAsNonRoot) && !Breaks(p, ReadOnlyRoot);
      assert !Breaks(p, AllowEscalation) && !Breaks(p, DropAll);
      assert !Breaks(p, HostNetwork) && !Breaks(p, HostPID) && !Breaks(p, HostIPC);
    }
  }

  predicate Restriction(r: Result, p: Pod) {
    && (r.status == NotKnown <==> !p.known)
    && (r.status == Pass <==> p.known && IsRestricted(p))
    && (r.status == Fail <==> p.known && !IsRestricted(p))
    && (r.status == Fail ==> r.actual == map["violations" := Words(Join(FailedNames(Checks(p)), ","))])
    && (r.status != NotKnown ==> r.expected == map["profile" := Words("restricted")])
    && r.message == (if r.status == NotKnown then ContextNotReported
                     else if r.status == Pass then PodMeetsProfile else PodViolatesProfile)
  }

  lemma PodColumns(w: World, c: Cluster, p: Pod)
    ensures var r := PodResult(w, c, p);
      Keys(r, PodSecurity, c.name, p.namespace, "Pod", p.name) && Restriction(r, p) && Stamped(r, w, c)
  {
    PodVerdict(w, c, p);
    ViolationsAre(p);
    RestrictedIs(p);
  }

  lemma PodContributes(w: World, c: Cluster, p: Pod)
    requires Fresh(w, c) && IsApplication(p.namespace) && c.id in w.reader.pods && p in w.reader.pods[c.id]
    ensures PodResult(w, c, p) in Contribution(w, SecurityPart, c)
  {
    FilterMember(w.reader.pods[c.id], IsApplicationPod(), p);
    FlatHas(ApplicationPods(w, c), PodFinding(w, c), p, PodResult(w, c, p));
    assert PodResult(w, c, p) in PodResults(w, c);
  }

  lemma RestrictionReported(w: World, c: Cluster, p: Pod) returns (r: Result)
    requires Keyed(w) && Evaluated(w).Some? && c in w.clusters && Fresh(w, c) && IsApplication(p.namespace)
    requires c.id in w.reader.pods && p in w.reader.pods[c.id]
    ensures Keys(r, PodSecurity, c.name, p.namespace, "Pod", p.name)
    ensures OnlyOne(w, r) && Restriction(r, p) && Stamped(r, w, c)
  {
    r := PodResult(w, c, p);
    PodColumns(w, c, p);
    PodContributes(w, c, p);
    TheOnly(w, SecurityPart, c, r);
  }

  /** A pod of an application namespace passes exactly if it is known to keep to the restricted profile. */
  lemma PodSecurityVerdict(w: World, c: Cluster, p: Pod)
    requires Keyed(w) && Evaluated(w).Some? && c in w.clusters && Fresh(w, c) && IsApplication(p.namespace)
    requires c.id in w.reader.pods && p in w.reader.pods[c.id]
    ensures exists r :: r in Report(w) && Keys(r, PodSecurity, c.name, p.namespace, "Pod", p.name)
    ensures forall r :: r in Report(w) && Keys(r, PodSecurity, c.name, p.namespace, "Pod", p.name) ==>
      Restriction(r, p) && Stamped(r, w, c)
  {
    var r := RestrictionReported(w, c, p);
  }

  /** Without pods or namespaces of applications a fresh cluster is reported as unknown. */
  lemma NoApplicationsVerdict(w: World, c: Cluster)
    requires Keyed(w) && Evaluated(w).Some? && c in w.clusters && Fresh(w, c)
    requires c.id in w.reader.pods && c.id in w.reader.configs
    ensures (forall p :: p in w.reader.pods[c.id] ==> !IsApplication(p.namespace)) ==>
      exists r :: r in Report(w) && Keys(r, PodSecurity, c.name, "", "", "") && r.status == NotKnown
    ensures (forall n :: n in w.reader.configs[c.id] ==> !IsApplication(n.name)) ==>
      exists r :: r in Report(w) && Keys(r, NamespaceSecurity, c.name, "", "", "") && r.status == NotKnown
  {
    if forall p :: p in w.reader.pods[c.id] ==> !IsApplication(p.namespace) {
      FilterNone(w.reader.pods[c.id], IsApplicationPod());
      var r := PodResults(w, c)[0];
      assert r in PodResults(w, c);
      TheOnly(w, SecurityPart, c, r);
      assert Keys(r, PodSecurity, c.name, "", "", "");
    }
    if forall n :: n in w.reader.configs[c.id] ==> !IsApplication(n.name) {
      FilterNone(w.reader.configs[c.id], IsApplicationNamespace());
      var r := ConfigResults(w, c)[0];
      assert r in ConfigResults(w, c);
      TheOnly(w, SecurityPart, c, r);
      assert Keys(r, NamespaceSecurity, c.name, "", "", "");
    }
  }
}
