/**
  The engine's loops, proved to compute what `Policy` says an evaluation reports.
  Source: internal/policy/engine.go.
 */
module PolicyEngine {
  import opened Text
  import opened Fleet
  import opened Lists
  import opened Policy

  ghost predicate Counted(counts: map<string, nat>, values: multiset<string>) {
    forall v :: v != "" ==> (if v in counts then counts[v] else 0) == values[v]
  }

  lemma CountOne(counts: map<string, nat>, values: multiset<string>, value: string)
    requires Counted(counts, values) && value != ""
    ensures Counted(counts[value := values[value] + 1], values + multiset{value})
  {
  }

  ghost predicate Leads(values: multiset<string>, best: string, bestCount: nat) {
    IsMode(values, best) && bestCount == if best == "" then 0 else values[best]
  }

  lemma LeadStep(values: multiset<string>, best: string, bestCount: nat, value: string, count: nat)
    requires Leads(values, best, bestCount) && value != "" && count == values[value] + 1
    ensures if count > bestCount || (count == bestCount && StringLess(value, best))
            then Leads(values + multiset{value}, value, count) else Leads(values + multiset{value}, best, bestCount)
  {
    ModeStep(values, best, value);
  }

  lemma BlankStep(counts: map<string, nat>, values: multiset<string>, best: string, bestCount: nat)
    requires Counted(counts, values) && Leads(values, best, bestCount)
    ensures Counted(counts, values + multiset{""}) && Leads(values + multiset{""}, best, bestCount)
  {
  }

  lemma SeenStep(values: seq<string>, i: nat)
    requires i < |values|
    ensures multiset(values[..i + 1]) == multiset(values[..i]) + multiset{values[i]}
  {
    LastOut(values[..i + 1]);
    assert values[..i + 1][..i] == values[..i];
  }

  /** mode */
  method Mode(values: seq<string>) returns (best: string)
    ensures best == ModeOf(values)
  {
    var counts: map<string, nat> := map[];
    var bestCount: nat := 0;
    best := "";
    ghost var seen: multiset<string> := multiset{};
    for i := 0 to |values|
      invariant seen == multiset(values[..i])
      invariant Leads(seen, best, bestCount) && Counted(counts, seen)
    {
      var value := values[i];
      SeenStep(values, i);
      if value == "" {
        BlankStep(counts, seen, best, bestCount);
      } else {
        var count := (if value in counts then counts[value] else 0) + 1;
        LeadStep(seen, best, bestCount, value, count);
        CountOne(counts, seen, value);
        counts := counts[value := count];
        if count > bestCount || (count == bestCount && StringLess(value, best)) {
          best, bestCount := value, count;
        }
      }
      seen := seen + multiset{value};
    }
    assert values[..|values|] == values;
    ModeIsUnique(multiset(values), best, ModeOf(values));
  }

  /** setDifference */
  method Difference(left: seq<string>, right: seq<string>) returns (result: seq<string>)
    ensures result == SetDifference(left, right)
    ensures forall v :: v in result <==> v in left && v !in right
  {
    var rightSet: set<string> := {};
    for i := 0 to |right|
      invariant forall v :: v in rightSet <==> v in right[..i]
    {
      rightSet := rightSet + {right[i]};
    }
    result := [];
    for i := 0 to |left|
      invariant result == Filter(left[..i], v => v !in right)
    {
      FilterStep(left, i, v => v !in right);
      if left[i] !in rightSet { result := result + [left[i]]; }
    }
    assert left[..|left|] == left;
    forall v ensures v in result <==> v in left && v !in right { FilterMember(left, v => v !in right, v); }
  }

  method EvaluateVersions(w: World) returns (results: seq<Result>)
    ensures results == PartResults(w)(VersionPart)
  {
    var freshVersions: seq<string> := [];
    for i := 0 to |w.clusters|
      invariant freshVersions == Flat(w.clusters[..i], VersionOf(w))
    {
      FlatStep(w.clusters, i, VersionOf(w));
      var cluster := w.clusters[i];
      if !IsStale(w, cluster) && VersionLine(cluster.version) != "" {
        freshVersions := freshVersions + [VersionLine(cluster.version)];
      }
    }
    assert w.clusters[..|w.clusters|] == w.clusters;
    var expected := Mode(freshVersions);
    results := [];
    for i := 0 to |w.clusters|
      invariant results == Flat(w.clusters[..i], Contributions(w, VersionPart))
    {
      FlatStep(w.clusters, i, Contributions(w, VersionPart));
      results := results + [VersionResult(w, w.clusters[i], expected)];
    }
  }

  method EvaluateLabels(w: World) returns (results: seq<Result>)
    ensures results == PartResults(w)(LabelPart)
  {
    results := [];
    for i := 0 to |w.clusters|
      invariant results == Flat(w.clusters[..i], Contributions(w, LabelPart))
    {
      FlatStep(w.clusters, i, Contributions(w, LabelPart));
      results := results + [LabelResult(w, w.clusters[i])];
    }
    assert w.clusters[..|w.clusters|] == w.clusters;
  }

  predicate CanRead<T>(w: World, c: Cluster, m: map<ClusterId, seq<T>>) { IsStale(w, c) || c.id in m }

  method CollectSignatures(w: World) returns (ok: bool, signatures: seq<string>)
    ensures ok <==> forall c :: c in w.clusters ==> CanRead(w, c, w.reader.namespaces)
    ensures ok ==> signatures == Signatures(w)
  {
    signatures := [];
    for i := 0 to |w.clusters|
      invariant forall c :: c in w.clusters[..i] ==> CanRead(w, c, w.reader.namespaces)
      invariant signatures == Flat(w.clusters[..i], SignatureOf(w))
    {
      FlatStep(w.clusters, i, SignatureOf(w));
      var cluster := w.clusters[i];
      if IsStale(w, cluster) { continue; }
      if cluster.id !in w.reader.namespaces {
        assert cluster in w.clusters && !CanRead(w, cluster, w.reader.namespaces);
        return false, signatures;
      }
      var namespaces := SortedNamespaces(w, cluster);
      if |namespaces| > 0 { signatures := signatures + [Join(namespaces, [NUL])]; }
    }
    assert w.clusters[..|w.clusters|] == w.clusters;
    ok := true;
  }

  method EvaluateNamespaces(w: World) returns (ok: bool, results: seq<Result>)
    ensures ok <==> forall c :: c in w.clusters ==> CanRead(w, c, w.reader.namespaces)
    ensures ok ==> results == PartResults(w)(NamespacePart)
  {
    results := [];
    var signatures;
    ok, signatures := CollectSignatures(w);
    if !ok { return; }
    var baseline := Mode(signatures);
    for i := 0 to |w.clusters|
      invariant results == Flat(w.clusters[..i], Contributions(w, NamespacePart))
    {
      FlatStep(w.clusters, i, Contributions(w, NamespacePart));
      results := results + [NamespaceResult(w, w.clusters[i], SortedNamespaces(w, w.clusters[i]), baseline)];
    }
    assert w.clusters[..|w.clusters|] == w.clusters;
  }

  /** The map from deployment keys to the hashes reported under them. */
  ghost predicate Grouped(hashes: map<string, seq<string>>, pairs: seq<(string, string)>) {
    forall key :: Get(hashes, key) == Peers(pairs, key)
  }

  lemma GroupOne(hashes: map<string, seq<string>>, pairs: seq<(string, string)>, key: string, hash: string)
    requires Grouped(hashes, pairs)
    ensures Grouped(hashes[key := Get(hashes, key) + [hash]], pairs + [(key, hash)])
  {
    Snoc(pairs, (key, hash));
    forall k ensures Peers(pairs + [(key, hash)], k) == if k == key then Peers(pairs, k) + [hash] else Peers(pairs, k) {
      assert Peers(pairs, k) + [] == Peers(pairs, k);
    }
  }

  method CollectHashes(deployments: seq<Deployment>, before: map<string, seq<string>>,
      ghost pairs: seq<(string, string)>)
    returns (hashes: map<string, seq<string>>)
    requires Grouped(before, pairs)
    ensures Grouped(hashes, pairs + Flat(deployments, HashOf))
  {
    hashes := before;
    assert pairs + [] == pairs;
    for i := 0 to |deployments|
      invariant Grouped(hashes, pairs + Flat(deployments[..i], HashOf))
    {
      FlatStep(deployments, i, HashOf);
      ghost var sofar := pairs + Flat(deployments[..i], HashOf);
      var d := deployments[i];
      assert pairs + (Flat(deployments[..i], HashOf) + HashOf(d)) == sofar + HashOf(d);
      if d.configHash != "" {
        var key := DeploymentKey(d);
        GroupOne(hashes, sofar, key, d.configHash);
        hashes := hashes[key := Get(hashes, key) + [d.configHash]];
      } else {
        assert sofar + [] == sofar;
      }
    }
    assert deployments[..|deployments|] == deployments;
  }

  method EvaluateDeployments(w: World, c: Cluster, deployments: seq<Deployment>, hashes: map<string, seq<string>>,
                             ghost pairs: seq<(string, string)>) returns (results: seq<Result>)
    requires Grouped(hashes, pairs)
    ensures results == Flat(deployments, WorkloadPair(w, c, pairs))
  {
    results := [];
    for i := 0 to |deployments|
      invariant results == Flat(deployments[..i], WorkloadPair(w, c, pairs))
    {
      FlatStep(deployments, i, WorkloadPair(w, c, pairs));
      var d := deployments[i];
      var peers := Get(hashes, DeploymentKey(d));
      var baseline := Mode(peers);
      var drift, health := DriftResult(w, c, d, baseline, |peers|), HealthResult(w, c, d);
      assert WorkloadPair(w, c, pairs)(d) == [drift, health];
      results := results + [drift, health];
    }
    assert deployments[..|deployments|] == deployments;
  }

  method GroupHashes(w: World) returns (ok: bool, hashes: map<string, seq<string>>)
    ensures ok <==> forall c :: c in w.clusters ==> CanRead(w, c, w.reader.deployments)
    ensures ok ==> Grouped(hashes, AllHashes(w))
  {
    hashes := map[];
    for i := 0 to |w.clusters|
      invariant forall c :: c in w.clusters[..i] ==> CanRead(w, c, w.reader.deployments)
      invariant Grouped(hashes, Flat(w.clusters[..i], HashesOf(w)))
    {
      FlatStep(w.clusters, i, HashesOf(w));
      ghost var pairs := Flat(w.clusters[..i], HashesOf(w));
      var cluster := w.clusters[i];
      if IsStale(w, cluster) {
        assert pairs + [] == pairs;
        continue;
      }
      if cluster.id !in w.reader.deployments {
        assert cluster in w.clusters && !CanRead(w, cluster, w.reader.deployments);
        return false, hashes;
      }
      hashes := CollectHashes(w.reader.deployments[cluster.id], hashes, pairs);
    }
    assert w.clusters[..|w.clusters|] == w.clusters;
    ok := true;
  }

  method EvaluateCluster(w: World, c: Cluster, hashes: map<string, seq<string>>, ghost pairs: seq<(string, string)>)
    returns (results: seq<Result>)
    requires Grouped(hashes, pairs)
    ensures results == WorkloadResults(w, c, pairs)
  {
    if IsStale(w, c) {
      return [StaleFinding(w, WorkloadDrift, c), StaleFinding(w, WorkloadHealth, c)];
    }
    var deployments := Get(w.reader.deployments, c.id);
    if |deployments| == 0 {
      return [Finding(w, WorkloadDrift, c, NotKnown, NoConfiguration, map[], map[]),
              Finding(w, WorkloadHealth, c, NotKnown, NoDeployments, map[], map[])];
    }
    results := EvaluateDeployments(w, c, deployments, hashes, pairs);
  }

  method EvaluateWorkloads(w: World) returns (ok: bool, results: seq<Result>)
    ensures ok <==> forall c :: c in w.clusters ==> CanRead(w, c, w.reader.deployments)
    ensures ok ==> results == PartResults(w)(WorkloadPart)
  {
    results := [];
    var hashes: map<string, seq<string>>;
    ok, hashes := GroupHashes(w);
    if !ok { return; }
    for i := 0 to |w.clusters|
      invariant results == Flat(w.clusters[..i], Contributions(w, WorkloadPart))
    {
      FlatStep(w.clusters, i, Contributions(w, WorkloadPart));
      var judged := EvaluateCluster(w, w.clusters[i], hashes, AllHashes(w));
      results := results + judged;
    }
    assert w.clusters[..|w.clusters|] == w.clusters;
  }

  /** One check of podSecurityViolations, the i-th. */
  method Check(p: Pod, i: nat, before: seq<PodRule>, broken: bool) returns (violations: seq<PodRule>)
    requires i < |POD_RULES| && broken == Breaks(p, POD_RULES[i])
    requires before == Filter(POD_RULES[..i], Broken(p))
    ensures violations == Filter(POD_RULES[..i + 1], Broken(p))
  {
    violations := before;
    FilterStep(POD_RULES, i, Broken(p));
    if broken { violations := violations + [POD_RULES[i]]; }
  }

  method ContainerViolations(p: Pod) returns (violations: seq<PodRule>)
    ensures violations == Filter(POD_RULES[..5], Broken(p))
  {
    violations := [];
    violations := Check(p, 0, violations, p.privileged);
    violations := Check(p, 1, violations, !p.runAsNonRoot);
    violations := Check(p, 2, violations, !p.readOnlyRoot);
    violations := Check(p, 3, violations, p.allowsEscalation);
    violations := Check(p, 4, violations, !p.droppedAll);
  }

  /** podSecurityViolations: the container's settings, then the host namespaces. */
  method PodViolations(p: Pod) returns (violations: seq<PodRule>)
    ensures violations == PodSecurityViolations(p)
  {
    violations := ContainerViolations(p);
    violations := Check(p, 5, violations, p.hostNetwork);
    violations := Check(p, 6, violations, p.hostPID);
    violations := Check(p, 7, violations, p.hostIPC);
    assert POD_RULES[..8] == POD_RULES;
  }

  method EvaluatePods(w: World, c: Cluster) returns (results: seq<Result>)
    ensures results == PodResults(w, c)
  {
    var pods := Get(w.reader.pods, c.id);
    var applicationPods: seq<Pod> := [];
    for i := 0 to |pods|
      invariant applicationPods == Filter(pods[..i], IsApplicationPod())
    {
      FilterStep(pods, i, IsApplicationPod());
      if !IsSystemNamespace(pods[i].namespace) { applicationPods := applicationPods + [pods[i]]; }
    }
    assert pods[..|pods|] == pods;
    if |applicationPods| == 0 {
      return [Finding(w, PodSecurity, c, NotKnown, NoPodEvidence, map[], map[])];
    }
    results := [];
    for i := 0 to |applicationPods|
      invariant results == Flat(applicationPods[..i], PodFinding(w, c))
    {
      FlatStep(applicationPods, i, PodFinding(w, c));
      results := results + [PodResult(w, c, applicationPods[i])];
    }
    assert applicationPods[..|applicationPods|] == applicationPods;
  }

  method EvaluateConfigs(w: World, c: Cluster) returns (results: seq<Result>)
    ensures results == ConfigResults(w, c)
  {
    var namespaces := Get(w.reader.configs, c.id);
    var applicationNamespaces: seq<Namespace> := [];
    for i := 0 to |namespaces|
      invariant applicationNamespaces == Filter(namespaces[..i], IsApplicationNamespace())
    {
      FilterStep(namespaces, i, IsApplicationNamespace());
      if !IsSystemNamespace(namespaces[i].name) { applicationNamespaces := applicationNamespaces + [namespaces[i]]; }
    }
    assert namespaces[..|namespaces|] == namespaces;
    if |applicationNamespaces| == 0 {
      return [Finding(w, NamespaceSecurity, c, NotKnown, NoNamespaceEvidence, map[], map[])];
    }
    results := [];
    for i := 0 to |applicationNamespaces|
      invariant results == Flat(applicationNamespaces[..i], ConfigFinding(w, c))
    {
      FlatStep(applicationNamespaces, i, ConfigFinding(w, c));
      results := results + [ConfigResult(w, c, applicationNamespaces[i])];
    }
    assert applicationNamespaces[..|applicationNamespaces|] == applicationNamespaces;
  }

  method EvaluateClusterSecurity(w: World, c: Cluster) returns (ok: bool, results: seq<Result>)
    ensures ok <==> CanRead(w, c, w.reader.pods) && CanRead(w, c, w.reader.configs)
    ensures ok ==> results == SecurityResults(w, c)
  {
    if IsStale(w, c) {
      return true, [StaleFinding(w, PodSecurity, c), StaleFinding(w, NamespaceSecurity, c)];
    }
    if c.id !in w.reader.pods {
      return false, [];
    }
    var pods := EvaluatePods(w, c);
    if c.id !in w.reader.configs {
      return false, [];
    }
    var configs := EvaluateConfigs(w, c);
    return true, pods + configs;
  }

  predicate SecurityRead(w: World, c: Cluster) { CanRead(w, c, w.reader.pods) && CanRead(w, c, w.reader.configs) }

  method EvaluateSecurity(w: World) returns (ok: bool, results: seq<Result>)
    ensures ok <==> forall c :: c in w.clusters ==> SecurityRead(w, c)
    ensures ok ==> results == PartResults(w)(SecurityPart)
  {
    results := [];
    for i := 0 to |w.clusters|
      invariant forall c :: c in w.clusters[..i] ==> SecurityRead(w, c)
      invariant results == Flat(w.clusters[..i], Contributions(w, SecurityPart))
    {
      FlatStep(w.clusters, i, Contributions(w, SecurityPart));
      var c := w.clusters[i];
      var read, found := EvaluateClusterSecurity(w, c);
      if !read {
        assert c in w.clusters && !SecurityRead(w, c);
        return false, [];
      }
      results := results + found;
    }
    assert w.clusters[..|w.clusters|] == w.clusters;
    ok := true;
  }

  /** Engine.Evaluate: None when a read of a fresh cluster fails. */
  method Evaluate(w: World) returns (evaluation: Option<seq<Result>>)
    ensures evaluation == Evaluated(w)
  {
    var versions := EvaluateVersions(w);
    var labels := EvaluateLabels(w);
    var readNamespaces, namespaces := EvaluateNamespaces(w);
    if !readNamespaces { return None; }
    var readWorkloads, workloads := EvaluateWorkloads(w);
    if !readWorkloads { return None; }
    var readSecurity, security := EvaluateSecurity(w);
    if !readSecurity { return None; }
    FiveParts(w);
    evaluation := Some(Sort(versions + labels + namespaces + workloads + security, ResultLess));
  }

  lemma FiveParts(w: World)
    ensures var f := PartResults(w);
      All(w) == f(VersionPart) + f(LabelPart) + f(NamespacePart) + f(WorkloadPart) + f(SecurityPart)
  {
    var f := PartResults(w);
    FlatStep(PARTS, 0, f);
    FlatStep(PARTS, 1, f);
    FlatStep(PARTS, 2, f);
    FlatStep(PARTS, 3, f);
    FlatStep(PARTS, 4, f);
    assert PARTS[..5] == PARTS;
    assert Flat(PARTS[..1], f) == f(VersionPart);
  }
}
