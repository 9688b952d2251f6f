/**
  The verdicts of one evaluation that compare a cluster with the fleet: what the fresh clusters vote
  for, and the label policy. Source: internal/policy/engine.go.
 */
module PolicyBaselines {
  import opened Text
  import opened Fleet
  import opened Lists
  import opened Policy
  import opened PolicyVerdicts

  // ---------------------------------------------------------------- counting votes

  /** The sum of what each element counts. */
  function Tally<A>(xs: seq<A>, count: A -> nat): nat {
    if xs == [] then 0 else Tally(xs[..|xs| - 1], count) + count(xs[|xs| - 1])
  }

  lemma {:induction false} FlatTally<A, B>(xs: seq<A>, f: A -> seq<B>, b: B, count: A -> nat)
    requires forall x :: x in xs ==> multiset(f(x))[b] == count(x)
    ensures multiset(Flat(xs, f))[b] == Tally(xs, count)
    decreases |xs|
  {
    if xs != [] { FlatTally(xs[..|xs| - 1], f, b, count); }
  }

  /** More votes, or as many for the lesser text. */
  predicate Leads(votes: string -> nat, best: string, other: string) {
    votes(other) < votes(best) || (votes(other) == votes(best) && (other == best || StringLess(best, other)))
  }

  /** It has votes, and no other text leads it. */
  ghost predicate Wins(votes: string -> nat, best: string) {
    best != "" && votes(best) > 0 && forall v :: v != "" ==> Leads(votes, best, v)
  }

  /** The votes for a text are how often it occurs in the list. */
  ghost predicate Counts(values: seq<string>, votes: string -> nat) {
    forall v :: v != "" ==> multiset(values)[v] == votes(v)
  }

  /** The mode of a list is the winner, if there are votes at all. */
  lemma ModeWins(values: seq<string>, votes: string -> nat, best: string)
    requires Counts(values, votes)
    ensures best != "" ==> (ModeOf(values) == best <==> Wins(votes, best))
    ensures ModeOf(values) == "" <==> forall v :: v != "" ==> votes(v) == 0
  {
    var mode := ModeOf(values);
    forall v | v != "" ensures v in multiset(values) <==> votes(v) > 0 { assert multiset(values)[v] == votes(v); }
    if mode != "" {
      forall v | v != "" ensures Leads(votes, mode, v) {}
      assert Wins(votes, mode);
    }
    if Wins(votes, best) {
      forall v | v in multiset(values) && v != ""
        ensures multiset(values)[v] < multiset(values)[best]
             || (multiset(values)[v] == multiset(values)[best] && (v == best || StringLess(best, v)))
      {
        assert Leads(votes, best, v);
      }
      assert IsMode(multiset(values), best);
      ModeIsUnique(multiset(values), best, mode);
    }
  }

  // ---------------------------------------------------------------- Kubernetes versions

  /** How many fresh clusters have a version with this major and minor part. */
  function VersionVotes(w: World): string -> nat {
    (line: string) => Tally(w.clusters, HasVersion(w, line))
  }

  function HasVersion(w: World, line: string): Cluster -> nat {
    (c: Cluster) => if Fresh(w, c) && VersionLine(c.version) == line then 1 else 0
  }

  lemma VersionsCount(w: World)
    ensures Counts(Versions(w), VersionVotes(w))
  {
    forall line | line != "" ensures multiset(Versions(w))[line] == VersionVotes(w)(line) {
      FlatTally(w.clusters, VersionOf(w), line, HasVersion(w, line));
    }
  }

  /** Known exactly if a major and minor part is, and passing exactly if that part wins the vote. */
  ghost predicate OnVersion(r: Result, w: World, c: Cluster) {
    var line := VersionLine(c.version);
    && (r.status == NotKnown <==> line == "")
    && (r.status == Pass <==> line != "" && Wins(VersionVotes(w), line))
    && (r.status == Fail <==> line != "" && !Wins(VersionVotes(w), line))
    && (r.status == Pass || r.status == Fail ==>
          r.actual == map["majorMinor" := Words(line), "version" := Words(c.version)]
          && exists best :: Wins(VersionVotes(w), best) && r.expected == map["majorMinor" := Words(best)])
    && r.message == (if r.status == NotKnown then VersionNotReported
                     else if r.status == Pass then VersionMatches else VersionDiffers)
  }

  lemma VersionColumns(w: World, c: Cluster)
    requires c in w.clusters && Fresh(w, c)
    ensures OnVersion(VersionResult(w, c, ModeOf(Versions(w))), w, c)
  {
    VersionVerdict(w, c);
    VersionsCount(w);
    ModeWins(Versions(w), VersionVotes(w), VersionLine(c.version));
    ModeWins(Versions(w), VersionVotes(w), ModeOf(Versions(w)));
    VersionEvidence(w, c);
  }

  lemma VersionEvidence(w: World, c: Cluster)
    requires Fresh(w, c)
    ensures var r, line, best := VersionResult(w, c, ModeOf(Versions(w))), VersionLine(c.version), ModeOf(Versions(w));
      && (r.status == Pass || r.status == Fail ==>
            r.actual == map["majorMinor" := Words(line), "version" := Words(c.version)]
            && best != "" && r.expected == map["majorMinor" := Words(best)])
      && ((line != "" && best != "") || line == "" ==>
            r.message == (if r.status == NotKnown then VersionNotReported
                          else if r.status == Pass then VersionMatches else VersionDiffers))
      && (r.status == NotKnown && line != "" ==> best == "")
  {
  }

  /** The report has one version result for every fresh cluster, with that verdict. */
  lemma VersionReported(w: World, c: Cluster)
    requires Keyed(w) && Evaluated(w).Some? && c in w.clusters && Fresh(w, c)
    ensures exists r :: r in Report(w) && Keys(r, KubernetesVersion, c.name, "", "", "")
    ensures forall r :: r in Report(w) && Keys(r, KubernetesVersion, c.name, "", "", "") ==>
      OnVersion(r, w, c) && Stamped(r, w, c)
  {
    var r := VersionContributes(w, c);
  }

  lemma VersionContributes(w: World, c: Cluster) returns (r: Result)
    requires Keyed(w) && Evaluated(w).Some? && c in w.clusters && Fresh(w, c)
    ensures Keys(r, KubernetesVersion, c.name, "", "", "")
    ensures OnlyOne(w, r) && OnVersion(r, w, c) && Stamped(r, w, c)
  {
    r := VersionResult(w, c, ModeOf(Versions(w)));
    VersionColumns(w, c);
    VersionKeys(w, c, ModeOf(Versions(w)));
    TheOnly(w, VersionPart, c, r);
  }

  lemma VersionKeys(w: World, c: Cluster, best: string)
    ensures var r := VersionResult(w, c, best); Keys(r, KubernetesVersion, c.name, "", "", "") && Stamped(r, w, c)
  {
  }

  /** White space of the ASCII range. */
  predicate IsWhite(c: char) {
    c == ' ' || c == '\t' || c == '\n' || c == '\r' || c == '\U{0B}' || c == '\U{0C}'
  }

  predicate IsBlank(s: string) { forall i :: 0 <= i < |s| ==> IsWhite(s[i]) }

  lemma {:induction false} TrimLeftIs(pad: string, s: string)
    requires IsBlank(pad) && (s != "" ==> !IsWhite(s[0]))
    ensures TrimLeft(pad + s) == s
  {
    if pad == "" {
      assert pad + s == s;
    } else {
      assert (pad + s)[1..] == pad[1..] + s;
      TrimLeftIs(pad[1..], s);
    }
  }

  lemma {:induction false} TrimRightIs(s: string, pad: string)
    requires IsBlank(pad) && (s != "" ==> !IsWhite(s[|s| - 1]))
    ensures TrimRight(s + pad) == s
    decreases |pad|
  {
    if pad == "" {
      assert s + pad == s;
    } else {
      var n := |pad| - 1;
      assert (s + pad)[..|s + pad| - 1] == s + pad[..n];
      TrimRightIs(s, pad[..n]);
    }
  }

  /** White space around a text is dropped. */
  lemma TrimSpaceIs(left: string, s: string, right: string)
    requires IsBlank(left) && IsBlank(right)
    requires s != "" ==> !IsWhite(s[0]) && !IsWhite(s[|s| - 1])
    ensures TrimSpace(left + s + right) == s
  {
    if s == "" {
      TrimLeftIs(left + s + right, "");
      assert left + s + right == (left + s + right) + "";
    } else {
      assert left + s + right == left + (s + right);
      TrimLeftIs(left, s + right);
      TrimRightIs(s, right);
    }
  }

  /** A version such as " v1.28.3 " has the major and minor part "1.28". */
  lemma VersionLineIs(left: string, v: string, major: string, minor: string, rest: string, right: string)
    requires IsBlank(left) && IsBlank(right) && v in {"", "v"}
    requires major != "" && minor != "" && '.' !in major && '.' !in minor && major[0] != 'v'
    requires rest == "" || rest[0] == '.'
    requires var s := v + (major + ("." + (minor + rest))); !IsWhite(s[0]) && !IsWhite(s[|s| - 1])
    ensures VersionLine(left + (v + (major + ("." + (minor + rest)))) + right) == major + "." + minor
  {
    var bare := major + ("." + (minor + rest));
    TrimSpaceIs(left, v + bare, right);
    assert TrimByte(v + bare, 'v') == bare;
    FirstParts(major, minor, rest);
  }

  lemma FirstParts(major: string, minor: string, rest: string)
    requires '.' !in major && '.' !in minor && (rest == "" || rest[0] == '.')
    ensures var parts := Split(major + ("." + (minor + rest)), '.');
      |parts| >= 2 && parts[0] == major && parts[1] == minor
  {
    SplitHead(major, minor + rest, '.');
    if rest == "" {
      assert minor + rest == minor;
      SplitPlain(minor, '.');
    } else {
      assert rest == ['.'] + rest[1..];
      SplitHead(minor, rest[1..], '.');
    }
  }

  // ---------------------------------------------------------------- labels

  /** Absent, or white space only. */
  predicate Lacks(c: Cluster, name: string) { name !in c.labels || IsBlank(c.labels[name]) }

  function LabelChecks(c: Cluster): seq<(bool, string)> {
    [(Lacks(c, "environment"), "environment"), (Lacks(c, "owner"), "owner"), (Lacks(c, "region"), "region")]
  }

  predicate OnLabels(r: Result, c: Cluster) {
    && (r.status == Pass <==> !Lacks(c, "environment") && !Lacks(c, "owner") && !Lacks(c, "region"))
    && (r.status == Fail <==> Lacks(c, "environment") || Lacks(c, "owner") || Lacks(c, "region"))
    && (r.status == Fail ==> r.actual == map["missing" := Words(Join(FailedNames(LabelChecks(c)), ","))])
    && r.expected == map["labels" := Words("environment,owner,region")]
    && r.message == (if r.status == Pass then LabelsPresent else LabelsMissing)
  }

  lemma BlankIs(s: string)
    ensures TrimSpace(s) == "" <==> IsBlank(s)
  {
    if IsBlank(s) {
      TrimSpaceIs("", "", s);
      assert "" + "" + s == s;
    }
    NotBlank(s);
  }

  lemma {:induction false} NotBlank(s: string)
    ensures !IsBlank(s) ==> TrimLeft(s) != "" && !IsSpace(TrimLeft(s)[0]) && TrimRight(TrimLeft(s)) != ""
  {
    if !IsBlank(s) {
      if IsSpace(s[0]) {
        NotBlank(s[1..]);
      } else {
        KeepsFirst(s);
      }
    }
  }

  lemma {:induction false} KeepsFirst(s: string)
    requires s != "" && !IsSpace(s[0])
    ensures TrimRight(s) != ""
    decreases |s|
  {
    if IsSpace(s[|s| - 1]) { KeepsFirst(s[..|s| - 1]); }
  }

  lemma LabelColumns(w: World, c: Cluster)
    requires Fresh(w, c)
    ensures OnLabels(LabelResult(w, c), c)
  {
    MissingAre(c);
    NoneFailed(LabelChecks(c));
    LabelNames();
    assert LabelChecks(c)[0].0 == Lacks(c, "environment") && LabelChecks(c)[1].0 == Lacks(c, "owner");
    assert LabelChecks(c)[2].0 == Lacks(c, "region");
  }

  lemma LabelNames()
    ensures Join(REQUIRED_LABELS, ",") == "environment,owner,region"
  {
    assert REQUIRED_LABELS[1..] == ["owner", "region"] && ["owner", "region"][1..] == ["region"];
  }

  lemma {:induction false} NoneFailed(checks: seq<(bool, string)>)
    ensures FailedNames(checks) == [] <==> forall i :: 0 <= i < |checks| ==> !checks[i].0
    decreases |checks|
  {
    if checks != [] { NoneFailed(checks[..|checks| - 1]); }
  }

  lemma MissingAre(c: Cluster)
    ensures MissingLabels(c.labels) == FailedNames(LabelChecks(c))
  {
    forall l | l in c.labels ensures TrimSpace(c.labels[l]) == "" <==> IsBlank(c.labels[l]) { BlankIs(c.labels[l]); }
    MissingUpTo(c, 3);
    assert REQUIRED_LABELS[..3] == REQUIRED_LABELS && LabelChecks(c)[..3] == LabelChecks(c);
  }

  lemma {:induction false} MissingUpTo(c: Cluster, n: nat)
    requires n <= 3
    requires forall l :: l in c.labels ==> (TrimSpace(c.labels[l]) == "" <==> IsBlank(c.labels[l]))
    ensures var lacking := (name: string) => name !in c.labels || TrimSpace(c.labels[name]) == "";
      Filter(REQUIRED_LABELS[..n], lacking) == FailedNames(LabelChecks(c)[..n])
  {
    var lacking := (name: string) => name !in c.labels || TrimSpace(c.labels[name]) == "";
    if n > 0 {
      MissingUpTo(c, n - 1);
      FilterStep(REQUIRED_LABELS, n - 1, lacking);
      assert LabelChecks(c)[..n][..n - 1] == LabelChecks(c)[..n - 1];
      assert LabelChecks(c)[n - 1] == (Lacks(c, REQUIRED_LABELS[n - 1]), REQUIRED_LABELS[n - 1]);
    }
  }

  /** The report has one label result for every fresh cluster, with that verdict. */
  lemma LabelsReported(w: World, c: Cluster)
    requires Keyed(w) && Evaluated(w).Some? && c in w.clusters && Fresh(w, c)
    ensures exists r :: r in Report(w) && Keys(r, RequiredLabels, c.name, "", "", "")
    ensures forall r :: r in Report(w) && Keys(r, RequiredLabels, c.name, "", "", "") ==>
      OnLabels(r, c) && Stamped(r, w, c)
  {
    var r := LabelContributes(w, c);
  }

  lemma LabelContributes(w: World, c: Cluster) returns (r: Result)
    requires Keyed(w) && Evaluated(w).Some? && c in w.clusters && Fresh(w, c)
    ensures Keys(r, RequiredLabels, c.name, "", "", "")
    ensures OnlyOne(w, r) && OnLabels(r, c) && Stamped(r, w, c)
  {
    r := LabelResult(w, c);
    LabelColumns(w, c);
    LabelKeys(w, c);
    TheOnly(w, LabelPart, c, r);
  }

  lemma LabelKeys(w: World, c: Cluster)
    ensures Keys(LabelResult(w, c), RequiredLabels, c.name, "", "", "") && Stamped(LabelResult(w, c), w, c)
  {
  }

  // ---------------------------------------------------------------- namespaces

  /** What a fresh cluster's namespaces are called; the order they are read in does not matter. */
  function NamesOf(w: World, c: Cluster): seq<string> { Get(w.reader.namespaces, c.id) }

  predicate Named(w: World, c: Cluster) { Fresh(w, c) && NamesOf(w, c) != [] }

  /** How many fresh clusters have exactly these namespaces. */
  function NamespaceVotes(w: World, names: multiset<string>): nat { Tally(w.clusters, HasNames(w, names)) }

  function HasNames(w: World, names: multiset<string>): Cluster -> nat {
    (c: Cluster) => if Named(w, c) && multiset(NamesOf(w, c)) == names then 1 else 0
  }

  /** Namespace names are not empty and hold no NUL. */
  ghost predicate Nameable(w: World) {
    forall c, n :: c in w.clusters && n in NamesOf(w, c) ==> n != "" && NUL !in n
  }

  lemma SortedNames(w: World, c: Cluster)
    ensures multiset(SortedNamespaces(w, c)) == multiset(NamesOf(w, c))
    ensures SortedNamespaces(w, c) == [] <==> NamesOf(w, c) == []
    ensures forall n :: n in SortedNamespaces(w, c) <==> n in NamesOf(w, c)
  {
    StringOrders();
    SortSorts(NamesOf(w, c), StringLess);
    SameSize(SortedNamespaces(w, c), NamesOf(w, c));
    forall n ensures n in SortedNamespaces(w, c) <==> n in NamesOf(w, c) {
      assert n in multiset(SortedNamespaces(w, c)) <==> n in multiset(NamesOf(w, c));
    }
  }

  /** The text by which clusters with the same namespaces are recognized. */
  function SignatureText(w: World, c: Cluster): string { Join(SortedNamespaces(w, c), [NUL]) }

  lemma JoinNotEmpty(parts: seq<string>, sep: string)
    requires parts != [] && parts[0] != ""
    ensures Join(parts, sep) != ""
  {
  }

  lemma SortedNameable(w: World, c: Cluster)
    requires Nameable(w) && c in w.clusters
    ensures forall i :: 0 <= i < |SortedNamespaces(w, c)| ==>
      SortedNamespaces(w, c)[i] != "" && NUL !in SortedNamespaces(w, c)[i]
  {
    SortedNames(w, c);
    forall i | 0 <= i < |SortedNamespaces(w, c)|
      ensures SortedNamespaces(w, c)[i] != "" && NUL !in SortedNamespaces(w, c)[i]
    {
      assert SortedNamespaces(w, c)[i] in SortedNamespaces(w, c);
      NameOk(w, c, SortedNamespaces(w, c)[i]);
    }
  }

  lemma NameOk(w: World, c: Cluster, n: string)
    requires Nameable(w) && c in w.clusters && n in NamesOf(w, c)
    ensures n != "" && NUL !in n
  {
  }

  lemma SignatureTells(w: World, c: Cluster, d: Cluster)
    requires Nameable(w) && c in w.clusters && d in w.clusters && NamesOf(w, c) != [] && NamesOf(w, d) != []
    ensures SignatureText(w, c) != ""
    ensures SignatureText(w, c) == SignatureText(w, d) <==> multiset(NamesOf(w, c)) == multiset(NamesOf(w, d))
  {
    SortedNames(w, c);
    SortedNames(w, d);
    SortedNameable(w, c);
    SortedNameable(w, d);
    JoinNotEmpty(SortedNamespaces(w, c), [NUL]);
    SplitJoin(SortedNamespaces(w, c), NUL);
    SplitJoin(SortedNamespaces(w, d), NUL);
    if multiset(NamesOf(w, c)) == multiset(NamesOf(w, d)) {
      StringOrders();
      forall x: string, y: string ensures x == y || StringLess(x, y) || StringLess(y, x) { StringTrichotomy(x, y); }
      SortIgnoresOrder(NamesOf(w, c), NamesOf(w, d), StringLess);
    }
  }

  /** How many fresh clusters have this signature. */
  function SignatureVotes(w: World): string -> nat { (text: string) => Tally(w.clusters, HasSignature(w, text)) }

  function HasSignature(w: World, text: string): Cluster -> nat {
    (c: Cluster) => if Named(w, c) && SignatureText(w, c) == text then 1 else 0
  }

  lemma SignaturesCount(w: World)
    ensures Counts(Signatures(w), SignatureVotes(w))
  {
    forall text | text != "" ensures multiset(Signatures(w))[text] == SignatureVotes(w)(text) {
      forall c | c in w.clusters ensures multiset(SignatureOf(w)(c))[text] == HasSignature(w, text)(c) {
        SortedNames(w, c);
      }
      FlatTally(w.clusters, SignatureOf(w), text, HasSignature(w, text));
    }
  }

  lemma {:induction false} TallyEqual<A>(xs: seq<A>, f: A -> nat, g: A -> nat)
    requires forall x :: x in xs ==> f(x) == g(x)
    ensures Tally(xs, f) == Tally(xs, g)
    decreases |xs|
  {
    if xs != [] { TallyEqual(xs[..|xs| - 1], f, g); }
  }

  lemma VotesAgree(w: World, b: Cluster)
    requires Nameable(w) && b in w.clusters && NamesOf(w, b) != []
    ensures SignatureVotes(w)(SignatureText(w, b)) == NamespaceVotes(w, multiset(NamesOf(w, b)))
  {
    var text, names := SignatureText(w, b), multiset(NamesOf(w, b));
    forall c | c in w.clusters ensures HasSignature(w, text)(c) == HasNames(w, names)(c) {
      if NamesOf(w, c) != [] { SignatureTells(w, c, b); }
    }
    TallyEqual(w.clusters, HasSignature(w, text), HasNames(w, names));
  }

  /** More clusters share its namespaces than share another's; of several such, the least in sorted order. */
  ghost predicate IsBaseline(w: World, b: Cluster) {
    && b in w.clusters && Named(w, b)
    && forall d :: d in w.clusters && Named(w, d) ==>
         var mine, other := NamespaceVotes(w, multiset(NamesOf(w, b))), NamespaceVotes(w, multiset(NamesOf(w, d)));
         || other < mine
         || (other == mine && (multiset(NamesOf(w, d)) == multiset(NamesOf(w, b))
                               || StringLess(SignatureText(w, b), SignatureText(w, d))))
  }

  lemma BaselineExists(w: World, c: Cluster) returns (b: Cluster)
    requires Nameable(w) && c in w.clusters && Named(w, c)
    ensures IsBaseline(w, b) && ModeOf(Signatures(w)) == SignatureText(w, b)
  {
    var mode := ModeOf(Signatures(w));
    SignaturesCount(w);
    SortedNames(w, c);
    SignatureTells(w, c, c);
    FlatHas(w.clusters, SignatureOf(w), c, SignatureText(w, c));
    assert SignatureText(w, c) in multiset(Signatures(w));
    assert mode in multiset(Signatures(w));
    b := FlatMember(w.clusters, SignatureOf(w), mode);
    SortedNames(w, b);
    ModeWins(Signatures(w), SignatureVotes(w), mode);
    WinnerIsBaseline(w, b);
  }

  lemma WinnerIsBaseline(w: World, b: Cluster)
    requires Nameable(w) && b in w.clusters && Named(w, b) && Wins(SignatureVotes(w), SignatureText(w, b))
    ensures IsBaseline(w, b)
  {
    VotesAgree(w, b);
    forall d | d in w.clusters && Named(w, d)
      ensures Leads(SignatureVotes(w), SignatureText(w, b), SignatureText(w, d))
      ensures SignatureVotes(w)(SignatureText(w, d)) == NamespaceVotes(w, multiset(NamesOf(w, d)))
      ensures SignatureText(w, d) == SignatureText(w, b) <==> multiset(NamesOf(w, d)) == multiset(NamesOf(w, b))
    {
      VotesAgree(w, d);
      SignatureTells(w, d, b);
    }
  }

  /** Passing exactly if its namespaces are the baseline cluster's. */
  ghost predicate OnNamespaces(r: Result, w: World, c: Cluster, b: Cluster) {
    var same := forall n :: n in NamesOf(w, c) <==> n in NamesOf(w, b);
    var mine, theirs := SortedNamespaces(w, c), SortedNamespaces(w, b);
    var shown := map["namespaces" := Words(Join(mine, ","))];
    && (r.status == Pass <==> same) && (r.status == Fail <==> !same)
    && r.message == (if same then NamespacesMatch else NamespacesDiffer)
    && r.expected == map["namespaces" := Words(Join(theirs, ","))]
    && r.actual == if same then shown
                   else shown["missing" := Words(Join(SetDifference(theirs, mine), ","))]
                             ["extra" := Words(Join(SetDifference(mine, theirs), ","))]
  }

  /** What one list has and the other has not. */
  lemma DifferenceHolds(a: seq<string>, b: seq<string>, n: string)
    ensures n in SetDifference(a, b) <==> n in a && n !in b
  {
    FilterMember(a, v => v !in b, n);
  }

  lemma NamespaceIs(w: World, c: Cluster, mine: seq<string>, text: string)
    requires Fresh(w, c) && mine != [] && text != ""
    ensures var r, theirs := NamespaceResult(w, c, mine, text), SplitSignature(text);
      var same := SetDifference(theirs, mine) == [] && SetDifference(mine, theirs) == [];
      var shown := map["namespaces" := Words(Join(mine, ","))];
      && (r.status == Pass <==> same) && (r.status == Fail <==> !same)
      && r.message == (if same then NamespacesMatch else NamespacesDiffer)
      && r.expected == map["namespaces" := Words(Join(theirs, ","))]
      && r.actual == if same then shown
                     else shown["missing" := Words(Join(SetDifference(theirs, mine), ","))]
                               ["extra" := Words(Join(SetDifference(mine, theirs), ","))]
  {
  }

  lemma NamespaceColumns(w: World, c: Cluster, b: Cluster)
    requires Nameable(w) && c in w.clusters && Named(w, c) && b in w.clusters && Named(w, b)
    requires ModeOf(Signatures(w)) == SignatureText(w, b)
    ensures OnNamespaces(NamespaceResult(w, c, SortedNamespaces(w, c), ModeOf(Signatures(w))), w, c, b)
  {
    SortedNames(w, b);
    SortedNames(w, c);
    SignatureTells(w, b, b);
    SortedNameable(w, b);
    SplitJoin(SortedNamespaces(w, b), NUL);
    NamespaceIs(w, c, SortedNamespaces(w, c), SignatureText(w, b));
    EmptyDifference(SortedNamespaces(w, b), SortedNamespaces(w, c));
    EmptyDifference(SortedNamespaces(w, c), SortedNamespaces(w, b));
  }

  /**
    The report has one namespace result for every fresh cluster that lists namespaces, and compares
    it with the namespaces that most fresh clusters have.
   */
  lemma NamespacesReported(w: World, c: Cluster) returns (b: Cluster)
    requires Keyed(w) && Nameable(w) && Evaluated(w).Some? && c in w.clusters && Named(w, c)
    ensures IsBaseline(w, b)
    ensures exists r :: r in Report(w) && Keys(r, NamespaceDrift, c.name, "", "", "")
    ensures forall r :: r in Report(w) && Keys(r, NamespaceDrift, c.name, "", "", "") ==>
      OnNamespaces(r, w, c, b) && Stamped(r, w, c)
  {
    b := BaselineExists(w, c);
    var r := NamespacesContribute(w, c, b);
  }

  lemma NamespacesContribute(w: World, c: Cluster, b: Cluster) returns (r: Result)
    requires Keyed(w) && Nameable(w) && Evaluated(w).Some? && c in w.clusters && Named(w, c)
    requires b in w.clusters && Named(w, b) && ModeOf(Signatures(w)) == SignatureText(w, b)
    ensures Keys(r, NamespaceDrift, c.name, "", "", "")
    ensures OnlyOne(w, r) && OnNamespaces(r, w, c, b) && Stamped(r, w, c)
  {
    r := NamespaceResult(w, c, SortedNamespaces(w, c), ModeOf(Signatures(w)));
    NamespaceColumns(w, c, b);
    NamespaceKeys(w, c, SortedNamespaces(w, c), ModeOf(Signatures(w)));
    TheOnly(w, NamespacePart, c, r);
  }

  lemma NamespaceKeys(w: World, c: Cluster, mine: seq<string>, text: string)
    requires Fresh(w, c)
    ensures var r := NamespaceResult(w, c, mine, text);
      Keys(r, NamespaceDrift, c.name, "", "", "") && Stamped(r, w, c)
  {
  }

  /** A fresh cluster that lists no namespaces is reported as unknown. */
  lemma NoNamespacesReported(w: World, c: Cluster)
    requires Keyed(w) && Evaluated(w).Some? && c in w.clusters && Fresh(w, c) && NamesOf(w, c) == []
    ensures exists r :: r in Report(w) && Keys(r, NamespaceDrift, c.name, "", "", "") && r.status == NotKnown
  {
    var r := NamespaceResult(w, c, SortedNamespaces(w, c), ModeOf(Signatures(w)));
    SortedNames(w, c);
    TheOnly(w, NamespacePart, c, r);
    assert Keys(r, NamespaceDrift, c.name, "", "", "");
  }

  // ---------------------------------------------------------------- workload drift

  /** How many fresh clusters' deployments of this namespace and name report this hash. */
  function HashVotes(w: World, namespace: string, name: string): string -> nat {
    (hash: string) => Tally(w.clusters, HashesIn(w, namespace, name, hash))
  }

  function HashesIn(w: World, namespace: string, name: string, hash: string): Cluster -> nat {
    (c: Cluster) => if Fresh(w, c) then Tally(Get(w.reader.deployments, c.id), IsHash(namespace, name, hash)) else 0
  }

  function IsHash(namespace: string, name: string, hash: string): Deployment -> nat {
    (d: Deployment) => if d.namespace == namespace && d.name == name && d.configHash == hash then 1 else 0
  }

  /** How many of them report a hash at all. */
  function PeerCount(w: World, namespace: string, name: string): nat { Tally(w.clusters, PeersIn(w, namespace, name)) }

  function PeersIn(w: World, namespace: string, name: string): Cluster -> nat {
    (c: Cluster) => if Fresh(w, c) then Tally(Get(w.reader.deployments, c.id), IsPeer(namespace, name)) else 0
  }

  function IsPeer(namespace: string, name: string): Deployment -> nat {
    (d: Deployment) => if d.namespace == namespace && d.name == name && d.configHash != "" then 1 else 0
  }

  /** Names of deployments and of their namespaces hold no NUL. */
  ghost predicate Separable(w: World) {
    forall c, d :: c in w.clusters && d in Get(w.reader.deployments, c.id) ==> NUL !in d.namespace && NUL !in d.name
  }

  lemma KeyTells(d: Deployment, e: Deployment)
    requires NUL !in d.namespace && NUL !in d.name && NUL !in e.namespace && NUL !in e.name
    ensures DeploymentKey(d) == DeploymentKey(e) <==> d.namespace == e.namespace && d.name == e.name
  {
    KeyParts(d);
    KeyParts(e);
  }

  lemma KeyParts(d: Deployment)
    requires NUL !in d.namespace && NUL !in d.name
    ensures Split(DeploymentKey(d), NUL) == [d.namespace, d.name]
  {
    SplitHead(d.namespace, d.name, NUL);
    SplitPlain(d.name, NUL);
    assert DeploymentKey(d) == d.namespace + ([NUL] + d.name);
  }

  lemma {:induction false} FlatLength<A, B>(xs: seq<A>, f: A -> seq<B>, count: A -> nat)
    requires forall x :: x in xs ==> |f(x)| == count(x)
    ensures |Flat(xs, f)| == Tally(xs, count)
    decreases |xs|
  {
    if xs != [] { FlatLength(xs[..|xs| - 1], f, count); }
  }

  lemma {:induction false} TallyFlat<A, B>(xs: seq<A>, f: A -> seq<B>, inner: B -> nat, outer: A -> nat)
    requires forall x :: x in xs ==> Tally(f(x), inner) == outer(x)
    ensures Tally(Flat(xs, f), inner) == Tally(xs, outer)
    decreases |xs|
  {
    if xs != [] {
      var n := |xs| - 1;
      TallyFlat(xs[..n], f, inner, outer);
      TallyAppend(Flat(xs[..n], f), f(xs[n]), inner);
    }
  }

  lemma {:induction false} TallyAppend<A>(a: seq<A>, b: seq<A>, count: A -> nat)
    ensures Tally(a + b, count) == Tally(a, count) + Tally(b, count)
    decreases |b|
  {
    if b == [] {
      assert a + b == a;
    } else {
      var n := |b| - 1;
      assert (a + b)[..|a + b| - 1] == a + b[..n];
      TallyAppend(a, b[..n], count);
    }
  }

  /** Whether a pair of key and hash is counted. */
  function IsPair(key: string, hash: string): ((string, string)) -> nat {
    (h: (string, string)) => if h.0 == key && h.1 == hash then 1 else 0
  }

  function IsKey(key: string): ((string, string)) -> nat { (h: (string, string)) => if h.0 == key then 1 else 0 }

  lemma TallyOne<A>(x: A, count: A -> nat)
    ensures Tally([x], count) == count(x) && Tally([], count) == 0
  {
    assert [x][..0] == [];
  }

  lemma HashesOfOne(w: World, c: Cluster, d: Deployment, hash: string)
    requires Separable(w) && c in w.clusters && hash != "" && NUL !in d.namespace && NUL !in d.name
    ensures Tally(Hashes(w, c), IsPair(DeploymentKey(d), hash)) == HashesIn(w, d.namespace, d.name, hash)(c)
    ensures Tally(Hashes(w, c), IsKey(DeploymentKey(d))) == PeersIn(w, d.namespace, d.name)(c)
  {
    var ds := Get(w.reader.deployments, c.id);
    if Fresh(w, c) {
      forall e | e in ds
        ensures Tally(HashOf(e), IsPair(DeploymentKey(d), hash)) == IsHash(d.namespace, d.name, hash)(e)
        ensures Tally(HashOf(e), IsKey(DeploymentKey(d))) == IsPeer(d.namespace, d.name)(e)
      {
        KeyTells(d, e);
        TallyOne((DeploymentKey(e), e.configHash), IsPair(DeploymentKey(d), hash));
        TallyOne((DeploymentKey(e), e.configHash), IsKey(DeploymentKey(d)));
      }
      TallyFlat(ds, HashOf, IsPair(DeploymentKey(d), hash), IsHash(d.namespace, d.name, hash));
      TallyFlat(ds, HashOf, IsKey(DeploymentKey(d)), IsPeer(d.namespace, d.name));
    }
  }

  /** The peers of a deployment are counted by its namespace and name. */
  lemma PeersCount(w: World, d: Deployment)
    requires Separable(w) && NUL !in d.namespace && NUL !in d.name
    ensures Counts(Peers(AllHashes(w), DeploymentKey(d)), HashVotes(w, d.namespace, d.name))
    ensures |Peers(AllHashes(w), DeploymentKey(d))| == PeerCount(w, d.namespace, d.name)
  {
    var key := DeploymentKey(d);
    forall hash | hash != ""
      ensures multiset(Peers(AllHashes(w), key))[hash] == HashVotes(w, d.namespace, d.name)(hash)
    {
      FlatTally(AllHashes(w), HashUnder(key), hash, IsPair(key, hash));
      forall c | c in w.clusters
        ensures Tally(HashesOf(w)(c), IsPair(key, hash)) == HashesIn(w, d.namespace, d.name, hash)(c)
      {
        HashesOfOne(w, c, d, hash);
      }
      TallyFlat(w.clusters, HashesOf(w), IsPair(key, hash), HashesIn(w, d.namespace, d.name, hash));
    }
    FlatLength(AllHashes(w), HashUnder(key), IsKey(key));
    forall c | c in w.clusters ensures Tally(HashesOf(w)(c), IsKey(key)) == PeersIn(w, d.namespace, d.name)(c) {
      HashesOfOne(w, c, d, "-");
    }
    TallyFlat(w.clusters, HashesOf(w), IsKey(key), PeersIn(w, d.namespace, d.name));
  }

  /** Unknown without a hash or without a peer, otherwise passing exactly if its hash wins among its peers. */
  ghost predicate OnDrift(r: Result, w: World, d: Deployment) {
    var peers, votes := PeerCount(w, d.namespace, d.name), HashVotes(w, d.namespace, d.name);
    && (r.status == NotKnown <==> d.configHash == "" || peers < 2)
    && (r.status == Pass <==> d.configHash != "" && peers >= 2 && Wins(votes, d.configHash))
    && (r.status == Fail <==> d.configHash != "" && peers >= 2 && !Wins(votes, d.configHash))
    && r.message == (if d.configHash == "" then HashNotReported else if peers < 2 then NoPeer
                     else if r.status == Pass then ConfigurationMatches else ConfigurationDiffers)
    && (r.status != NotKnown ==>
          && r.actual == map["configHash" := Words(d.configHash), "images" := Words(Join(d.images, ","))]
          && exists best :: Wins(votes, best) && r.expected == map["configHash" := Words(best)])
  }

  lemma DriftColumns(w: World, c: Cluster, d: Deployment)
    requires Separable(w) && c in w.clusters && Fresh(w, c)
    requires c.id in w.reader.deployments && d in w.reader.deployments[c.id]
    ensures var r := DriftOf(w, c, d);
      Keys(r, WorkloadDrift, c.name, d.namespace, "Deployment", d.name) && OnDrift(r, w, d) && Stamped(r, w, c)
  {
    var peers := Peers(AllHashes(w), DeploymentKey(d));
    assert d in Get(w.reader.deployments, c.id);
    PeersCount(w, d);
    ModeWins(peers, HashVotes(w, d.namespace, d.name), d.configHash);
    ModeWins(peers, HashVotes(w, d.namespace, d.name), ModeOf(peers));
    if d.configHash != "" { HashIsAmongPeers(w, c, d); }
    DriftIs(w, c, d);
  }

  lemma DriftIs(w: World, c: Cluster, d: Deployment)
    ensures var r, peers := DriftOf(w, c, d), Peers(AllHashes(w), DeploymentKey(d));
      && Keys(r, WorkloadDrift, c.name, d.namespace, "Deployment", d.name) && Stamped(r, w, c)
      && (r.status == NotKnown <==> d.configHash == "" || |peers| < 2)
      && (r.status == Pass <==> d.configHash != "" && |peers| >= 2 && d.configHash == ModeOf(peers))
      && (r.status == Fail <==> d.configHash != "" && |peers| >= 2 && d.configHash != ModeOf(peers))
      && r.message == (if d.configHash == "" then HashNotReported else if |peers| < 2 then NoPeer
                       else if r.status == Pass then ConfigurationMatches else ConfigurationDiffers)
      && (r.status != NotKnown ==>
            && r.actual == map["configHash" := Words(d.configHash), "images" := Words(Join(d.images, ","))]
            && r.expected == map["configHash" := Words(ModeOf(peers))])
  {
  }

  /** The report has one drift result for every deployment of a fresh cluster, with that verdict. */
  lemma DriftReported(w: World, c: Cluster, d: Deployment)
    requires Keyed(w) && Separable(w) && Evaluated(w).Some? && c in w.clusters && Fresh(w, c)
    requires c.id in w.reader.deployments && d in w.reader.deployments[c.id]
    ensures exists r :: r in Report(w) && Keys(r, WorkloadDrift, c.name, d.namespace, "Deployment", d.name)
    ensures forall r :: r in Report(w) && Keys(r, WorkloadDrift, c.name, d.namespace, "Deployment", d.name) ==>
      OnDrift(r, w, d) && Stamped(r, w, c)
  {
    var r := DriftContributes(w, c, d);
  }

  lemma DriftContributes(w: World, c: Cluster, d: Deployment) returns (r: Result)
    requires Keyed(w) && Separable(w) && Evaluated(w).Some? && c in w.clusters && Fresh(w, c)
    requires c.id in w.reader.deployments && d in w.reader.deployments[c.id]
    ensures Keys(r, WorkloadDrift, c.name, d.namespace, "Deployment", d.name)
    ensures OnlyOne(w, r) && OnDrift(r, w, d) && Stamped(r, w, c)
  {
    r := DriftOf(w, c, d);
    DriftColumns(w, c, d);
    DeploymentContributes(w, c, d);
    TheOnly(w, WorkloadPart, c, r);
  }
}
