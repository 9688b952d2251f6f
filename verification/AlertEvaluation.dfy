/**
  What one evaluation of a cluster leaves in the alert table, rule by rule and column by column.
  Source: internal/alerts/manager.go.
 */
module AlertEvaluation {
  import opened Text
  import opened Fleet
  import opened Alerts
  import opened AlertColumns
  import opened AlertManager

  /** One evaluation: the rules in the order of the store, a fresh id for each, and the cluster's state. */
  datatype Evaluation = Evaluation(rules: seq<Rule>, ids: seq<AlertId>, tenant: TenantId, cluster: ClusterId,
                                   health: Health, now: Time)

  ghost predicate Valid(e: Evaluation, t: Table) {
    |e.ids| == |e.rules| && Distinct(e.ids) && forall id :: id in e.ids ==> id !in t
  }

  /** The store calls of the first n rules. */
  ghost function Calls(e: Evaluation, n: nat): seq<Action>
    requires |e.ids| == |e.rules| && n <= |e.rules|
  {
    [DoResolve(e.cluster, e.health, e.now)]
    + Creations(e.rules[..n], e.ids[..n], e.tenant, e.cluster, e.health, e.now)
  }

  ghost function After(e: Evaluation, t: Table, n: nat, cfg: Config): System
    requires |e.ids| == |e.rules| && n <= |e.rules|
  {
    Run(Around(t), Calls(e, n), cfg)
  }

  function Tenant(e: Evaluation): TenantId { if e.tenant == "" then "default" else e.tenant }

  /** rule:cluster:health */
  function KeyText(e: Evaluation, rule: Rule): string {
    rule.id + ":" + e.cluster + ":"
    + (match e.health
       case Unknown => "unknown"
       case Healthy => "healthy"
       case Degraded => "degraded"
       case Unreachable => "unreachable")
  }

  predicate Applies(e: Evaluation, rule: Rule) { rule.enabled && rule.health == e.health }

  /** The call that the i-th rule makes if it applies. */
  function CallOf(e: Evaluation, i: nat): Action
    requires i < |e.rules| == |e.ids|
  {
    DoCreate(e.ids[i], e.tenant, e.cluster, KeyText(e, e.rules[i]), e.health, e.now,
             e.rules[i].cooldownSeconds * 1_000_000_000)
  }

  lemma NextCall(e: Evaluation, n: nat)
    requires n < |e.rules| == |e.ids|
    ensures Calls(e, n + 1) == if Applies(e, e.rules[n]) then Calls(e, n) + [CallOf(e, n)] else Calls(e, n)
  {
    assert e.rules[..n + 1][..n] == e.rules[..n] && e.ids[..n + 1][..n] == e.ids[..n];
    if Applies(e, e.rules[n]) {
      ConcatAssoc([DoResolve(e.cluster, e.health, e.now)],
                  Creations(e.rules[..n], e.ids[..n], e.tenant, e.cluster, e.health, e.now), [CallOf(e, n)]);
    }
  }

  // ---------------------------------------------------------------- what it leaves

  /** An alert that was there: resolved now if it is an open one of the cluster with another health. */
  function Left(e: Evaluation, a: Alert): Alert {
    if a.cluster == e.cluster && a.health != e.health && a.status != Resolved
    then a.(status := Resolved, resolvedAt := Some(e.now)) else a
  }

  /** The alert that a rule creates. */
  function Fresh(e: Evaluation, rule: Rule, cfg: Config): Alert {
    Alert(Tenant(e), e.cluster, KeyText(e, rule), e.health, Firing, e.now, None, None,
          if cfg.webhook then Pending else Disabled, 0, if cfg.webhook then Some(e.now) else None, None, None)
  }

  /** No alert of the tenant with the rule's key was triggered within its cooldown. */
  ghost predicate CooledDown(e: Evaluation, t: Table, rule: Rule) {
    forall id :: id in t && t[id].tenant == Tenant(e) && t[id].dedupeKey == KeyText(e, rule) ==>
      t[id].triggeredAt + rule.cooldownSeconds * 1_000_000_000 <= e.now
  }

  /**
    The i-th rule creates its alert: nor did an earlier rule of this evaluation with the same key, unless
    this one has no cooldown.
   */
  ghost predicate Fires(e: Evaluation, t: Table, i: nat)
    requires i < |e.rules|
    decreases i
  {
    && Applies(e, e.rules[i]) && CooledDown(e, t, e.rules[i])
    && forall j: nat :: j < i && Fires(e, t, j) && e.rules[j].id == e.rules[i].id ==> e.rules[i].cooldownSeconds == 0
  }

  /** The table after the first n rules. */
  ghost predicate Leaves(e: Evaluation, t: Table, n: nat, cfg: Config, u: Table)
    requires n <= |e.rules| == |e.ids|
  {
    && (forall id :: id in t ==> id in u && u[id] == Left(e, t[id]))
    && (forall i :: 0 <= i < n ==> HasFired(e, t, i, cfg, u))
    && (forall id :: id in u ==> id in t || Among(e, n, id))
  }

  ghost predicate HasFired(e: Evaluation, t: Table, i: nat, cfg: Config, u: Table)
    requires i < |e.rules| == |e.ids|
  {
    (e.ids[i] in u <==> Fires(e, t, i)) && (e.ids[i] in u ==> u[e.ids[i]] == Fresh(e, e.rules[i], cfg))
  }

  ghost predicate Among(e: Evaluation, n: nat, id: AlertId)
    requires n <= |e.ids|
  {
    exists i :: 0 <= i < n && e.ids[i] == id
  }

  lemma KeysOf(e: Evaluation, r: Rule, q: Rule)
    ensures KeyText(e, r) == KeyText(e, q) <==> r.id == q.id
  {
    var tail := ":" + e.cluster + ":" + HealthName(e.health);
    assert KeyText(e, r) == r.id + tail && KeyText(e, q) == q.id + tail;
    if KeyText(e, r) == KeyText(e, q) {
      assert |r.id| == |q.id|;
      assert r.id == (r.id + tail)[..|r.id|] == (q.id + tail)[..|q.id|] == q.id;
    }
  }

  lemma ResolveLeaves(e: Evaluation, t: Table, cfg: Config)
    requires Valid(e, t)
    ensures Leaves(e, t, 0, cfg, After(e, t, 0, cfg).table)
  {
    var resolve := DoResolve(e.cluster, e.health, e.now);
    assert e.rules[..0] == [] && e.ids[..0] == [] && [resolve] + [] == [resolve];
    assert Calls(e, 0) == [resolve] && [resolve][1..] == [];
    assert Run(Around(t), [resolve], cfg) == Run(Step(Around(t), resolve, cfg), [], cfg);
    forall id | id in t ensures id in Step(Around(t), resolve, cfg).table {}
  }

  /** Whether the next rule may create depends on the old alerts and on those that this evaluation created. */
  lemma MayCreateIs(e: Evaluation, t: Table, n: nat, cfg: Config, s: System)
    requires Valid(e, t) && n < |e.rules| && Leaves(e, t, n, cfg, s.table) && Applies(e, e.rules[n])
    ensures MayCreate(s, CallOf(e, n)) <==> Fires(e, t, n)
  {
    var a, rule := CallOf(e, n), e.rules[n];
    assert e.ids[n] in e.ids && !Among(e, n, e.ids[n]);
    forall j: nat | j < n ensures KeyText(e, e.rules[j]) == KeyText(e, rule) <==> e.rules[j].id == rule.id {
      KeysOf(e, e.rules[j], rule);
    }
    if MayCreate(s, a) {
      forall id | id in t && t[id].tenant == Tenant(e) && t[id].dedupeKey == KeyText(e, rule)
        ensures t[id].triggeredAt + rule.cooldownSeconds * 1_000_000_000 <= e.now
      {
        assert s.table[id] == Left(e, t[id]);
      }
      forall j: nat | j < n && Fires(e, t, j) && e.rules[j].id == rule.id ensures rule.cooldownSeconds == 0 {
        assert HasFired(e, t, j, cfg, s.table);
      }
    }
    if Fires(e, t, n) {
      forall id | id in s.table && s.table[id].tenant == Tenant(e) && s.table[id].dedupeKey == a.key
        ensures s.table[id].triggeredAt + a.cooldown <= a.at
      {
        if id in t {
          assert s.table[id] == Left(e, t[id]);
        } else {
          assert Among(e, n, id);
          var i :| 0 <= i < n && e.ids[i] == id;
          assert HasFired(e, t, i, cfg, s.table);
        }
      }
    }
  }

  lemma RuleLeaves(e: Evaluation, t: Table, n: nat, cfg: Config)
    requires Valid(e, t) && n < |e.rules| && Leaves(e, t, n, cfg, After(e, t, n, cfg).table)
    ensures Leaves(e, t, n + 1, cfg, After(e, t, n + 1, cfg).table)
  {
    var s, a := After(e, t, n, cfg), CallOf(e, n);
    NextCall(e, n);
    if Applies(e, e.rules[n]) {
      RunSnoc(Around(t), Calls(e, n), a, cfg);
      MayCreateIs(e, t, n, cfg, s);
      CreateColumns(s, a, cfg);
    }
    CreatedLeaves(e, t, n, cfg, s.table, After(e, t, n + 1, cfg).table);
  }

  lemma CreatedLeaves(e: Evaluation, t: Table, n: nat, cfg: Config, u: Table, v: Table)
    requires Valid(e, t) && n < |e.rules| && Leaves(e, t, n, cfg, u)
    requires v == if Fires(e, t, n) then u[e.ids[n] := Fresh(e, e.rules[n], cfg)] else u
    ensures Leaves(e, t, n + 1, cfg, v)
  {
    assert e.ids[n] in e.ids;
    forall i | 0 <= i < n ensures HasFired(e, t, i, cfg, v) {
      assert HasFired(e, t, i, cfg, u) && e.ids[i] != e.ids[n];
    }
    LastFired(e, t, n, cfg, u, v);
    forall id | id in v ensures id in t || Among(e, n + 1, id) {
      if id == e.ids[n] { assert Among(e, n + 1, id); } else if id !in t { MoreAmong(e, n, id); }
    }
  }

  lemma MoreAmong(e: Evaluation, n: nat, id: AlertId)
    requires n < |e.ids| && Among(e, n, id)
    ensures Among(e, n + 1, id)
  {
  }

  lemma LastFired(e: Evaluation, t: Table, n: nat, cfg: Config, u: Table, v: Table)
    requires Valid(e, t) && n < |e.rules| && Leaves(e, t, n, cfg, u)
    requires v == if Fires(e, t, n) then u[e.ids[n] := Fresh(e, e.rules[n], cfg)] else u
    ensures HasFired(e, t, n, cfg, v)
  {
    assert e.ids[n] in e.ids;
    assert !Among(e, n, e.ids[n]);
  }

  lemma {:induction false} LeavesUpTo(e: Evaluation, t: Table, n: nat, cfg: Config)
    requires Valid(e, t) && n <= |e.rules|
    ensures Leaves(e, t, n, cfg, After(e, t, n, cfg).table)
  {
    if n == 0 {
      ResolveLeaves(e, t, cfg);
    } else {
      LeavesUpTo(e, t, n - 1, cfg);
      RuleLeaves(e, t, n - 1, cfg);
    }
  }

  /**
    One evaluation, for every table and all rules: the cluster's open alerts with another health are
    resolved and no other row changes; a rule has a new alert exactly if it is enabled, is for this
    health and has cooled down; and the new alert's columns are the evaluation's.
   */
  lemma EvaluationExactly(e: Evaluation, t: Table, cfg: Config)
    requires Valid(e, t)
    ensures Leaves(e, t, |e.rules|, cfg,
      Run(Around(t), [DoResolve(e.cluster, e.health, e.now)]
                     + Creations(e.rules, e.ids, e.tenant, e.cluster, e.health, e.now), cfg).table)
  {
    LeavesUpTo(e, t, |e.rules|, cfg);
    assert e.rules[..|e.rules|] == e.rules && e.ids[..|e.ids|] == e.ids;
  }
}
