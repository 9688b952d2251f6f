/**
  The store methods and the manager loops, proved against the statements and runs of `Alerts`.
  Sources: internal/store/alerts.go, internal/alerts/manager.go.
 */
module AlertManager {
  import opened Text
  import opened Fleet
  import opened Alerts

  datatype Rule = Rule(id: string, health: Health, cooldownSeconds: nat, enabled: bool)

  /** A system that holds just this table, with no history and with no delivery under way. */
  function Around(t: Table): System { Empty.(table := t) }

  function DedupeKey(rule: Rule, cluster: ClusterId, health: Health): string {
    rule.id + ":" + cluster + ":" + HealthName(health)
  }

  /** The store calls of one Evaluate: resolve, then one creation for each matching enabled rule. */
  function Creations(rules: seq<Rule>, ids: seq<AlertId>, tenant: TenantId, cluster: ClusterId, health: Health,
                     now: Time): seq<Action>
    requires |rules| == |ids|
  {
    if rules == [] then []
    else
      var n := |rules| - 1;
      var init := Creations(rules[..n], ids[..n], tenant, cluster, health, now);
      if rules[n].enabled && rules[n].health == health
      then init + [DoCreate(ids[n], tenant, cluster, DedupeKey(rules[n], cluster, health), health, now,
                            rules[n].cooldownSeconds * SECOND)]
      else init
  }

  lemma {:induction false} CreationsBelong(rules: seq<Rule>, ids: seq<AlertId>, tenant: TenantId, cluster: ClusterId,
                                           health: Health, now: Time)
    requires |rules| == |ids|
    ensures forall a :: a in Creations(rules, ids, tenant, cluster, health, now) ==>
      SameEvaluation(DoResolve(cluster, health, now), a)
    decreases |rules|
  {
    if rules != [] { CreationsBelong(rules[..|rules| - 1], ids[..|ids| - 1], tenant, cluster, health, now); }
  }

  /** The store calls of one Evaluate are an evaluation that nothing overlaps. */
  lemma EvaluationHasNoOverlap(rules: seq<Rule>, ids: seq<AlertId>, tenant: TenantId, cluster: ClusterId,
                               health: Health, now: Time)
    requires |rules| == |ids|
    ensures NoOverlap([DoResolve(cluster, health, now)] + Creations(rules, ids, tenant, cluster, health, now))
  {
    var calls := [DoResolve(cluster, health, now)] + Creations(rules, ids, tenant, cluster, health, now);
    CreationsBelong(rules, ids, tenant, cluster, health, now);
    forall j | 0 <= j < |calls| && calls[j].DoCreate? ensures Undisturbed(calls, j) {
      assert calls[j] in Creations(rules, ids, tenant, cluster, health, now);
      assert SameEvaluation(calls[0], calls[j]);
      forall k | 0 < k < j ensures !Resolves(calls[k], calls[j].cluster) {
        assert calls[k] in Creations(rules, ids, tenant, cluster, health, now);
      }
      assert ResolvesLast(calls, 0, j, calls[j].cluster);
    }
  }

  /** The first n readings of a clock, or answers of a webhook. */
  ghost function Readings<T>(source: nat -> T, n: nat): (s: seq<T>)
    ensures |s| == n && forall i: nat :: i < n ==> s[i] == source(i)
  {
    seq(n, i requires 0 <= i < n => source(i))
  }

  /** One more row sent after the others. */
  lemma {:induction false} ProcessSnoc(t: Table, rows: seq<AlertId>, times: seq<Time>, oks: seq<bool>, id: AlertId,
                                       at: Time, ok: bool, cfg: Config)
    requires |rows| == |times| == |oks| && id in t && id !in rows
    ensures var u := ProcessRows(t, rows, times, oks, cfg);
      && u.Keys == t.Keys && u[id] == t[id]
      && ProcessRows(t, rows + [id], times + [at], oks + [ok], cfg)
        == u[id := SentRow(t[id], t[id].attempts, at, ok, cfg)]
    decreases |rows|
  {
    if rows == [] {
      assert [id][1..] == [] && [at][1..] == [] && [ok][1..] == [];
      assert rows + [id] == [id] && times + [at] == [at] && oks + [ok] == [ok];
    } else {
      var t' := if rows[0] in t then t[rows[0] := SentRow(t[rows[0]], t[rows[0]].attempts, times[0], oks[0], cfg)]
        else t;
      assert (rows + [id])[1..] == rows[1..] + [id] && (times + [at])[1..] == times[1..] + [at];
      assert (oks + [ok])[1..] == oks[1..] + [ok];
      ProcessSnoc(t', rows[1..], times[1..], oks[1..], id, at, ok, cfg);
    }
  }

  lemma ListedRows(t: Table, now: Time, limit: nat, rows: seq<AlertId>)
    requires IsDueList(t, now, limit, rows)
    ensures forall j :: 0 <= j < |rows| ==> rows[j] in t
  {
    forall j | 0 <= j < |rows| ensures rows[j] in t { assert rows[j] in rows; }
  }

  class Manager {
    var alerts: Table
    var rules: seq<Rule>
    const cfg: Config

    constructor (webhook: bool, maxAttempts: int, retryBase: int, rules: seq<Rule>)
      ensures ConfigOk(cfg) && cfg == NewConfig(webhook, maxAttempts, retryBase)
      ensures alerts == map[] && this.rules == rules
    {
      cfg := NewConfig(webhook, maxAttempts, retryBase);
      alerts := map[];
      this.rules := rules;
    }

    /** SELECT triggered_at ... ORDER BY triggered_at DESC LIMIT 1 */
    method LastTriggered(alert: Alert) returns (last: Option<Time>)
      ensures last.None? ==> forall id :: id in alerts ==> !SameKey(alerts[id], alert)
      ensures last.Some? ==>
        exists id :: id in alerts && SameKey(alerts[id], alert) && alerts[id].triggeredAt == last.value
      ensures last.Some? ==>
        forall id :: id in alerts && SameKey(alerts[id], alert) ==> alerts[id].triggeredAt <= last.value
    {
      last := None;
      var rest := alerts.Keys;
      while rest != {}
        invariant rest <= alerts.Keys
        invariant last.None? ==> forall id :: id in alerts && id !in rest ==> !SameKey(alerts[id], alert)
        invariant last.Some? ==>
          exists id :: id in alerts && SameKey(alerts[id], alert) && alerts[id].triggeredAt == last.value
        invariant last.Some? ==>
          forall id :: id in alerts && id !in rest && SameKey(alerts[id], alert)
            ==> alerts[id].triggeredAt <= last.value
        decreases rest
      {
        var id :| id in rest;
        rest := rest - {id};
        var row := alerts[id];
        if row.tenant == alert.tenant && row.dedupeKey == alert.dedupeKey
           && (last.None? || last.value < row.triggeredAt) {
          last := Some(row.triggeredAt);
        }
      }
    }

    method CreateAlertIfDue(id: AlertId, alert: Alert, cooldown: int) returns (created: bool)
      modifies this`alerts
      ensures created <==> !Suppressed(old(alerts), alert, cooldown)
      ensures alerts == CreateIfDue(old(alerts), id, alert, cooldown)
    {
      var last := LastTriggered(alert);
      if last.Some? && alert.triggeredAt < last.value + cooldown { return false; }
      alerts := alerts[id := alert];
      return true;
    }

    /** The first row of a non-empty set in delivery order. */
    method First(due: set<AlertId>) returns (first: AlertId)
      requires due != {} && forall id :: id in due ==> id in alerts && alerts[id].nextAt.Some?
      ensures first in due && forall id :: id in due ==> Earlier(alerts[first], alerts[id])
    {
      first :| first in due;
      var rest := due - {first};
      while rest != {}
        invariant first in due && rest <= due
        invariant forall id :: id in due && id !in rest ==> Earlier(alerts[first], alerts[id])
        decreases rest
      {
        var id :| id in rest;
        rest := rest - {id};
        if !Earlier(alerts[first], alerts[id]) { first := id; }
      }
    }

    method ListDueAlertDeliveries(now: Time, limit: int) returns (rows: seq<AlertId>)
      ensures IsDueList(alerts, now, EffectiveLimit(limit), rows)
    {
      var bound := EffectiveLimit(limit);
      var due := DueSet(alerts, now);
      rows := [];
      var rest := due;
      while rest != {} && |rows| < bound
        invariant Distinct(rows) && |rows| <= bound
        invariant forall id :: id in rows <==> id in due && id !in rest
        invariant rest <= due && |rows| + |rest| == |due|
        invariant forall i, j :: 0 <= i < j < |rows| ==>
          rows[i] in alerts && rows[j] in alerts && Earlier(alerts[rows[i]], alerts[rows[j]])
        invariant forall id, d :: id in rows && d in rest ==> Earlier(alerts[id], alerts[d])
        decreases rest
      {
        var id := First(rest);
        assert id !in rows;
        rest := rest - {id};
        rows := rows + [id];
      }
    }

    /** deliver: `ok` is the webhook's answer, `at` the reading of the clock before the send. */
    method Deliver(id: AlertId, attempts: nat, at: Time, ok: bool)
      requires id in alerts
      modifies this`alerts
      ensures alerts == old(alerts)[id := SentRow(old(alerts)[id], attempts, at, ok, cfg)]
    {
      var n := attempts + 1;
      if ok {
        alerts := alerts[id := DeliveredRow(alerts[id], n, at)];
        return;
      }
      var next: Option<Time> := None;
      if n < cfg.maxAttempts {
        next := Some(at + Delay(cfg.retryBase, n));
      }
      alerts := alerts[id := FailedRow(alerts[id], n, next, at)];
    }

    /**
      The loop of ProcessDue over the listed rows, which carry the attempts read by the query; a
      cancelled context ends it.
     */
    method DeliverEach(rows: seq<AlertId>, listed: Table, times: nat -> Time, oks: nat -> bool, cancelled: nat -> bool)
      returns (sent: nat)
      requires alerts == listed && Distinct(rows) && forall i :: 0 <= i < |rows| ==> rows[i] in listed
      modifies this`alerts
      ensures sent <= |rows| && (sent < |rows| ==> cancelled(sent)) && forall i: nat :: i < sent ==> !cancelled(i)
      ensures alerts == ProcessRows(listed, rows[..sent], Readings(times, sent), Readings(oks, sent), cfg)
    {
      sent := 0;
      while sent < |rows| && !cancelled(sent)
        invariant sent <= |rows| && forall i: nat :: i < sent ==> !cancelled(i)
        invariant alerts.Keys == listed.Keys
        invariant alerts == ProcessRows(listed, rows[..sent], Readings(times, sent), Readings(oks, sent), cfg)
      {
        var id := rows[sent];
        ghost var ts, os := Readings(times, sent), Readings(oks, sent);
        ProcessSnoc(listed, rows[..sent], ts, os, id, times(sent), oks(sent), cfg);
        assert rows[..sent + 1] == rows[..sent] + [id];
        assert Readings(times, sent + 1) == ts + [times(sent)] && Readings(oks, sent + 1) == os + [oks(sent)];
        Deliver(id, listed[id].attempts, times(sent), oks(sent));
        sent := sent + 1;
      }
    }

    /**
      ProcessDue: `times` and `oks` are the clock and the webhook's answers, send by send, and
      `cancelled` what the context says before each.
     */
    method ProcessDue(now: Time, times: nat -> Time, oks: nat -> bool, cancelled: nat -> bool)
      returns (rows: seq<AlertId>, sent: nat)
      modifies this`alerts
      ensures !cfg.webhook ==> rows == [] && alerts == old(alerts)
      ensures cfg.webhook ==> IsDueList(old(alerts), now, 25, rows)
      ensures sent <= |rows| && (sent < |rows| ==> cancelled(sent)) && forall i: nat :: i < sent ==> !cancelled(i)
      ensures alerts == ProcessRows(old(alerts), rows[..sent], Readings(times, sent), Readings(oks, sent), cfg)
      ensures cfg.webhook && sent == |rows| && (forall i: nat :: now <= times(i))
        ==> Round(old(alerts), alerts, cfg, now)
    {
      rows, sent := [], 0;
      if !cfg.webhook { return; }
      rows := ListDueAlertDeliveries(now, 25);
      ListedRows(alerts, now, 25, rows);
      sent := DeliverEach(rows, alerts, times, oks, cancelled);
      if sent == |rows| && forall i: nat :: now <= times(i) {
        assert rows[..sent] == rows;
        ghost var ts := Readings(times, |rows|);
        assert forall i :: 0 <= i < |ts| ==> ts[i] == times(i);
        assert RoundBy(old(alerts), alerts, cfg, now, now, rows, ts, Readings(oks, |rows|));
      }
    }

    /** UPDATE alerts SET ... WHERE ..., row by row. */
    method ResolveClusterAlerts(cluster: ClusterId, health: Health, at: Time)
      modifies this`alerts
      ensures alerts == ResolveCluster(old(alerts), cluster, health, at)
    {
      var rest := alerts.Keys;
      while rest != {}
        invariant alerts.Keys == old(alerts).Keys && rest <= alerts.Keys
        invariant forall id :: id in alerts ==>
          (alerts[id] == if id in rest then old(alerts)[id] else ResolveRow(old(alerts)[id], cluster, health, at))
        decreases rest
      {
        var id :| id in rest;
        rest := rest - {id};
        var row := alerts[id];
        if row.cluster == cluster && row.health != health && (row.status == Firing || row.status == Acknowledged) {
          alerts := alerts[id := row.(status := Resolved, resolvedAt := Some(at))];
        }
      }
    }

    /** Evaluate: one fresh id per rule, the rules in the order the store lists them. */
    method Evaluate(tenant: TenantId, cluster: ClusterId, health: Health, now: Time, ids: seq<AlertId>)
      requires |ids| == |rules| && Distinct(ids) && forall id :: id in ids ==> id !in alerts
      modifies this`alerts
      ensures alerts == Run(Around(old(alerts)),
        [DoResolve(cluster, health, now)] + Creations(old(rules), ids, tenant, cluster, health, now), cfg).table
    {
      ResolveClusterAlerts(cluster, health, now);
      ghost var start := Around(old(alerts));
      ghost var done: seq<Action> := [DoResolve(cluster, health, now)];
      RunSnoc(start, [], done[0], cfg);
      assert [] + [done[0]] == done;
      for i := 0 to |rules|
        invariant done
          == [DoResolve(cluster, health, now)] + Creations(rules[..i], ids[..i], tenant, cluster, health, now)
        invariant alerts == Run(start, done, cfg).table
        invariant forall j :: i <= j < |ids| ==> ids[j] !in alerts
      {
        var rule := rules[i];
        assert rules[..i + 1][..i] == rules[..i] && ids[..i + 1][..i] == ids[..i];
        if !rule.enabled || rule.health != health { continue; }
        var alert := NewAlert(tenant, cluster, DedupeKey(rule, cluster, health), health, now, cfg);
        var action := DoCreate(ids[i], tenant, cluster, DedupeKey(rule, cluster, health), health, now,
          rule.cooldownSeconds * SECOND);
        RunSnoc(start, done, action, cfg);
        ConcatAssoc([DoResolve(cluster, health, now)], Creations(rules[..i], ids[..i], tenant, cluster, health, now),
          [action]);
        var _ := CreateAlertIfDue(ids[i], alert, rule.cooldownSeconds * SECOND);
        done := done + [action];
      }
      assert rules[..|rules|] == rules && ids[..|ids|] == ids;
    }

    method AcknowledgeAlert(id: AlertId, scope: Option<TenantId>, at: Time) returns (result: AckResult)
      modifies this`alerts
      ensures (alerts, result) == Acknowledge(old(alerts), id, scope, at)
    {
      if id in alerts && alerts[id].status == Firing && (scope.None? || alerts[id].tenant == scope.value) {
        alerts := alerts[id := alerts[id].(status := Acknowledged, acknowledgedAt := Some(at))];
        return AckOk;
      }
      if id !in alerts || (scope.Some? && alerts[id].tenant != scope.value) { return AckNotFound; }
      return AckInvalidState;
    }
  }
}
