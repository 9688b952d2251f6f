/**
  What the alert table holds after a whole run, column by column, in terms of the calls made.
  Sources: internal/store/alerts.go, internal/alerts/manager.go.
 */
module AlertColumns {
  import opened Text
  import opened Fleet
  import opened Runs
  import opened Alerts
  import Sets

  ghost function At(actions: seq<Action>, n: nat, cfg: Config): System {
    Run(Empty, if n <= |actions| then actions[..n] else actions, cfg)
  }

  lemma AtStep(actions: seq<Action>, n: nat, cfg: Config)
    requires n < |actions|
    ensures At(actions, n + 1, cfg) == Step(At(actions, n, cfg), actions[n], cfg)
  {
    RunStep(Empty, actions, n, cfg);
  }

  // ---------------------------------------------------------------- due deliveries

  /** Pending or retrying, with its next delivery not after `now`. */
  predicate AwaitsDelivery(t: Table, id: AlertId, now: Time) {
    && id in t && (t[id].delivery == Pending || t[id].delivery == Retrying)
    && t[id].nextAt.Some? && t[id].nextAt.value <= now
  }

  /** Its next delivery is earlier, or is at the same time with the alert triggered no later. */
  predicate GoesBefore(a: Alert, b: Alert) {
    && a.nextAt.Some? && b.nextAt.Some?
    && (a.nextAt.value < b.nextAt.value || (a.nextAt.value == b.nextAt.value && a.triggeredAt <= b.triggeredAt))
  }

  /**
    A list of due deliveries holds alerts that await delivery, each once and in order of their next
    delivery; those it leaves out are left out for lack of room and go after all of it.
   */
  lemma DueListExactly(t: Table, now: Time, limit: nat, rows: seq<AlertId>)
    requires IsDueList(t, now, limit, rows)
    ensures forall i, j :: 0 <= i < j < |rows| ==> rows[i] != rows[j]
    ensures forall id :: id in rows ==> AwaitsDelivery(t, id, now)
    ensures forall i, j :: 0 <= i < j < |rows| && rows[i] in t && rows[j] in t ==> GoesBefore(t[rows[i]], t[rows[j]])
    ensures |rows| <= limit
    ensures forall d :: AwaitsDelivery(t, d, now) && d !in rows ==>
      |rows| == limit && forall id :: id in rows && id in t ==> GoesBefore(t[id], t[d])
  {
    if d :| AwaitsDelivery(t, d, now) && d !in rows {
      DistinctSize(rows);
      assert d in DueSet(t, now);
      var listed := set id | id in rows;
      assert listed < DueSet(t, now);
      Sets.ProperSubsetSmaller(listed, DueSet(t, now));
    }
  }

  /** In every reachable table an alert is due exactly if its next delivery is set and not after `now`. */
  lemma DueExactly(actions: seq<Action>, cfg: Config, id: AlertId, now: Time)
    requires ConfigOk(cfg)
    ensures var t := Run(Empty, actions, cfg).table;
      id in DueSet(t, now) <==> id in t && t[id].nextAt.Some? && t[id].nextAt.value <= now
  {
    DeliveryInvariant(Empty, actions, cfg);
  }

  // ---------------------------------------------------------------- creation

  /** No alert of the tenant and key is inside the cooldown, and the id is new. */
  ghost predicate MayCreate(s: System, a: Action)
    requires a.DoCreate?
  {
    var tenant := if a.tenant == "" then "default" else a.tenant;
    && a.id !in s.table
    && forall id :: id in s.table && s.table[id].tenant == tenant && s.table[id].dedupeKey == a.key ==>
         s.table[id].triggeredAt + a.cooldown <= a.at
  }

  /** The columns that an alert keeps from its creation. */
  datatype Origin = Origin(tenant: TenantId, cluster: ClusterId, key: string, health: Health, at: Time)

  ghost predicate HasOrigin(s: System, id: AlertId, o: Origin) {
    && id in s.table
    && s.table[id].tenant == o.tenant && s.table[id].cluster == o.cluster && s.table[id].dedupeKey == o.key
    && s.table[id].health == o.health && s.table[id].triggeredAt == o.at
  }

  ghost predicate Creates(s: System, a: Action, id: AlertId, o: Origin) {
    && a.DoCreate? && a.id == id && MayCreate(s, a)
    && o == Origin(if a.tenant == "" then "default" else a.tenant, a.cluster, a.key, a.health, a.at)
  }

  lemma OriginStep(s: System, a: Action, id: AlertId, o: Origin, cfg: Config)
    ensures HasOrigin(Step(s, a, cfg), id, o) <==> Creates(s, a, id, o) || HasOrigin(s, id, o)
  {
    StepKeepsOrigin(s, a, cfg);
    if a.DoCreate? { CreateColumns(s, a, cfg); } else { assert Step(s, a, cfg).table.Keys == s.table.Keys; }
  }

  /** A new alert fires, was never sent, and awaits delivery at once if there is a webhook. */
  lemma CreateColumns(s: System, a: Action, cfg: Config)
    requires a.DoCreate?
    ensures var t := Step(s, a, cfg);
      && (a.id in t.table <==> a.id in s.table || MayCreate(s, a))
      && (!MayCreate(s, a) ==> t.table == s.table)
      && (MayCreate(s, a) ==>
            t.table == s.table[a.id := Alert(
              if a.tenant == "" then "default" else a.tenant, a.cluster, a.key, a.health, Firing, a.at, None, None,
              if cfg.webhook then Pending else Disabled, 0, if cfg.webhook then Some(a.at) else None, None, None)])
  {
  }

  ghost function Never(): nat -> bool { (k: nat) => false }

  ghost function Creating(actions: seq<Action>, id: AlertId, o: Origin, cfg: Config): nat -> bool {
    (k: nat) => k < |actions| && Creates(At(actions, k, cfg), actions[k], id, o)
  }

  lemma {:induction false} OriginUpTo(actions: seq<Action>, id: AlertId, o: Origin, cfg: Config, k: nat)
    requires k <= |actions|
    ensures HasOrigin(At(actions, k, cfg), id, o) <==> Since(Creating(actions, id, o, cfg), Never(), k)
    decreases k
  {
    if k == 0 {
      assert actions[..0] == [];
    } else {
      OriginUpTo(actions, id, o, cfg, k - 1);
      AtStep(actions, k - 1, cfg);
      OriginStep(At(actions, k - 1, cfg), actions[k - 1], id, o, cfg);
      SinceStep(Creating(actions, id, o, cfg), Never(), k - 1);
    }
  }

  /**
    Over every run an alert is in the table exactly if some call created it when no alert of its
    tenant and key was inside the cooldown, and it keeps what that call said.
   */
  lemma StoredExactly(actions: seq<Action>, id: AlertId, o: Origin, cfg: Config)
    ensures HasOrigin(Run(Empty, actions, cfg), id, o)
       <==> Since(Creating(actions, id, o, cfg), Never(), |actions|)
  {
    OriginUpTo(actions, id, o, cfg, |actions|);
    assert actions[..|actions|] == actions;
  }

  // ---------------------------------------------------------------- resolution and acknowledgement

  ghost predicate ResolvedAt(s: System, id: AlertId, at: Time) { id in s.table && s.table[id].resolvedAt == Some(at) }

  /** Its cluster is evaluated with another health while it is open. */
  ghost predicate ResolvesIt(s: System, a: Action, id: AlertId, at: Time) {
    && a.DoResolve? && a.at == at && id in s.table && s.table[id].status != Resolved
    && s.table[id].cluster == a.cluster && s.table[id].health != a.health
  }

  ghost predicate AcknowledgedAt(s: System, id: AlertId, at: Time) {
    id in s.table && s.table[id].acknowledgedAt == Some(at)
  }

  /** It is acknowledged while it fires, by someone who may see its tenant. */
  ghost predicate AcknowledgesIt(s: System, a: Action, id: AlertId, at: Time) {
    && a.DoAcknowledge? && a.id == id && a.at == at && id in s.table && s.table[id].status == Firing
    && (a.scope == None || a.scope == Some(s.table[id].tenant))
  }

  /** The status says which of the two times are set. */
  ghost predicate StatusTells(s: System) {
    forall id :: id in s.table ==>
      && (s.table[id].status == Resolved <==> s.table[id].resolvedAt.Some?)
      && (s.table[id].status == Acknowledged <==> s.table[id].resolvedAt.None? && s.table[id].acknowledgedAt.Some?)
  }

  lemma RowStep(s: System, a: Action, id: AlertId, cfg: Config)
    requires id in s.table && a.DoResolve?
    ensures id in Step(s, a, cfg).table
    ensures Step(s, a, cfg).table[id] == ResolveRow(s.table[id], a.cluster, a.health, a.at)
  {
  }

  lemma ResolvedStep(s: System, a: Action, id: AlertId, at: Time, cfg: Config)
    requires StatusTells(s)
    ensures ResolvedAt(Step(s, a, cfg), id, at) <==> ResolvesIt(s, a, id, at) || ResolvedAt(s, id, at)
  {
    if a.DoCreate? {
      CreateColumns(s, a, cfg);
    } else if a.DoResolve? && id in s.table {
      RowStep(s, a, id, cfg);
    }
  }

  lemma AcknowledgedStep(s: System, a: Action, id: AlertId, at: Time, cfg: Config)
    requires StatusTells(s)
    ensures AcknowledgedAt(Step(s, a, cfg), id, at) <==> AcknowledgesIt(s, a, id, at) || AcknowledgedAt(s, id, at)
  {
    if a.DoCreate? {
      CreateColumns(s, a, cfg);
    } else if a.DoResolve? && id in s.table {
      RowStep(s, a, id, cfg);
    }
  }

  lemma StatusStep(s: System, a: Action, cfg: Config)
    requires StatusTells(s)
    ensures StatusTells(Step(s, a, cfg))
  {
    var t := Step(s, a, cfg);
    if a.DoCreate? {
      CreateColumns(s, a, cfg);
    } else if a.DoResolve? {
      forall id | id in t.table
        ensures id in s.table && t.table[id] == ResolveRow(s.table[id], a.cluster, a.health, a.at)
      {
        RowStep(s, a, id, cfg);
      }
    }
  }

  ghost function Resolving(actions: seq<Action>, id: AlertId, at: Time, cfg: Config): nat -> bool {
    (k: nat) => k < |actions| && ResolvesIt(At(actions, k, cfg), actions[k], id, at)
  }

  ghost function Acknowledging(actions: seq<Action>, id: AlertId, at: Time, cfg: Config): nat -> bool {
    (k: nat) => k < |actions| && AcknowledgesIt(At(actions, k, cfg), actions[k], id, at)
  }

  lemma TimesAt(actions: seq<Action>, id: AlertId, at: Time, cfg: Config, k: nat)
    requires k < |actions| && StatusTells(At(actions, k, cfg))
    ensures var s, t := At(actions, k, cfg), At(actions, k + 1, cfg);
      && StatusTells(t)
      && (ResolvedAt(t, id, at) <==> Resolving(actions, id, at, cfg)(k) || ResolvedAt(s, id, at))
      && (AcknowledgedAt(t, id, at) <==> Acknowledging(actions, id, at, cfg)(k) || AcknowledgedAt(s, id, at))
  {
    var s := At(actions, k, cfg);
    AtStep(actions, k, cfg);
    StatusStep(s, actions[k], cfg);
    ResolvedStep(s, actions[k], id, at, cfg);
    AcknowledgedStep(s, actions[k], id, at, cfg);
  }

  lemma {:induction false} TimesUpTo(actions: seq<Action>, id: AlertId, at: Time, cfg: Config, k: nat)
    requires k <= |actions|
    ensures StatusTells(At(actions, k, cfg))
    ensures ResolvedAt(At(actions, k, cfg), id, at) <==> Since(Resolving(actions, id, at, cfg), Never(), k)
    ensures AcknowledgedAt(At(actions, k, cfg), id, at) <==> Since(Acknowledging(actions, id, at, cfg), Never(), k)
    decreases k
  {
    if k == 0 {
      assert actions[..0] == [];
    } else {
      TimesUpTo(actions, id, at, cfg, k - 1);
      TimesAt(actions, id, at, cfg, k - 1);
      SinceStep(Resolving(actions, id, at, cfg), Never(), k - 1);
      SinceStep(Acknowledging(actions, id, at, cfg), Never(), k - 1);
    }
  }

  /**
    Over every run an alert carries a time of resolution exactly if its cluster was evaluated with
    another health at that time while it was open, and a time of acknowledgement exactly if somebody
    with access acknowledged it at that time while it was firing; its status says which are set.
   */
  lemma StatusExactly(actions: seq<Action>, id: AlertId, at: Time, cfg: Config)
    ensures StatusTells(Run(Empty, actions, cfg))
    ensures ResolvedAt(Run(Empty, actions, cfg), id, at)
       <==> Since(Resolving(actions, id, at, cfg), Never(), |actions|)
    ensures AcknowledgedAt(Run(Empty, actions, cfg), id, at)
       <==> Since(Acknowledging(actions, id, at, cfg), Never(), |actions|)
  {
    TimesUpTo(actions, id, at, cfg, |actions|);
    assert actions[..|actions|] == actions;
  }

  /** Who acknowledges is told what became of it; only a firing alert within reach changes. */
  lemma AcknowledgeAnswers(t: Table, id: AlertId, scope: Option<TenantId>, at: Time)
    ensures var (u, result) := Acknowledge(t, id, scope, at);
      var seen := id in t && (scope == None || scope == Some(t[id].tenant));
      && (result == AckNotFound <==> !seen)
      && (result == AckInvalidState <==> seen && t[id].status != Firing)
      && (result == AckOk <==> seen && t[id].status == Firing)
      && u == if result == AckOk then t[id := t[id].(status := Acknowledged, acknowledgedAt := Some(at))] else t
  {
  }

  // ---------------------------------------------------------------- delivery columns

  /** The delivery columns of a row, read off the sends made for it. */
  ghost predicate Stamped(a: Alert, sends: seq<Send>, cfg: Config) {
    var last := if sends == [] then None else Some(sends[|sends| - 1].at);
    && (a.delivery == Delivered ==> a.deliveredAt == last && last.Some?)
    && (a.delivery != Delivered ==> a.deliveredAt == None)
    && (a.delivery == DeadLetter ==> a.deadLetteredAt == last && last.Some?)
    && (a.delivery != DeadLetter ==> a.deadLetteredAt == None)
    && (a.delivery == Pending ==> a.nextAt == Some(a.triggeredAt))
    && (a.delivery == Disabled <==> !cfg.webhook)
  }

  ghost predicate AllStamped(s: System, cfg: Config) {
    forall id :: id in s.table ==> Stamped(s.table[id], SendsOf(s.sends, id), cfg)
  }

  lemma SentStamped(a: Alert, sends: seq<Send>, attempts: nat, send: Send, cfg: Config)
    requires Stamped(a, sends, cfg) && cfg.webhook && (a.delivery == Pending || a.delivery == Retrying)
    ensures Stamped(SentRow(a, attempts, send.at, send.ok, cfg), sends + [send], cfg)
  {
  }

  lemma DeliverStamped(s: System, t: System, attempts: nat, send: Send, cfg: Config)
    requires AllStamped(s, cfg) && cfg.webhook && send.id in s.table
    requires s.table[send.id].delivery == Pending || s.table[send.id].delivery == Retrying
    requires t.table == s.table[send.id := SentRow(s.table[send.id], attempts, send.at, send.ok, cfg)]
    requires t.sends == s.sends + [send]
    ensures AllStamped(t, cfg)
  {
    SentStamped(s.table[send.id], SendsOf(s.sends, send.id), attempts, send, cfg);
    forall k | k in t.table ensures Stamped(t.table[k], SendsOf(t.sends, k), cfg) {
      SendsOfSnoc(s.sends, send, k);
      assert k != send.id ==> SendsOf(s.sends, k) + [] == SendsOf(s.sends, k);
    }
  }

  lemma QuietStamped(s: System, t: System, cfg: Config)
    requires AllStamped(s, cfg) && t.sends == s.sends
    requires forall id :: id in s.table ==>
      id in t.table && SameDelivery(s.table[id], t.table[id]) && t.table[id].triggeredAt == s.table[id].triggeredAt
    requires forall id :: id in t.table && id !in s.table ==> Stamped(t.table[id], SendsOf(s.sends, id), cfg)
    ensures AllStamped(t, cfg)
  {
    forall id | id in t.table ensures Stamped(t.table[id], SendsOf(t.sends, id), cfg) {
      if id in s.table { assert Stamped(s.table[id], SendsOf(s.sends, id), cfg); }
    }
  }

  lemma StampedStep(s: System, a: Action, cfg: Config)
    requires ConfigOk(cfg) && DeliveryOk(s, cfg) && AllStamped(s, cfg)
    ensures AllStamped(Step(s, a, cfg), cfg)
  {
    match a
    case DoDeliver(at, ok) =>
      if s.batch != [] && s.clock <= at {
        DeliverIs(s, at, ok, cfg);
        assert Stamped(s.table[s.batch[0].0], SendsOf(s.sends, s.batch[0].0), cfg);
        DeliverStamped(s, Step(s, a, cfg), s.batch[0].1, Send(s.batch[0].0, at, ok), cfg);
      }
    case DoList(_, _) =>
    case DoStop =>
    case DoCreate(_, _, _, _, _, _, _) =>
      CreateColumns(s, a, cfg);
      QuietStamped(s, Step(s, a, cfg), cfg);
    case _ =>
      LifecycleLeavesDelivery(s, a, cfg);
      StepKeepsOrigin(s, a, cfg);
      QuietStamped(s, Step(s, a, cfg), cfg);
  }

  lemma {:induction false} RunStamped(s: System, actions: seq<Action>, cfg: Config)
    requires ConfigOk(cfg) && DeliveryOk(s, cfg) && AllStamped(s, cfg)
    ensures AllStamped(Run(s, actions, cfg), cfg)
    decreases |actions|
  {
    if actions != [] {
      StampedStep(s, actions[0], cfg);
      StepDelivery(s, actions[0], cfg);
      RunStamped(Step(s, actions[0], cfg), actions[1..], cfg);
    }
  }

  /**
    In every reachable table: a delivered alert says when its last send was accepted, a dead-lettered
    one when its last send failed, a pending one is due from its creation, and only a hub without a
    webhook has disabled ones.
   */
  lemma DeliveryStamps(actions: seq<Action>, cfg: Config, id: AlertId)
    requires ConfigOk(cfg) && id in Run(Empty, actions, cfg).table
    ensures var s := Run(Empty, actions, cfg); Stamped(s.table[id], SendsOf(s.sends, id), cfg)
  {
    RunStamped(Empty, actions, cfg);
  }
}
