/**
  Durable alerts: the alert table with the effect of each SQL statement on it, and what every run
  of evaluations, acknowledgements and deliveries keeps.
  Sources: internal/store/alerts.go, internal/alerts/manager.go.
 */
module Alerts {
  import opened Text
  import opened Fleet
  import opened Sets

  type AlertId = string

  datatype Status = Firing | Acknowledged | Resolved
  datatype Delivery = Pending | Retrying | Delivered | DeadLetter | Disabled

  datatype Alert = Alert(
    tenant: TenantId, cluster: ClusterId, dedupeKey: string, health: Health,
    status: Status, triggeredAt: Time, acknowledgedAt: Option<Time>, resolvedAt: Option<Time>,
    delivery: Delivery, attempts: nat, nextAt: Option<Time>,
    deliveredAt: Option<Time>, deadLetteredAt: Option<Time>)

  type Table = map<AlertId, Alert>

  // ---------------------------------------------------------------- configuration and backoff

  const SECOND: int := 1_000_000_000
  const HOUR: int := 3600 * SECOND   // maxRetryDelay

  datatype Config = Config(webhook: bool, maxAttempts: int, retryBase: int)

  /** The defaults that New fills in. */
  function NewConfig(webhook: bool, maxAttempts: int, retryBase: int): (cfg: Config)
    ensures cfg.webhook == webhook
    ensures cfg.maxAttempts == maxAttempts || (maxAttempts <= 0 && cfg.maxAttempts == 5)
    ensures cfg.retryBase == retryBase || (retryBase <= 0 && cfg.retryBase == 5_000_000_000)
    ensures cfg.maxAttempts >= 1 && cfg.retryBase > 0
  {
    Config(webhook, if maxAttempts <= 0 then 5 else maxAttempts, if retryBase <= 0 then 5 * SECOND else retryBase)
  }

  ghost predicate ConfigOk(cfg: Config) { cfg.maxAttempts >= 1 && cfg.retryBase > 0 }

  /** base doubled n times */
  function Doubled(base: int, n: nat): int { if n == 0 then base else 2 * Doubled(base, n - 1) }

  function Pow2(n: nat): nat { if n == 0 then 1 else 2 * Pow2(n - 1) }

  lemma {:induction false} DoubledIsProduct(base: int, n: nat)
    ensures Doubled(base, n) == base * Pow2(n)
  {
    if n > 0 {
      DoubledIsProduct(base, n - 1);
      assert base * Pow2(n) == 2 * (base * Pow2(n - 1));
    }
  }

  function Min(a: int, b: int): int { if a <= b then a else b }

  /** The delay after the given number of attempts: doubling from the base, capped at an hour. */
  function Delay(base: int, attempts: nat): int
    requires attempts >= 1
  {
    Min(Doubled(base, attempts - 1), HOUR)
  }

  lemma {:induction false} DoubledGrows(base: int, m: nat, n: nat)
    requires base > 0 && m <= n
    ensures 0 < Doubled(base, m) <= Doubled(base, n)
    decreases n
  {
    if m < n {
      DoubledGrows(base, m, n - 1);
    } else if n > 0 {
      DoubledGrows(base, m - 1, n - 1);
    }
  }

  lemma DelayPositive(base: int, attempts: nat)
    requires base > 0 && attempts >= 1
    ensures 0 < Delay(base, attempts) <= HOUR
  {
    DoubledGrows(base, attempts - 1, attempts - 1);
  }

  /** The specification in closed form. */
  lemma DelayClosedForm(base: int, attempts: nat)
    requires base > 0 && attempts >= 1
    ensures Delay(base, attempts) == Min(base * Pow2(attempts - 1), HOUR)
  {
    DoubledIsProduct(base, attempts - 1);
  }

  /** Go's int64, the representation of time.Duration. */
  newtype Int64 = x: int | -0x8000_0000_0000_0000 <= x < 0x8000_0000_0000_0000

  /** retryDelay. All its arithmetic is on Int64, so no intermediate value can overflow. */
  method RetryDelay(base: Int64, attempts: int) returns (delay: Int64)
    requires base > 0
    ensures attempts >= 1 ==> delay as int == Delay(base as int, attempts)
    ensures attempts < 1 ==> delay as int == Min(base as int, HOUR)
  {
    var max: Int64 := 3_600_000_000_000;
    delay := base;
    var i := 1;
    while i < attempts
      invariant 1 <= i && (if attempts < 1 then i == 1 else i <= attempts)
      invariant 0 < delay as int == Doubled(base as int, i - 1)
      invariant i > 1 ==> delay < max
    {
      if delay >= max / 2 {
        DoubledGrows(base as int, i, attempts - 1);
        return max;
      }
      delay := delay * 2;
      i := i + 1;
    }
    if delay > max { return max; }
  }

  // ---------------------------------------------------------------- statements

  ghost predicate SameKey(a: Alert, b: Alert) { a.tenant == b.tenant && a.dedupeKey == b.dedupeKey }

  /** The check of CreateAlertIfDue: some alert with the key is still inside its cooldown. */
  ghost predicate Suppressed(t: Table, alert: Alert, cooldown: int) {
    exists id :: id in t && SameKey(t[id], alert) && alert.triggeredAt < t[id].triggeredAt + cooldown
  }

  ghost function CreateIfDue(t: Table, id: AlertId, alert: Alert, cooldown: int): Table {
    if Suppressed(t, alert, cooldown) then t else t[id := alert]
  }

  /** ResolveClusterAlerts on one row */
  function ResolveRow(a: Alert, cluster: ClusterId, health: Health, at: Time): Alert {
    if a.cluster == cluster && a.health != health && a.status != Resolved
    then a.(status := Resolved, resolvedAt := Some(at)) else a
  }

  function ResolveCluster(t: Table, cluster: ClusterId, health: Health, at: Time): Table {
    map id | id in t :: ResolveRow(t[id], cluster, health, at)
  }

  datatype AckResult = AckOk | AckNotFound | AckInvalidState

  /** acknowledgeAlert; no tenant means the unscoped variant */
  function Acknowledge(t: Table, id: AlertId, tenant: Option<TenantId>, at: Time): (Table, AckResult) {
    if id !in t || (tenant.Some? && t[id].tenant != tenant.value) then (t, AckNotFound)
    else if t[id].status != Firing then (t, AckInvalidState)
    else (t[id := t[id].(status := Acknowledged, acknowledgedAt := Some(at))], AckOk)
  }

  /** RecordAlertDelivered on its row */
  function DeliveredRow(a: Alert, attempts: nat, at: Time): Alert {
    a.(delivery := Delivered, attempts := attempts, nextAt := None, deliveredAt := Some(at))
  }

  /** RecordAlertDeliveryFailure on its row */
  function FailedRow(a: Alert, attempts: nat, next: Option<Time>, at: Time): Alert {
    a.(delivery := if next == None then DeadLetter else Retrying, attempts := attempts,
       nextAt := next, deadLetteredAt := if next == None then Some(at) else None)
  }

  /** deliver: `attempts` is what the listed row said, `ok` what the webhook answered. */
  function SentRow(a: Alert, attempts: nat, at: Time, ok: bool, cfg: Config): Alert {
    var n := attempts + 1;
    if ok then DeliveredRow(a, n, at)
    else FailedRow(a, n, if n < cfg.maxAttempts then Some(at + Delay(cfg.retryBase, n)) else None, at)
  }

  // ---------------------------------------------------------------- due deliveries

  predicate Due(a: Alert, now: Time) {
    (a.delivery == Pending || a.delivery == Retrying) && a.nextAt.Some? && a.nextAt.value <= now
  }

  function DueSet(t: Table, now: Time): set<AlertId> { set id | id in t && Due(t[id], now) }

  /** ORDER BY next_delivery_at, triggered_at */
  predicate Earlier(a: Alert, b: Alert) {
    && a.nextAt.Some? && b.nextAt.Some?
    && (a.nextAt.value < b.nextAt.value || (a.nextAt == b.nextAt && a.triggeredAt <= b.triggeredAt))
  }

  ghost predicate Distinct<T>(s: seq<T>) { forall i, j :: 0 <= i < j < |s| ==> s[i] != s[j] }

  /** What ListDueAlertDeliveries may return; ties are in any order. */
  ghost predicate IsDueList(t: Table, now: Time, limit: nat, rows: seq<AlertId>) {
    && Distinct(rows)
    && (forall id :: id in rows ==> id in DueSet(t, now))
    && |rows| == Min(limit, |DueSet(t, now)|)
    && (forall i, j :: 0 <= i < j < |rows| && rows[i] in t && rows[j] in t ==> Earlier(t[rows[i]], t[rows[j]]))
    && (forall id, d :: id in rows && id in t && d in DueSet(t, now) && d !in rows ==> Earlier(t[id], t[d]))
  }

  /** ListDueAlertDeliveries' treatment of its limit */
  function EffectiveLimit(limit: int): (n: nat)
    ensures 1 <= limit <= 100 ==> n == limit
    ensures limit < 1 || limit > 100 ==> n == 25
  {
    if limit <= 0 || limit > 100 then 25 else limit
  }

  // ---------------------------------------------------------------- runs

  datatype Send = Send(id: AlertId, at: Time, ok: bool)
  datatype Creation = Creation(id: AlertId, cooldown: int)

  /**
    The table with its histories: the creations in order with their cooldowns, the health each
    cluster was last evaluated at, and the sends. `batch` is what the single delivery worker has
    listed and not yet processed, `clock` its last reading of the clock.
   */
  datatype System = System(table: Table, created: seq<Creation>, evaluated: map<ClusterId, Health>,
                           clock: Time, batch: seq<(AlertId, nat)>, sends: seq<Send>)

  /** Each action is one store call, so evaluations and deliveries interleave freely. */
  datatype Action =
    | DoResolve(cluster: ClusterId, health: Health, at: Time)   // Evaluate, first call
    | DoCreate(id: AlertId, tenant: TenantId, cluster: ClusterId, key: string, health: Health, at: Time, cooldown: int)
    | DoAcknowledge(id: AlertId, scope: Option<TenantId>, at: Time)
    | DoList(now: Time, rows: seq<AlertId>)                     // ProcessDue, its query
    | DoDeliver(at: Time, ok: bool)                             // deliver, on the next listed row
    | DoStop                                                    // the context ended between two rows

  /** The row Evaluate builds for a matching rule. */
  function NewAlert(tenant: TenantId, cluster: ClusterId, key: string, health: Health, at: Time, cfg: Config): Alert {
    Alert(NormalizeTenant(tenant), cluster, key, health, Firing, at, None, None,
          if cfg.webhook then Pending else Disabled, 0, if cfg.webhook then Some(at) else None, None, None)
  }

  function AttemptsOf(t: Table, rows: seq<AlertId>): seq<(AlertId, nat)>
    requires forall id :: id in rows ==> id in t
  {
    seq(|rows|, i requires 0 <= i < |rows| => (rows[i], t[rows[i]].attempts))
  }

  /** An action that the code cannot take in `s` leaves it unchanged. */
  ghost function Step(s: System, a: Action, cfg: Config): System {
    match a
    case DoResolve(cluster, health, at) =>
      s.(table := ResolveCluster(s.table, cluster, health, at), evaluated := s.evaluated[cluster := health])
    case DoCreate(id, tenant, cluster, key, health, at, cooldown) =>
      if id in s.table then s
      else
        var alert := NewAlert(tenant, cluster, key, health, at, cfg);
        if Suppressed(s.table, alert, cooldown) then s
        else s.(table := s.table[id := alert], created := s.created + [Creation(id, cooldown)])
    case DoAcknowledge(id, tenant, at) => s.(table := Acknowledge(s.table, id, tenant, at).0)
    case DoList(now, rows) =>
      if cfg.webhook && s.batch == [] && s.clock <= now && IsDueList(s.table, now, 25, rows)
      then s.(batch := AttemptsOf(s.table, rows), clock := now)
      else s
    case DoDeliver(at, ok) =>
      if s.batch == [] || at < s.clock || s.batch[0].0 !in s.table then s
      else
        var (id, attempts) := s.batch[0];
        s.(table := s.table[id := SentRow(s.table[id], attempts, at, ok, cfg)],
           clock := at, batch := s.batch[1..], sends := s.sends + [Send(id, at, ok)])
    case DoStop => s.(batch := [])
  }

  ghost function Run(s: System, actions: seq<Action>, cfg: Config): System
    decreases |actions|
  {
    if actions == [] then s else Run(Step(s, actions[0], cfg), actions[1..], cfg)
  }

  const Empty: System := System(map[], [], map[], 0, [], [])

  // ---------------------------------------------------------------- cooldown separation

  /** Every alert was triggered its cooldown after each alert with its key created before it. */
  ghost predicate Separated(s: System) {
    && (forall i :: 0 <= i < |s.created| ==> s.created[i].id in s.table)
    && (forall i, j :: 0 <= i < j < |s.created| ==> Apart(s.table, s.created[i], s.created[j]))
    && (forall id :: id in s.table ==> exists i :: 0 <= i < |s.created| && s.created[i].id == id)
  }

  ghost predicate Apart(t: Table, earlier: Creation, later: Creation) {
    && earlier.id in t && later.id in t
    && (SameKey(t[earlier.id], t[later.id]) ==>
          t[later.id].triggeredAt >= t[earlier.id].triggeredAt + later.cooldown)
  }

  /** The columns that no statement rewrites. */
  ghost predicate SameOrigin(a: Alert, b: Alert) {
    && a.tenant == b.tenant && a.dedupeKey == b.dedupeKey && a.triggeredAt == b.triggeredAt
    && a.cluster == b.cluster && a.health == b.health
  }

  ghost predicate RowsKeepOrigin(t: Table, u: Table) {
    forall id :: id in t ==> id in u && SameOrigin(t[id], u[id])
  }

  lemma StepKeepsOrigin(s: System, a: Action, cfg: Config)
    ensures RowsKeepOrigin(s.table, Step(s, a, cfg).table)
  {
  }

  lemma OriginKeepsSeparated(s: System, t: System)
    requires Separated(s)
    requires t.created == s.created && t.table.Keys == s.table.Keys && RowsKeepOrigin(s.table, t.table)
    ensures Separated(t)
  {
    forall i, j | 0 <= i < j < |t.created| ensures Apart(t.table, t.created[i], t.created[j]) {
      assert Apart(s.table, s.created[i], s.created[j]);
    }
    forall id | id in t.table ensures exists i :: 0 <= i < |t.created| && t.created[i].id == id {
      assert id in s.table;
    }
  }

  /** A new alert that no alert with its key suppresses. */
  lemma CreationSeparated(s: System, t: System, id: AlertId, alert: Alert, cooldown: int)
    requires Separated(s) && id !in s.table && !Suppressed(s.table, alert, cooldown)
    requires t.table == s.table[id := alert] && t.created == s.created + [Creation(id, cooldown)]
    ensures Separated(t)
  {
    var n := |s.created|;
    forall i, j | 0 <= i < j < |t.created| ensures Apart(t.table, t.created[i], t.created[j]) {
      if j < n { assert Apart(s.table, s.created[i], s.created[j]); }
    }
    forall k | k in t.table ensures exists i :: 0 <= i < |t.created| && t.created[i].id == k {
      if k == id {
        assert t.created[n].id == id;
      } else {
        var i :| 0 <= i < n && s.created[i].id == k;
        assert t.created[i].id == k;
      }
    }
  }

  lemma StepSeparated(s: System, a: Action, cfg: Config)
    requires Separated(s)
    ensures Separated(Step(s, a, cfg))
  {
    var t := Step(s, a, cfg);
    if a.DoCreate? {
      CreateIs(s, a, cfg);
      if t != s {
        CreationSeparated(s, t, a.id, t.table[a.id], a.cooldown);
      }
    } else {
      StepKeepsOrigin(s, a, cfg);
      OtherIs(s, a, cfg);
      OriginKeepsSeparated(s, t);
    }
  }

  lemma CreateIs(s: System, a: Action, cfg: Config)
    requires a.DoCreate?
    ensures var t, alert := Step(s, a, cfg), NewAlert(a.tenant, a.cluster, a.key, a.health, a.at, cfg);
      if a.id in s.table || Suppressed(s.table, alert, a.cooldown) then t == s
      else t == s.(table := s.table[a.id := alert], created := s.created + [Creation(a.id, a.cooldown)])
  {
  }

  lemma OtherIs(s: System, a: Action, cfg: Config)
    requires !a.DoCreate?
    ensures Step(s, a, cfg).created == s.created && Step(s, a, cfg).table.Keys == s.table.Keys
  {
  }

  /** Cooldown separation over whole runs, whatever the clocks and the rule edits. */
  lemma {:induction false} CooldownSeparation(s: System, actions: seq<Action>, cfg: Config)
    requires Separated(s)
    ensures Separated(Run(s, actions, cfg))
    decreases |actions|
  {
    if actions != [] {
      StepSeparated(s, actions[0], cfg);
      CooldownSeparation(Step(s, actions[0], cfg), actions[1..], cfg);
    }
  }

  // ---------------------------------------------------------------- lifecycle

  ghost predicate ResolvedTimes(t: Table) {
    forall id :: id in t ==> (t[id].resolvedAt.Some? <==> t[id].status == Resolved)
  }

  /** Alerts that are not resolved carry the health their cluster was last evaluated at. */
  ghost predicate Current(s: System) {
    forall id :: id in s.table && s.table[id].status != Resolved ==>
      s.table[id].cluster in s.evaluated && s.table[id].health == s.evaluated[s.table[id].cluster]
  }

  function Rank(status: Status): nat {
    match status case Firing => 0 case Acknowledged => 1 case Resolved => 2
  }

  /** Status never moves back. */
  ghost predicate StatusAdvances(t: Table, u: Table) {
    forall id :: id in t ==> id in u && Rank(t[id].status) <= Rank(u[id].status)
  }

  lemma StepStatus(s: System, a: Action, cfg: Config)
    requires ResolvedTimes(s.table)
    ensures ResolvedTimes(Step(s, a, cfg).table) && StatusAdvances(s.table, Step(s, a, cfg).table)
  {
    if a.DoResolve? {
      forall id | id in s.table ensures Step(s, a, cfg).table[id] == ResolveRow(s.table[id], a.cluster, a.health, a.at)
      {
      }
    }
  }

  /** In every run resolved_at is set iff the alert is resolved, and no status moves back. */
  lemma {:induction false} StatusLifecycle(s: System, actions: seq<Action>, cfg: Config)
    requires ResolvedTimes(s.table)
    ensures ResolvedTimes(Run(s, actions, cfg).table) && StatusAdvances(s.table, Run(s, actions, cfg).table)
    decreases |actions|
  {
    if actions != [] {
      StepStatus(s, actions[0], cfg);
      StatusLifecycle(Step(s, actions[0], cfg), actions[1..], cfg);
    }
  }

  /** Evaluate creates alerts with the cluster, the health and the time that it has resolved with. */
  predicate SameEvaluation(resolve: Action, create: Action) {
    && resolve.DoResolve? && create.DoCreate?
    && resolve.cluster == create.cluster && resolve.health == create.health && resolve.at == create.at
  }

  predicate Resolves(a: Action, cluster: ClusterId) { a.DoResolve? && a.cluster == cluster }

  /** The last of the first n calls that resolves the cluster. */
  ghost predicate ResolvesLast(actions: seq<Action>, i: nat, n: nat, cluster: ClusterId)
    requires i < n <= |actions|
  {
    Resolves(actions[i], cluster) && forall k :: i < k < n ==> !Resolves(actions[k], cluster)
  }

  /** Every creation belongs to an evaluation that has started before it. */
  ghost predicate ByEvaluations(actions: seq<Action>) {
    forall j :: 0 <= j < |actions| && actions[j].DoCreate? ==>
      exists i :: 0 <= i < j && SameEvaluation(actions[i], actions[j])
  }

  /** And no other evaluation of the cluster starts in between. */
  ghost predicate NoOverlap(actions: seq<Action>) {
    forall j :: 0 <= j < |actions| && actions[j].DoCreate? ==> Undisturbed(actions, j)
  }

  ghost predicate Undisturbed(actions: seq<Action>, j: nat)
    requires j < |actions| && actions[j].DoCreate?
  {
    exists i :: 0 <= i < j && SameEvaluation(actions[i], actions[j]) && ResolvesLast(actions, i, j, actions[j].cluster)
  }

  /** Evaluations that follow one another do not overlap. */
  lemma NoOverlapAppend(a: seq<Action>, b: seq<Action>)
    requires NoOverlap(a) && NoOverlap(b)
    ensures NoOverlap(a + b)
  {
    var c := a + b;
    forall j | 0 <= j < |c| && c[j].DoCreate? ensures Undisturbed(c, j) {
      if j < |a| {
        assert Undisturbed(a, j);
        var i :| 0 <= i < j && SameEvaluation(a[i], a[j]) && ResolvesLast(a, i, j, a[j].cluster);
        assert ResolvesLast(c, i, j, c[j].cluster);
      } else {
        var m := j - |a|;
        assert Undisturbed(b, m);
        var i :| 0 <= i < m && SameEvaluation(b[i], b[m]) && ResolvesLast(b, i, m, b[m].cluster);
        forall k | |a| + i < k < j ensures !Resolves(c[k], c[j].cluster) { assert c[k] == b[k - |a|]; }
        assert ResolvesLast(c, |a| + i, j, c[j].cluster);
      }
    }
  }

  lemma {:induction false} RunAppend(s: System, a: seq<Action>, b: seq<Action>, cfg: Config)
    ensures Run(s, a + b, cfg) == Run(Run(s, a, cfg), b, cfg)
    decreases |a|
  {
    if a == [] {
      assert a + b == b;
    } else {
      assert (a + b)[1..] == a[1..] + b;
      RunAppend(Step(s, a[0], cfg), a[1..], b, cfg);
    }
  }

  lemma RunSnoc(s: System, a: seq<Action>, action: Action, cfg: Config)
    ensures Run(s, a + [action], cfg) == Step(Run(s, a, cfg), action, cfg)
  {
    RunAppend(s, a, [action], cfg);
    assert Run(Run(s, a, cfg), [action], cfg) == Run(Step(Run(s, a, cfg), action, cfg), [], cfg);
  }

  lemma RunStep(s: System, actions: seq<Action>, n: nat, cfg: Config)
    requires n < |actions|
    ensures Run(s, actions[..n + 1], cfg) == Step(Run(s, actions[..n], cfg), actions[n], cfg)
  {
    assert actions[..n + 1] == actions[..n] + [actions[n]];
    RunSnoc(s, actions[..n], actions[n], cfg);
  }

  /**
    The last of the first n calls that resolves the cluster saw this health, or none did and the
    cluster started with it.
   */
  ghost predicate LastSeen(s: System, actions: seq<Action>, n: nat, cluster: ClusterId, health: Health)
    requires n <= |actions|
  {
    || (exists i :: 0 <= i < n && ResolvesLast(actions, i, n, cluster) && actions[i].health == health)
    || ((forall i :: 0 <= i < n ==> !Resolves(actions[i], cluster))
        && cluster in s.evaluated && s.evaluated[cluster] == health)
  }

  ghost predicate EvaluatedAt(s: System, cluster: ClusterId, health: Health) {
    cluster in s.evaluated && s.evaluated[cluster] == health
  }

  lemma LastSeenStep(s: System, actions: seq<Action>, n: nat, cluster: ClusterId, health: Health)
    requires n < |actions|
    ensures LastSeen(s, actions, n + 1, cluster, health)
       <==> if Resolves(actions[n], cluster) then actions[n].health == health
         else LastSeen(s, actions, n, cluster, health)
  {
    if Resolves(actions[n], cluster) {
      assert ResolvesLast(actions, n, n + 1, cluster);
    } else {
      forall i | 0 <= i < n ensures ResolvesLast(actions, i, n + 1, cluster) <==> ResolvesLast(actions, i, n, cluster) {
      }
    }
  }

  /** The health recorded for a cluster is the one its last resolve saw. */
  lemma EvaluatedStep(s: System, a: Action, cfg: Config, cluster: ClusterId, health: Health)
    ensures EvaluatedAt(Step(s, a, cfg), cluster, health)
       <==> if Resolves(a, cluster) then a.health == health else EvaluatedAt(s, cluster, health)
  {
  }

  lemma EvaluatedNext(s: System, actions: seq<Action>, n: nat, cfg: Config, cluster: ClusterId, health: Health)
    requires n < |actions|
    ensures EvaluatedAt(Run(s, actions[..n + 1], cfg), cluster, health)
       <==> if Resolves(actions[n], cluster) then actions[n].health == health
            else EvaluatedAt(Run(s, actions[..n], cfg), cluster, health)
  {
    RunStep(s, actions, n, cfg);
    EvaluatedStep(Run(s, actions[..n], cfg), actions[n], cfg, cluster, health);
  }

  lemma {:induction false} EvaluatedIsLastSeen(s: System, actions: seq<Action>, n: nat, cfg: Config,
                                               cluster: ClusterId, health: Health)
    requires n <= |actions|
    ensures EvaluatedAt(Run(s, actions[..n], cfg), cluster, health) <==> LastSeen(s, actions, n, cluster, health)
    decreases n
  {
    if n > 0 {
      EvaluatedIsLastSeen(s, actions, n - 1, cfg, cluster, health);
      EvaluatedNext(s, actions, n - 1, cfg, cluster, health);
      LastSeenStep(s, actions, n - 1, cluster, health);
    }
  }

  /**
    A creation that is stored keeps the alerts current exactly when its evaluation saw the health
    that the cluster was last evaluated at.
   */
  lemma CreationKeepsExactly(s: System, a: Action, cfg: Config)
    requires Current(s) && a.DoCreate? && Step(s, a, cfg).table != s.table
    ensures Current(Step(s, a, cfg)) <==> a.cluster in s.evaluated && s.evaluated[a.cluster] == a.health
  {
    var t := Step(s, a, cfg);
    assert t.table[a.id] == NewAlert(a.tenant, a.cluster, a.key, a.health, a.at, cfg);
  }

  lemma ResolveKeepsCurrent(s: System, a: Action, cfg: Config)
    requires Current(s) && a.DoResolve?
    ensures Current(Step(s, a, cfg))
  {
    var t := Step(s, a, cfg);
    forall id | id in t.table && t.table[id].status != Resolved
      ensures t.table[id].cluster in t.evaluated && t.table[id].health == t.evaluated[t.table[id].cluster]
    {
      assert t.table[id] == ResolveRow(s.table[id], a.cluster, a.health, a.at);
    }
  }

  /** The n-th call stores a new alert. */
  ghost predicate Stores(s: System, actions: seq<Action>, n: nat, cfg: Config)
    requires n < |actions|
  {
    actions[n].DoCreate? && Step(Run(s, actions[..n], cfg), actions[n], cfg).table != Run(s, actions[..n], cfg).table
  }

  /** What the n-th call must have seen for the alerts to stay current. */
  ghost predicate SawTheLatest(s: System, actions: seq<Action>, n: nat, cfg: Config)
    requires n < |actions|
  {
    Stores(s, actions, n, cfg) ==> LastSeen(s, actions, n, actions[n].cluster, actions[n].health)
  }

  lemma CurrentStep(s: System, actions: seq<Action>, n: nat, cfg: Config)
    requires n < |actions| && Current(Run(s, actions[..n], cfg))
    ensures Current(Run(s, actions[..n + 1], cfg)) <==> SawTheLatest(s, actions, n, cfg)
  {
    var t, a := Run(s, actions[..n], cfg), actions[n];
    RunStep(s, actions, n, cfg);
    if a.DoResolve? {
      ResolveKeepsCurrent(t, a, cfg);
    } else if a.DoCreate? && Stores(s, actions, n, cfg) {
      CreationKeepsExactly(t, a, cfg);
      EvaluatedIsLastSeen(s, actions, n, cfg, a.cluster, a.health);
    }
  }

  lemma {:induction false} CurrentSoFar(s: System, actions: seq<Action>, n: nat, cfg: Config)
    requires Current(s) && n <= |actions| && forall k :: 0 <= k < n ==> SawTheLatest(s, actions, k, cfg)
    ensures Current(Run(s, actions[..n], cfg))
    decreases n
  {
    if n > 0 {
      CurrentSoFar(s, actions, n - 1, cfg);
      CurrentStep(s, actions, n - 1, cfg);
    }
  }

  /**
    The exact condition on whole runs: after every call the alerts that are not resolved carry the
    health their cluster was last evaluated at, if and only if every creation that is stored carries
    the health that the last resolve of its cluster before it saw.
   */
  lemma CurrentExactly(s: System, actions: seq<Action>, cfg: Config)
    requires Current(s)
    ensures (forall n :: 0 <= n <= |actions| ==> Current(Run(s, actions[..n], cfg)))
       <==> (forall n :: 0 <= n < |actions| ==> SawTheLatest(s, actions, n, cfg))
  {
    if forall n :: 0 <= n < |actions| ==> SawTheLatest(s, actions, n, cfg) {
      forall n | 0 <= n <= |actions| ensures Current(Run(s, actions[..n], cfg)) { CurrentSoFar(s, actions, n, cfg); }
    }
    if forall n :: 0 <= n <= |actions| ==> Current(Run(s, actions[..n], cfg)) {
      forall n | 0 <= n < |actions| ensures SawTheLatest(s, actions, n, cfg) { CurrentStep(s, actions, n, cfg); }
    }
  }

  /** From the empty system: there is such a resolve, and it saw that health. */
  lemma CurrentExactlyFromStart(actions: seq<Action>, cfg: Config)
    ensures (forall n :: 0 <= n <= |actions| ==> Current(Run(Empty, actions[..n], cfg)))
       <==> (forall n :: 0 <= n < |actions| && Stores(Empty, actions, n, cfg) ==>
               exists i :: 0 <= i < n && ResolvesLast(actions, i, n, actions[n].cluster)
                           && actions[i].health == actions[n].health)
  {
    CurrentExactly(Empty, actions, cfg);
    forall n | 0 <= n < |actions| && Stores(Empty, actions, n, cfg)
      ensures SawTheLatest(Empty, actions, n, cfg)
         <==> exists i :: 0 <= i < n && ResolvesLast(actions, i, n, actions[n].cluster)
                          && actions[i].health == actions[n].health
    {
    }
  }

  /**
    Alert lifecycle over whole runs in which the evaluations of one cluster do not overlap: alerts
    that are not resolved carry the health their cluster was last evaluated at.
   */
  lemma Lifecycle(s: System, actions: seq<Action>, cfg: Config)
    requires Current(s) && NoOverlap(actions)
    ensures Current(Run(s, actions, cfg))
  {
    forall n | 0 <= n < |actions| ensures SawTheLatest(s, actions, n, cfg) {
      if actions[n].DoCreate? { assert Undisturbed(actions, n); }
    }
    CurrentSoFar(s, actions, |actions|, cfg);
    assert actions[..|actions|] == actions;
  }

  /**
    Two overlapping evaluations: the second resolves before the first has created its alert, which
    then fires with a health that the cluster no longer has.
   */
  lemma OverlapBreaksLifecycle(cfg: Config)
    ensures var actions := [DoResolve("c", Degraded, 0), DoResolve("c", Healthy, 1),
                            DoCreate("a", "", "c", "r:c:degraded", Degraded, 0, 0)];
      ByEvaluations(actions) && !NoOverlap(actions) && Current(Empty) && !Current(Run(Empty, actions, cfg))
  {
    var first, second := DoResolve("c", Degraded, 0), DoResolve("c", Healthy, 1);
    var create := DoCreate("a", "", "c", "r:c:degraded", Degraded, 0, 0);
    var actions := [first, second, create];
    assert SameEvaluation(actions[0], actions[2]);
    forall i | 0 <= i < 2 && SameEvaluation(actions[i], actions[2]) ensures i < 1 < 2 && Resolves(actions[1], "c") {}
    assert !Undisturbed(actions, 2);
    var s := Run(Empty, [first, second], cfg);
    assert [first, second] == [first] + [second] && [first] == [] + [first] && actions == [first, second] + [create];
    RunSnoc(Empty, [], first, cfg);
    RunSnoc(Empty, [first], second, cfg);
    RunSnoc(Empty, [first, second], create, cfg);
    assert s.table == map[];
    CreationKeepsExactly(s, create, cfg);
  }

  // ---------------------------------------------------------------- delivery

  /** The delivery columns of a row agree with each other. */
  ghost predicate RowOk(a: Alert, cfg: Config) {
    match a.delivery
    case Pending => a.attempts == 0 && a.nextAt.Some?
    case Retrying => 1 <= a.attempts < cfg.maxAttempts && a.nextAt.Some?
    case Delivered => 1 <= a.attempts <= cfg.maxAttempts && a.nextAt.None?
    case DeadLetter => a.attempts == cfg.maxAttempts && a.nextAt.None?
    case Disabled => a.attempts == 0 && a.nextAt.None?
  }

  ghost predicate SameDelivery(a: Alert, b: Alert) {
    && a.delivery == b.delivery && a.attempts == b.attempts && a.nextAt == b.nextAt
    && a.deliveredAt == b.deliveredAt && a.deadLetteredAt == b.deadLetteredAt
  }

  ghost predicate Terminal(a: Alert) { a.delivery == Delivered || a.delivery == DeadLetter || a.delivery == Disabled }

  /** The sends of one alert. */
  function SendsOf(sends: seq<Send>, id: AlertId): seq<Send> {
    if sends == [] then []
    else
      var rest := SendsOf(sends[..|sends| - 1], id);
      if sends[|sends| - 1].id == id then rest + [sends[|sends| - 1]] else rest
  }

  /** Consecutive sends are at least the retry delay apart. */
  ghost predicate Spaced(sends: seq<Send>, base: int) {
    forall i :: 0 <= i < |sends| - 1 ==> sends[i + 1].at >= sends[i].at + Delay(base, i + 1)
  }

  /** Delivered alerts were accepted at their last send and no other alert was ever accepted. */
  ghost predicate Answered(a: Alert, sends: seq<Send>) {
    forall i :: 0 <= i < |sends| ==> (sends[i].ok <==> i == |sends| - 1 && a.delivery == Delivered)
  }

  /** One row with the history of its sends. */
  ghost predicate HistoryOk(a: Alert, sends: seq<Send>, cfg: Config) {
    && RowOk(a, cfg)
    && |sends| == a.attempts
    && Spaced(sends, cfg.retryBase)
    && Answered(a, sends)
    && (a.delivery == Retrying ==> a.nextAt == Some(sends[|sends| - 1].at + Delay(cfg.retryBase, a.attempts)))
  }

  ghost predicate ListedOk(t: Table, entry: (AlertId, nat), clock: Time) {
    entry.0 in t && t[entry.0].attempts == entry.1 && Due(t[entry.0], clock)
  }

  ghost predicate DeliveryOk(s: System, cfg: Config) {
    && (forall id :: id in s.table ==> HistoryOk(s.table[id], SendsOf(s.sends, id), cfg))
    && (forall id :: id !in s.table ==> SendsOf(s.sends, id) == [])
    && (forall i :: 0 <= i < |s.batch| ==> ListedOk(s.table, s.batch[i], s.clock))
    && (forall i, j :: 0 <= i < j < |s.batch| ==> s.batch[i].0 != s.batch[j].0)
  }

  /** One send: what it makes of a due row and of its history. */
  lemma SendKeepsHistory(a: Alert, sends: seq<Send>, clock: Time, send: Send, cfg: Config)
    requires ConfigOk(cfg) && HistoryOk(a, sends, cfg) && Due(a, clock) && clock <= send.at
    ensures HistoryOk(SentRow(a, a.attempts, send.at, send.ok, cfg), sends + [send], cfg)
  {
  }

  lemma {:induction false} SendsOfSnoc(sends: seq<Send>, send: Send, id: AlertId)
    ensures SendsOf(sends + [send], id) == SendsOf(sends, id) + (if send.id == id then [send] else [])
  {
    assert (sends + [send])[..|sends|] == sends;
  }

  /** A send by the worker, which always holds a row that is due. */
  lemma DeliverIs(s: System, at: Time, ok: bool, cfg: Config)
    requires DeliveryOk(s, cfg) && s.batch != [] && s.clock <= at
    ensures var t, id := Step(s, DoDeliver(at, ok), cfg), s.batch[0].0;
      && id in s.table && Due(s.table[id], s.clock) && s.batch[0].1 == s.table[id].attempts
      && t.table == s.table[id := SentRow(s.table[id], s.table[id].attempts, at, ok, cfg)]
      && t.sends == s.sends + [Send(id, at, ok)] && t.batch == s.batch[1..] && t.clock == at
  {
    assert ListedOk(s.table, s.batch[0], s.clock);
  }

  lemma DeliverKeeps(s: System, at: Time, ok: bool, cfg: Config)
    requires ConfigOk(cfg) && DeliveryOk(s, cfg) && s.batch != [] && s.clock <= at
    ensures DeliveryOk(Step(s, DoDeliver(at, ok), cfg), cfg)
  {
    DeliverIs(s, at, ok, cfg);
    SentKeeps(s, Step(s, DoDeliver(at, ok), cfg), Send(s.batch[0].0, at, ok), cfg);
  }

  lemma SentHistory(s: System, t: System, send: Send, cfg: Config, k: AlertId)
    requires ConfigOk(cfg) && DeliveryOk(s, cfg) && s.clock <= send.at
    requires send.id in s.table && Due(s.table[send.id], s.clock)
    requires t.table == s.table[send.id := SentRow(s.table[send.id], s.table[send.id].attempts, send.at, send.ok, cfg)]
    requires t.sends == s.sends + [send]
    ensures k in t.table ==> HistoryOk(t.table[k], SendsOf(t.sends, k), cfg)
    ensures k !in t.table ==> SendsOf(t.sends, k) == []
  {
    SendsOfSnoc(s.sends, send, k);
    if k == send.id {
      SendKeepsHistory(s.table[k], SendsOf(s.sends, k), s.clock, send, cfg);
    } else {
      assert SendsOf(s.sends, k) + [] == SendsOf(s.sends, k);
    }
  }

  lemma SentKeeps(s: System, t: System, send: Send, cfg: Config)
    requires ConfigOk(cfg) && DeliveryOk(s, cfg) && s.batch != [] && s.clock <= send.at && send.id == s.batch[0].0
    requires send.id in s.table && Due(s.table[send.id], s.clock)
    requires t.table == s.table[send.id := SentRow(s.table[send.id], s.table[send.id].attempts, send.at, send.ok, cfg)]
    requires t.sends == s.sends + [send] && t.batch == s.batch[1..] && t.clock == send.at
    ensures DeliveryOk(t, cfg)
  {
    forall k
      ensures k in t.table ==> HistoryOk(t.table[k], SendsOf(t.sends, k), cfg)
      ensures k !in t.table ==> SendsOf(t.sends, k) == []
    {
      SentHistory(s, t, send, cfg, k);
    }
    forall i | 0 <= i < |t.batch| ensures ListedOk(t.table, t.batch[i], t.clock) {
      assert t.batch[i] == s.batch[i + 1];
      assert ListedOk(s.table, s.batch[i + 1], s.clock);
    }
  }

  /** Rows keep their delivery columns; the worker's state is untouched. */
  lemma QuietKeeps(s: System, t: System, cfg: Config)
    requires DeliveryOk(s, cfg)
    requires t.clock == s.clock && t.batch == s.batch && t.sends == s.sends
    requires forall id :: id in s.table ==> id in t.table && SameDelivery(s.table[id], t.table[id])
    requires forall id :: id in t.table && id !in s.table ==> HistoryOk(t.table[id], [], cfg)
    ensures DeliveryOk(t, cfg)
  {
    forall i | 0 <= i < |t.batch| ensures ListedOk(t.table, t.batch[i], t.clock) {
      assert ListedOk(s.table, s.batch[i], s.clock);
    }
  }

  lemma ListKeeps(s: System, now: Time, rows: seq<AlertId>, cfg: Config)
    requires DeliveryOk(s, cfg) && s.batch == [] && s.clock <= now && IsDueList(s.table, now, 25, rows)
    ensures DeliveryOk(s.(batch := AttemptsOf(s.table, rows), clock := now), cfg)
  {
    forall i | 0 <= i < |rows| ensures rows[i] in s.table && Due(s.table[rows[i]], now) {
      assert rows[i] in rows;
    }
  }

  lemma StepDelivery(s: System, a: Action, cfg: Config)
    requires ConfigOk(cfg) && DeliveryOk(s, cfg)
    ensures DeliveryOk(Step(s, a, cfg), cfg)
  {
    match a
    case DoDeliver(at, ok) =>
      if s.batch != [] && s.clock <= at { DeliverKeeps(s, at, ok, cfg); }
    case DoList(now, rows) =>
      if s.batch == [] && s.clock <= now && IsDueList(s.table, now, 25, rows) { ListKeeps(s, now, rows, cfg); }
    case DoStop =>
    case _ => QuietKeeps(s, Step(s, a, cfg), cfg);
  }

  /** The delivery invariant over every run: column agreement, one send per attempt, and spacing. */
  lemma {:induction false} DeliveryInvariant(s: System, actions: seq<Action>, cfg: Config)
    requires ConfigOk(cfg) && DeliveryOk(s, cfg)
    ensures DeliveryOk(Run(s, actions, cfg), cfg)
    decreases |actions|
  {
    if actions != [] {
      StepDelivery(s, actions[0], cfg);
      DeliveryInvariant(Step(s, actions[0], cfg), actions[1..], cfg);
    }
  }

  /** What the invariant means for one alert of a run from the empty table. */
  lemma DeliveryOutcome(actions: seq<Action>, cfg: Config, id: AlertId)
    requires ConfigOk(cfg) && id in Run(Empty, actions, cfg).table
    ensures var s := Run(Empty, actions, cfg);
      var a := s.table[id];
      && (a.nextAt.Some? <==> a.delivery == Pending || a.delivery == Retrying)
      && |SendsOf(s.sends, id)| == a.attempts <= cfg.maxAttempts
      && (a.attempts == cfg.maxAttempts ==> a.delivery == Delivered || a.delivery == DeadLetter)
      && (a.delivery == DeadLetter ==> a.attempts == cfg.maxAttempts)
      && Spaced(SendsOf(s.sends, id), cfg.retryBase)
      && Answered(a, SendsOf(s.sends, id))
  {
    DeliveryInvariant(Empty, actions, cfg);
  }

  /** Terminal rows never change their delivery columns and are never sent again. */
  lemma {:induction false} TerminalIsFinal(s: System, actions: seq<Action>, cfg: Config, id: AlertId)
    requires ConfigOk(cfg) && DeliveryOk(s, cfg)
    requires id in s.table && Terminal(s.table[id])
    ensures id in Run(s, actions, cfg).table
    ensures SameDelivery(s.table[id], Run(s, actions, cfg).table[id])
    ensures SendsOf(Run(s, actions, cfg).sends, id) == SendsOf(s.sends, id)
    decreases |actions|
  {
    if actions != [] {
      StepDelivery(s, actions[0], cfg);
      StepTerminal(s, actions[0], cfg, id);
      TerminalIsFinal(Step(s, actions[0], cfg), actions[1..], cfg, id);
    }
  }

  /** The delivery worker never holds a terminal row. */
  lemma DeliverLeavesTerminal(s: System, at: Time, ok: bool, cfg: Config, id: AlertId)
    requires DeliveryOk(s, cfg) && s.batch != [] && s.clock <= at && id in s.table && Terminal(s.table[id])
    ensures var t := Step(s, DoDeliver(at, ok), cfg);
      id in t.table && t.table[id] == s.table[id] && SendsOf(t.sends, id) == SendsOf(s.sends, id)
  {
    DeliverIs(s, at, ok, cfg);
    SendsOfSnoc(s.sends, Send(s.batch[0].0, at, ok), id);
  }

  lemma StepTerminal(s: System, a: Action, cfg: Config, id: AlertId)
    requires ConfigOk(cfg) && DeliveryOk(s, cfg)
    requires id in s.table && Terminal(s.table[id])
    ensures id in Step(s, a, cfg).table
    ensures SameDelivery(s.table[id], Step(s, a, cfg).table[id])
    ensures SendsOf(Step(s, a, cfg).sends, id) == SendsOf(s.sends, id)
  {
    match a
    case DoDeliver(at, ok) => if s.batch != [] && s.clock <= at { DeliverLeavesTerminal(s, at, ok, cfg, id); }
    case DoList(_, _) =>
    case DoStop =>
    case _ => assert Step(s, a, cfg).sends == s.sends;
  }

  /** Resolving and acknowledging never touch a delivery column. */
  lemma LifecycleLeavesDelivery(s: System, a: Action, cfg: Config)
    requires a.DoResolve? || a.DoAcknowledge?
    ensures forall id :: id in s.table ==>
      id in Step(s, a, cfg).table && SameDelivery(s.table[id], Step(s, a, cfg).table[id])
    ensures Step(s, a, cfg).sends == s.sends && Step(s, a, cfg).batch == s.batch
  {
  }

  // ---------------------------------------------------------------- progress

  /** ProcessDue: the listed rows are sent in order, whatever the webhook answers. */
  function ProcessRows(t: Table, rows: seq<AlertId>, times: seq<Time>, oks: seq<bool>, cfg: Config): Table
    requires |rows| == |times| == |oks|
    decreases |rows|
  {
    if rows == [] then t
    else
      var t' := if rows[0] in t then t[rows[0] := SentRow(t[rows[0]], t[rows[0]].attempts, times[0], oks[0], cfg)]
        else t;
      ProcessRows(t', rows[1..], times[1..], oks[1..], cfg)
  }

  /** Sending a row at or after the cutoff takes it out of the rows due at the cutoff. */
  lemma SentRowNotDue(a: Alert, at: Time, ok: bool, cfg: Config, cutoff: Time)
    requires ConfigOk(cfg) && cutoff <= at
    ensures !Due(SentRow(a, a.attempts, at, ok, cfg), cutoff)
  {
    DelayPositive(cfg.retryBase, a.attempts + 1);
  }

  lemma {:induction false} ProcessRowsClears(t: Table, rows: seq<AlertId>, times: seq<Time>, oks: seq<bool>,
                                             cfg: Config, cutoff: Time)
    requires |rows| == |times| == |oks| && ConfigOk(cfg)
    requires forall i :: 0 <= i < |times| ==> cutoff <= times[i]
    ensures ProcessRows(t, rows, times, oks, cfg).Keys == t.Keys
    ensures DueSet(ProcessRows(t, rows, times, oks, cfg), cutoff) == DueSet(t, cutoff) - (set id | id in rows)
    ensures forall id :: id in t && id !in rows ==> ProcessRows(t, rows, times, oks, cfg)[id] == t[id]
    decreases |rows|
  {
    if rows != [] {
      var id := rows[0];
      var t' := if id in t then t[id := SentRow(t[id], t[id].attempts, times[0], oks[0], cfg)] else t;
      if id in t { SentRowNotDue(t[id], times[0], oks[0], cfg, cutoff); }
      assert DueSet(t', cutoff) == DueSet(t, cutoff) - {id};
      ProcessRowsClears(t', rows[1..], times[1..], oks[1..], cfg, cutoff);
      assert rows == [id] + rows[1..];
      assert (set k | k in rows) == {id} + (set k | k in rows[1..]);
    }
  }

  /** One ProcessDue at any time from the cutoff on. */
  ghost predicate Round(t: Table, u: Table, cfg: Config, cutoff: Time) {
    exists now, rows, times, oks :: RoundBy(t, u, cfg, cutoff, now, rows, times, oks)
  }

  ghost predicate RoundBy(t: Table, u: Table, cfg: Config, cutoff: Time,
                          now: Time, rows: seq<AlertId>, times: seq<Time>, oks: seq<bool>) {
    && cutoff <= now && IsDueList(t, now, 25, rows)
    && |rows| == |times| == |oks|
    && (forall i :: 0 <= i < |times| ==> now <= times[i])
    && u == ProcessRows(t, rows, times, oks, cfg)
  }

  lemma DistinctSize(rows: seq<AlertId>)
    requires Distinct(rows)
    ensures |set id | id in rows| == |rows|
    decreases |rows|
  {
    if rows != [] {
      var init, last := rows[..|rows| - 1], rows[|rows| - 1];
      DistinctSize(init);
      assert last !in init;
      assert rows == init + [last];
      assert (set id | id in rows) == (set id | id in init) + {last};
    }
  }

  /** The rows due at the cutoff come first in every later list. */
  lemma BacklogFirst(t: Table, cutoff: Time, now: Time, rows: seq<AlertId>)
    requires cutoff <= now && IsDueList(t, now, 25, rows)
    ensures var listed := set id | id in rows;
      DueSet(t, cutoff) <= listed || (listed <= DueSet(t, cutoff) && |rows| == 25)
  {
    var listed := set id | id in rows;
    assert DueSet(t, cutoff) <= DueSet(t, now);
    DistinctSize(rows);
    if d :| d in DueSet(t, cutoff) && d !in listed {
      forall id | id in listed ensures id in DueSet(t, cutoff) {
        assert Earlier(t[id], t[d]);
      }
      assert listed < DueSet(t, now);
      ProperSubsetSmaller(listed, DueSet(t, now));
    }
  }

  /** Set arithmetic of one round: what remains of `due` once `listed` is served. */
  lemma Remaining<T>(due: set<T>, listed: set<T>)
    requires |listed| <= 25
    requires due <= listed || (listed <= due && |listed| == 25)
    ensures |due - listed| == |due| - Min(25, |due|)
  {
    if due <= listed {
      SubsetSize(due, listed);
      assert due - listed == {};
    } else {
      SubsetSize(listed, due);
      DifferenceSize(due, listed);
    }
  }

  /** Each round removes min(25, n) of the n alerts due at the cutoff, whatever the webhook answers. */
  lemma RoundProgress(t: Table, u: Table, cfg: Config, cutoff: Time)
    requires ConfigOk(cfg) && Round(t, u, cfg, cutoff)
    ensures DueSet(u, cutoff) <= DueSet(t, cutoff)
    ensures |DueSet(u, cutoff)| == |DueSet(t, cutoff)| - Min(25, |DueSet(t, cutoff)|)
  {
    var now, rows, times, oks :| RoundBy(t, u, cfg, cutoff, now, rows, times, oks);
    ProcessRowsClears(t, rows, times, oks, cfg, cutoff);
    BacklogFirst(t, cutoff, now, rows);
    DistinctSize(rows);
    Remaining(DueSet(t, cutoff), set id | id in rows);
  }

  /** Between two rounds anything may happen that adds nothing to the alerts due at the cutoff. */
  ghost predicate Meanwhile(t: Table, u: Table, cutoff: Time) {
    && (forall id :: id in t ==> id in u && SameDelivery(t[id], u[id]))
    && (forall id :: id in u && id !in t ==> u[id].nextAt.Some? ==> u[id].nextAt.value > cutoff)
  }

  /** A history in which each state follows from the one before by other traffic and then a round. */
  ghost predicate Rounds(ts: seq<Table>, cfg: Config, cutoff: Time) {
    forall i :: 0 <= i < |ts| - 1 ==> OneRound(ts[i], ts[i + 1], cfg, cutoff)
  }

  ghost predicate OneRound(t: Table, u: Table, cfg: Config, cutoff: Time) {
    exists m :: Meanwhile(t, m, cutoff) && Round(m, u, cfg, cutoff)
  }

  /** No starvation: a backlog of n alerts is gone after n / 25 rounds, rounded up. */
  lemma {:induction false} BacklogDrains(ts: seq<Table>, cfg: Config, cutoff: Time)
    requires ConfigOk(cfg) && |ts| >= 1 && Rounds(ts, cfg, cutoff)
    ensures var n := |DueSet(ts[0], cutoff)|;
      |DueSet(ts[|ts| - 1], cutoff)| == n - Min(n, 25 * (|ts| - 1))
    decreases |ts|
  {
    if |ts| > 1 {
      var init := ts[..|ts| - 1];
      forall i | 0 <= i < |init| - 1 ensures OneRound(init[i], init[i + 1], cfg, cutoff) {
        assert OneRound(ts[i], ts[i + 1], cfg, cutoff);
      }
      BacklogDrains(init, cfg, cutoff);
      var k := |ts| - 2;
      assert OneRound(ts[k], ts[k + 1], cfg, cutoff);
      var m :| Meanwhile(ts[k], m, cutoff) && Round(m, ts[k + 1], cfg, cutoff);
      assert DueSet(m, cutoff) == DueSet(ts[k], cutoff);
      RoundProgress(m, ts[k + 1], cfg, cutoff);
    }
  }
}
