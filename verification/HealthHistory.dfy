/**
  Cluster health and the transition history that the handlers write into the timeline.
  Sources: internal/server/events.go, server.go, handlers_agents.go, handlers_clusters.go.
 */
module HealthHistory {
  import opened Text
  import opened Fleet
  import opened Timeline

  /** `lastHeartbeat` is None for the zero time of a cluster that never reported. */
  datatype Cluster = Cluster(tenant: TenantId, health: Health, lastHeartbeat: Option<Time>)

  /** `used` holds every cluster id ever handed out: ids are UUIDs. */
  datatype Hub = Hub(clusters: map<ClusterId, Cluster>, used: set<ClusterId>, events: Store)

  // ---------------------------------------------------------------- recording

  function TransitionEvent(tenant: TenantId, id: ClusterId, prev: Health, next: Health, now: Time): Event {
    Event(tenant, id, if prev == Unreachable && next != Unreachable then AgentReconnected else HeartbeatStateChange,
          FromTo(prev, next), now, Some(TransitionAt(prev, next, now)))
  }

  function DisconnectEvent(tenant: TenantId, id: ClusterId, reason: string, now: Time): Event {
    Event(tenant, id, AgentDisconnected, Detail.Reason(reason), now, Some(ReasonAt(reason, now)))
  }

  /** recordHeartbeatTransition */
  function RecordTransition(s: Store, tenant: TenantId, id: ClusterId, prev: Health, next: Health, now: Time): Store {
    if prev == next then s else Append(s, TransitionEvent(tenant, id, prev, next, now)).0
  }

  /** recordAgentDisconnected */
  function RecordDisconnect(s: Store, tenant: TenantId, id: ClusterId, reason: string, now: Time): Store {
    Append(s, DisconnectEvent(tenant, id, reason, now)).0
  }

  /** The disconnect goes into the timeline before the transition. */
  function LossEvents(s: Store, tenant: TenantId, id: ClusterId, prev: Health, reason: string, now: Time): Store {
    RecordTransition(RecordDisconnect(s, tenant, id, reason, now), tenant, id, prev, Unreachable, now)
  }

  // ---------------------------------------------------------------- handlers

  function SetHealth(f: Hub, id: ClusterId, health: Health, heartbeat: Option<Time>): Hub {
    if id !in f.clusters then f
    else f.(clusters := f.clusters[id := f.clusters[id].(health := health, lastHeartbeat := heartbeat)])
  }

  /** A report from the agent: heartbeat or snapshot. */
  function Reported(f: Hub, id: ClusterId, health: Health, now: Time): Hub {
    if id !in f.clusters then f
    else
      var c := f.clusters[id];
      SetHealth(f, id, health, Some(now)).(events := RecordTransition(f.events, c.tenant, id, c.health, health, now))
  }

  /** A cluster becoming unreachable. */
  function Lost(f: Hub, id: ClusterId, reason: string, heartbeat: Option<Time>, now: Time): Hub {
    if id !in f.clusters then f
    else
      var c := f.clusters[id];
      SetHealth(f, id, Unreachable, heartbeat).(events :=
        if c.health == Unreachable then f.events
        else LossEvents(f.events, c.tenant, id, c.health, reason, now))
  }

  predicate IsStale(c: Cluster, cutoff: Time) {
    c.lastHeartbeat.Some? && c.lastHeartbeat.value < cutoff && c.health != Unreachable
  }

  function MarkStale(f: Hub, ids: seq<ClusterId>, cutoff: Time, now: Time): Hub {
    if ids == [] then f
    else
      var n := |ids| - 1;
      var g := MarkStale(f, ids[..n], cutoff, now);
      if ids[n] in f.clusters && IsStale(f.clusters[ids[n]], cutoff)
      then Lost(g, ids[n], "heartbeat_timeout", f.clusters[ids[n]].lastHeartbeat, now)
      else g
  }

  /** handleHeartbeat's rule */
  function HeartbeatHealth(nodes: int, healthyNodes: int): Health {
    if nodes > 0 && healthyNodes == nodes then Healthy else Degraded
  }

  /** snapshotHealth's rule over the nodes' Ready flags */
  predicate AllReady(nodes: seq<bool>) { nodes != [] && forall i :: 0 <= i < |nodes| ==> nodes[i] }

  /** Requests that the hub refuses change nothing and are not actions. */
  datatype Action =
    | DoCreate(id: ClusterId, tenant: TenantId)
    | DoDelete(id: ClusterId)
    | DoLiveness(id: ClusterId)
    | DoDeregister(id: ClusterId)
    | DoHeartbeat(id: ClusterId, nodes: int, healthyNodes: int)
    | DoSnapshot(id: ClusterId, ready: seq<bool>)
    | DoMarkStale(ids: seq<ClusterId>, interval: Time)
    | DoOther(event: Event)
    | DoPrune(cutoff: Time)

  function Created(f: Hub, id: ClusterId, tenant: TenantId, now: Time): Hub {
    if id in f.used then f
    else Hub(f.clusters[id := Cluster(NormalizeTenant(tenant), Unknown, None)], f.used + {id},
               Append(f.events, Event(tenant, id, ClusterRegistered, NoDetail, now, Some(Literal("registered")))).0)
  }

  function Step(f: Hub, a: Action, now: Time): Hub {
    match a
    case DoCreate(id, tenant) => Created(f, id, tenant, now)
    case DoDelete(id) => f.(clusters := f.clusters - {id})
    case DoLiveness(id) => if id in f.clusters then SetHealth(f, id, f.clusters[id].health, Some(now)) else f
    case DoDeregister(id) => Lost(f, id, "deregistered", Some(now), now)
    case DoHeartbeat(id, nodes, healthyNodes) => Reported(f, id, HeartbeatHealth(nodes, healthyNodes), now)
    case DoSnapshot(id, ready) => Reported(f, id, if AllReady(ready) then Healthy else Degraded, now)
    case DoMarkStale(ids, interval) => MarkStale(f, ids, now - 3 * interval, now)
    case DoOther(e) => f.(events := Append(f.events, e).0)
    case DoPrune(cutoff) => f.(events := f.events.(rows := Unexpired(f.events.rows, cutoff)))
  }

  // ---------------------------------------------------------------- histories

  /** The two histories kept of a cluster: its changes of health, and its outages. */
  datatype View = Changes | Outages

  datatype Mark = Of(health: Health) | Out(out: bool)

  predicate Shows(view: View, kind: Kind) {
    kind == AgentReconnected || kind == (if view == Changes then HeartbeatStateChange else AgentDisconnected)
  }

  /** Where an event of a history starts and ends. */
  function FromMark(view: View, e: Event): Mark {
    if view == Outages then Out(e.kind == AgentReconnected)
    else if e.detail.FromTo? then Of(e.detail.from) else Of(Unknown)
  }

  function ToMark(view: View, e: Event): Mark {
    if view == Outages then Out(e.kind == AgentDisconnected)
    else if e.detail.FromTo? then Of(e.detail.to) else Of(Unknown)
  }

  function MarkOf(view: View, health: Health): Mark {
    if view == Outages then Out(health == Unreachable) else Of(health)
  }

  /** The recorded events of one cluster with ids up to n, oldest first. */
  function History(rows: Rows, n: EventId, view: View, id: ClusterId): seq<Event> {
    if n == 0 then []
    else
      var earlier := History(rows, n - 1, view, id);
      if n in rows && rows[n].cluster == id && Shows(view, rows[n].kind) then earlier + [rows[n]] else earlier
  }

  /** Each event starts where the one before it ended. */
  ghost predicate Chained(view: View, h: seq<Event>, from: Mark, to: Mark) {
    if h == [] then from == to
    else ToMark(view, h[|h| - 1]) == to && Chained(view, h[..|h| - 1], from, FromMark(view, h[|h| - 1]))
  }

  ghost predicate Tells(f: Hub, view: View, id: ClusterId, from: Mark) {
    id in f.clusters ==>
      Chained(view, History(f.events.rows, f.events.lastId, view, id), from, MarkOf(view, f.clusters[id].health))
  }

  // ---------------------------------------------------------------- the invariant

  predicate Tracked(kind: Kind) {
    kind == HeartbeatStateChange || kind == AgentReconnected || kind == AgentDisconnected
  }

  function KeyTime(key: Key): Option<Time> {
    match key
    case Literal(_) => None
    case TransitionAt(_, _, at) => Some(at)
    case ReasonAt(_, at) => Some(at)
  }

  /** Tracked events of a cluster all happened before `now` and say so in their keys. */
  ghost predicate Before(rows: Rows, id: ClusterId, now: Time) {
    forall k :: k in rows && rows[k].cluster == id && Tracked(rows[k].kind) ==>
      && rows[k].occurredAt < now && rows[k].dedupe.Some? && KeyTime(rows[k].dedupe.value) == Some(rows[k].occurredAt)
      && (rows[k].kind != AgentDisconnected ==> rows[k].detail.FromTo?)
  }

  ghost predicate InOrder(rows: Rows, id: ClusterId) {
    forall i, j ::
      (i in rows && j in rows && i < j && rows[i].cluster == id == rows[j].cluster
       && Tracked(rows[i].kind) && Tracked(rows[j].kind)) ==> rows[i].occurredAt <= rows[j].occurredAt
  }

  /** Clusters and their tracked events have ids that were handed out. */
  ghost predicate Owned(f: Hub) {
    && f.clusters.Keys <= f.used
    && (forall k :: k in f.events.rows && Tracked(f.events.rows[k].kind) ==> f.events.rows[k].cluster in f.used)
  }

  ghost predicate Inv(f: Hub, now: Time) {
    Owned(f) && Deduped(f.events) && forall id: ClusterId :: Settled(f.events, id, now)
  }

  ghost predicate Allowed(a: Action) {
    && (a.DoOther? ==> !Tracked(a.event.kind))
    && (a.DoMarkStale? ==> forall i, j :: 0 <= i < j < |a.ids| ==> a.ids[i] != a.ids[j])
  }

  // ---------------------------------------------------------------- one append

  lemma {:induction false} HistoryFrame(rows: Rows, k: EventId, e: Event, n: EventId, view: View, id: ClusterId)
    requires n < k
    ensures History(rows[k := e], n, view, id) == History(rows, n, view, id)
    decreases n
  {
    if n > 0 { HistoryFrame(rows, k, e, n - 1, view, id); }
  }

  /** An inserted event goes to the end of the histories that show it. */
  lemma AppendHistory(s: Store, e: Event, view: View, id: ClusterId)
    requires Deduped(s) && !Conflict(s.rows, e)
    ensures var t := Append(s, e).0;
      History(t.rows, t.lastId, view, id) ==
      History(s.rows, s.lastId, view, id)
      + (if e.cluster == id && Shows(view, e.kind) then [e.(tenant := NormalizeTenant(e.tenant))] else [])
  {
    HistoryFrame(s.rows, s.lastId + 1, e.(tenant := NormalizeTenant(e.tenant)), s.lastId, view, id);
  }

  /** A tracked event at a new time is never taken for a duplicate. */
  lemma NoConflict(rows: Rows, e: Event, now: Time)
    requires Before(rows, e.cluster, now) && Tracked(e.kind) && e.dedupe.Some? && KeyTime(e.dedupe.value) == Some(now)
    ensures !Conflict(rows, e)
  {
  }

  lemma AppendKeepsBefore(s: Store, e: Event, id: ClusterId, now: Time)
    requires Before(s.rows, id, now) && InOrder(s.rows, id) && Deduped(s)
    requires e.cluster != id || !Tracked(e.kind)
    ensures Before(Append(s, e).0.rows, id, now) && InOrder(Append(s, e).0.rows, id)
  {
  }

  lemma ChainedSnoc(view: View, h: seq<Event>, from: Mark, e: Event)
    requires Chained(view, h, from, FromMark(view, e))
    ensures Chained(view, h + [e], from, ToMark(view, e))
  {
    assert (h + [e])[..|h|] == h;
  }

  // ---------------------------------------------------------------- one cluster at one time

  ghost predicate Settled(s: Store, id: ClusterId, now: Time) {
    Deduped(s) && Before(s.rows, id, now) && InOrder(s.rows, id)
  }

  ghost predicate StoreTells(s: Store, view: View, id: ClusterId, from: Mark, to: Mark) {
    Chained(view, History(s.rows, s.lastId, view, id), from, to)
  }

  lemma AppendSettles(s: Store, e: Event, id: ClusterId, now: Time)
    requires Settled(s, id, now + 1) && e.cluster == id && e.occurredAt == now
    requires e.dedupe.Some? && KeyTime(e.dedupe.value) == Some(now)
      && (e.kind != AgentDisconnected ==> e.detail.FromTo?)
    ensures Settled(Append(s, e).0, id, now + 1)
  {
  }

  lemma SettledLater(s: Store, id: ClusterId, now: Time, later: Time)
    requires Settled(s, id, now) && now <= later
    ensures Settled(s, id, later)
  {
  }

  lemma TransitionSettles(s: Store, tenant: TenantId, id: ClusterId, prev: Health, next: Health, now: Time, later: Time)
    requires Settled(s, id, now) && now < later
    ensures Settled(RecordTransition(s, tenant, id, prev, next, now), id, later)
  {
    SettledLater(s, id, now, now + 1);
    AppendSettles(s, TransitionEvent(tenant, id, prev, next, now), id, now);
    SettledLater(RecordTransition(s, tenant, id, prev, next, now), id, now + 1, later);
  }

  lemma TransitionTells(s: Store, tenant: TenantId, id: ClusterId, prev: Health, next: Health, now: Time, view: View,
                        from: Mark)
    requires Settled(s, id, now) && (view == Changes || next != Unreachable)
    requires StoreTells(s, view, id, from, MarkOf(view, prev))
    ensures StoreTells(RecordTransition(s, tenant, id, prev, next, now), view, id, from, MarkOf(view, next))
  {
    var e := TransitionEvent(tenant, id, prev, next, now);
    NoConflict(s.rows, e, now);
    AppendHistory(s, e, view, id);
    if prev != next && Shows(view, e.kind) {
      ChainedSnoc(view, History(s.rows, s.lastId, view, id), from, e.(tenant := NormalizeTenant(tenant)));
    } else {
      assert History(s.rows, s.lastId, view, id) + [] == History(s.rows, s.lastId, view, id);
    }
  }

  /** The disconnect event and the transition that follows it at the same instant. */
  lemma LossAppends(s: Store, tenant: TenantId, id: ClusterId, prev: Health, reason: string, now: Time)
    requires Settled(s, id, now) && prev != Unreachable
    ensures var d, e := DisconnectEvent(tenant, id, reason, now), TransitionEvent(tenant, id, prev, Unreachable, now);
      !Conflict(s.rows, d) && !Conflict(Append(s, d).0.rows, e)
  {
    NoConflict(s.rows, DisconnectEvent(tenant, id, reason, now), now);
    NoConflict(s.rows, TransitionEvent(tenant, id, prev, Unreachable, now), now);
  }

  lemma LossSettles(s: Store, tenant: TenantId, id: ClusterId, prev: Health, reason: string, now: Time, later: Time)
    requires Settled(s, id, now) && prev != Unreachable && now < later
    ensures Settled(LossEvents(s, tenant, id, prev, reason, now), id, later)
  {
    SettledLater(s, id, now, now + 1);
    var d := DisconnectEvent(tenant, id, reason, now);
    AppendSettles(s, d, id, now);
    AppendSettles(Append(s, d).0, TransitionEvent(tenant, id, prev, Unreachable, now), id, now);
    SettledLater(LossEvents(s, tenant, id, prev, reason, now), id, now + 1, later);
  }

  lemma LossTells(s: Store, tenant: TenantId, id: ClusterId, prev: Health, reason: string, now: Time, view: View,
                  from: Mark)
    requires Settled(s, id, now) && prev != Unreachable
    requires StoreTells(s, view, id, from, MarkOf(view, prev))
    ensures StoreTells(LossEvents(s, tenant, id, prev, reason, now), view, id, from, MarkOf(view, Unreachable))
  {
    var d, e := DisconnectEvent(tenant, id, reason, now), TransitionEvent(tenant, id, prev, Unreachable, now);
    LossAppends(s, tenant, id, prev, reason, now);
    var t := Append(s, d).0;
    AppendHistory(s, d, view, id);
    AppendHistory(t, e, view, id);
    var h := History(s.rows, s.lastId, view, id);
    if view == Changes {
      ChainedSnoc(view, h, from, e.(tenant := NormalizeTenant(tenant)));
      assert h + [] == h;
    } else {
      ChainedSnoc(view, h, from, d.(tenant := NormalizeTenant(tenant)));
      var longer := h + [d.(tenant := NormalizeTenant(tenant))];
      assert longer + [] == longer;
    }
  }

  /** Recording for one cluster leaves the others alone. */
  lemma OtherCluster(s: Store, e: Event, id: ClusterId, now: Time, view: View)
    requires Settled(s, id, now) && e.cluster != id
    ensures Settled(Append(s, e).0, id, now)
    ensures var t := Append(s, e).0; History(t.rows, t.lastId, view, id) == History(s.rows, s.lastId, view, id)
  {
    if !Conflict(s.rows, e) { AppendHistory(s, e, view, id); }
  }

  // ---------------------------------------------------------------- the handlers

  lemma ReportedKeeps(f: Hub, at: ClusterId, health: Health, now: Time, id: ClusterId, view: View, from: Mark)
    requires Settled(f.events, id, now) && Tells(f, view, id, from) && health != Unreachable
    ensures var g := Reported(f, at, health, now); Settled(g.events, id, now + 1) && Tells(g, view, id, from)
  {
    SettledLater(f.events, id, now, now + 1);
    if at in f.clusters {
      var c := f.clusters[at];
      if at == id {
        TransitionSettles(f.events, c.tenant, id, c.health, health, now, now + 1);
        TransitionTells(f.events, c.tenant, id, c.health, health, now, view, from);
      } else if c.health != health {
        OtherCluster(f.events, TransitionEvent(c.tenant, at, c.health, health, now), id, now + 1, view);
      }
    }
  }

  lemma LostOwn(f: Hub, id: ClusterId, reason: string, heartbeat: Option<Time>, now: Time, view: View, from: Mark)
    requires Settled(f.events, id, now) && Tells(f, view, id, from)
    ensures var g := Lost(f, id, reason, heartbeat, now); Settled(g.events, id, now + 1) && Tells(g, view, id, from)
  {
    SettledLater(f.events, id, now, now + 1);
    if id in f.clusters && f.clusters[id].health != Unreachable {
      var c := f.clusters[id];
      LossSettles(f.events, c.tenant, id, c.health, reason, now, now + 1);
      LossTells(f.events, c.tenant, id, c.health, reason, now, view, from);
    }
  }

  lemma LostOther(f: Hub, at: ClusterId, reason: string, heartbeat: Option<Time>, now: Time,
                  id: ClusterId, until: Time, view: View, from: Mark)
    requires Settled(f.events, id, until) && Tells(f, view, id, from) && at != id
    ensures var g := Lost(f, at, reason, heartbeat, now); Settled(g.events, id, until) && Tells(g, view, id, from)
  {
    if at in f.clusters && f.clusters[at].health != Unreachable {
      var c := f.clusters[at];
      var d, e := DisconnectEvent(c.tenant, at, reason, now), TransitionEvent(c.tenant, at, c.health, Unreachable, now);
      OtherCluster(f.events, d, id, until, view);
      OtherCluster(Append(f.events, d).0, e, id, until, view);
    }
  }

  ghost predicate Distinct(ids: seq<ClusterId>) { forall i, j :: 0 <= i < j < |ids| ==> ids[i] != ids[j] }

  lemma {:induction false} MarkStaleKeeps(f: Hub, ids: seq<ClusterId>, cutoff: Time, now: Time, id: ClusterId,
                                          view: View, from: Mark)
    requires Settled(f.events, id, now) && Tells(f, view, id, from) && Distinct(ids)
    ensures var g := MarkStale(f, ids, cutoff, now);
      Settled(g.events, id, if id in ids then now + 1 else now) && Tells(g, view, id, from)
    decreases |ids|
  {
    if ids != [] {
      var n := |ids| - 1;
      var g := MarkStale(f, ids[..n], cutoff, now);
      MarkStaleKeeps(f, ids[..n], cutoff, now, id, view, from);
      assert ids[n] !in ids[..n];
      assert id in ids <==> id in ids[..n] || id == ids[n];
      if ids[n] in f.clusters && IsStale(f.clusters[ids[n]], cutoff) {
        var heartbeat := f.clusters[ids[n]].lastHeartbeat;
        if id == ids[n] {
          LostOwn(g, id, "heartbeat_timeout", heartbeat, now, view, from);
        } else {
          LostOther(g, ids[n], "heartbeat_timeout", heartbeat, now, id, if id in ids then now + 1 else now, view, from);
        }
      } else if id == ids[n] {
        SettledLater(g.events, id, now, now + 1);
      }
    }
  }

  lemma {:induction false} NoHistory(rows: Rows, n: EventId, view: View, id: ClusterId)
    requires forall k :: k in rows && Tracked(rows[k].kind) ==> rows[k].cluster != id
    ensures History(rows, n, view, id) == []
    decreases n
  {
    if n > 0 { NoHistory(rows, n - 1, view, id); }
  }

  lemma UntrackedKeeps(s: Store, e: Event, id: ClusterId, now: Time, view: View)
    requires Settled(s, id, now) && !Tracked(e.kind)
    ensures var t := Append(s, e).0;
      Settled(t, id, now) && History(t.rows, t.lastId, view, id) == History(s.rows, s.lastId, view, id)
  {
    AppendKeepsBefore(s, e, id, now);
    if !Conflict(s.rows, e) { AppendHistory(s, e, view, id); }
  }

  lemma CreatedKeeps(f: Hub, at: ClusterId, tenant: TenantId, now: Time, id: ClusterId, view: View, from: Mark)
    requires Inv(f, now) && Tells(f, view, id, from)
    requires id !in f.clusters ==> from == MarkOf(view, Unknown)
    ensures var g := Created(f, at, tenant, now); Settled(g.events, id, now) && Tells(g, view, id, from)
  {
    assert Settled(f.events, id, now);
    UntrackedKeeps(f.events, Event(tenant, at, ClusterRegistered, NoDetail, now, Some(Literal("registered"))), id, now,
      view);
    if at == id && id !in f.used {
      NoHistory(f.events.rows, f.events.lastId, view, id);
    }
  }

  /** Every step of the hub, at a time later than all before it, continues both histories of every cluster. */
  lemma StepTells(f: Hub, a: Action, now: Time, id: ClusterId, view: View, from: Mark)
    requires Inv(f, now) && Allowed(a) && !a.DoPrune? && Tells(f, view, id, from)
    requires id !in f.clusters ==> from == MarkOf(view, Unknown)
    ensures var g := Step(f, a, now); Settled(g.events, id, now + 1) && Tells(g, view, id, from)
  {
    assert Settled(f.events, id, now);
    match a
    case DoCreate(at, tenant) =>
      CreatedKeeps(f, at, tenant, now, id, view, from);
      SettledLater(Created(f, at, tenant, now).events, id, now, now + 1);
    case DoDelete(at) => SettledLater(f.events, id, now, now + 1);
    case DoLiveness(at) => SettledLater(f.events, id, now, now + 1);
    case DoDeregister(at) =>
      if at == id {
        LostOwn(f, id, "deregistered", Some(now), now, view, from);
      } else {
        SettledLater(f.events, id, now, now + 1);
        LostOther(f, at, "deregistered", Some(now), now, id, now + 1, view, from);
      }
    case DoHeartbeat(at, nodes, healthyNodes) =>
      ReportedKeeps(f, at, HeartbeatHealth(nodes, healthyNodes), now, id, view, from);
    case DoSnapshot(at, ready) =>
      ReportedKeeps(f, at, if AllReady(ready) then Healthy else Degraded, now, id, view, from);
    case DoMarkStale(ids, interval) =>
      MarkStaleKeeps(f, ids, now - 3 * interval, now, id, view, from);
      var g := MarkStale(f, ids, now - 3 * interval, now);
      SettledLater(g.events, id, if id in ids then now + 1 else now, now + 1);
    case DoOther(e) =>
      UntrackedKeeps(f.events, e, id, now, view);
      SettledLater(Append(f.events, e).0, id, now, now + 1);
  }

  // ---------------------------------------------------------------- pruning

  lemma {:induction false} ExpiredHistory(rows: Rows, n: EventId, view: View, id: ClusterId, cutoff: Time)
    requires forall k ::
      k in rows && k <= n && rows[k].cluster == id && Tracked(rows[k].kind) ==> rows[k].occurredAt < cutoff
    ensures History(Unexpired(rows, cutoff), n, view, id) == []
    decreases n
  {
    if n > 0 { ExpiredHistory(rows, n - 1, view, id, cutoff); }
  }

  /** Pruning cuts a history short at its old end only. */
  lemma {:induction false} PrunedHistory(rows: Rows, n: EventId, view: View, id: ClusterId,
                                         cutoff: Time) returns (k: nat)
    requires InOrder(rows, id)
    ensures k <= |History(rows, n, view, id)|
    ensures History(Unexpired(rows, cutoff), n, view, id) == History(rows, n, view, id)[k..]
    decreases n
  {
    if n == 0 { return 0; }
    k := PrunedHistory(rows, n - 1, view, id, cutoff);
    if n in rows && rows[n].cluster == id && Shows(view, rows[n].kind) && rows[n].occurredAt < cutoff {
      ExpiredHistory(rows, n, view, id, cutoff);
      k := |History(rows, n, view, id)|;
    }
  }

  lemma {:induction false} ChainedSuffix(view: View, h: seq<Event>, from: Mark, to: Mark, k: nat)
    requires Chained(view, h, from, to) && k <= |h|
    ensures exists mid :: Chained(view, h[k..], mid, to)
    decreases |h|
  {
    if k == |h| {
      assert Chained(view, h[k..], to, to);
    } else {
      var n := |h| - 1;
      ChainedSuffix(view, h[..n], from, FromMark(view, h[n]), k);
      var mid :| Chained(view, h[..n][k..], mid, FromMark(view, h[n]));
      ChainedSnoc(view, h[..n][k..], mid, h[n]);
      assert h[..n][k..] + [h[n]] == h[k..];
      assert Chained(view, h[k..], mid, to);
    }
  }

  lemma PruneKeeps(f: Hub, cutoff: Time, now: Time, id: ClusterId, view: View, from: Mark)
    requires Settled(f.events, id, now) && Tells(f, view, id, from)
    ensures var g := Step(f, Action.DoPrune(cutoff), now);
      Settled(g.events, id, now + 1) && exists mid :: Tells(g, view, id, mid)
  {
    var g := Step(f, Action.DoPrune(cutoff), now);
    var k := PrunedHistory(f.events.rows, f.events.lastId, view, id, cutoff);
    if id in f.clusters {
      var h := History(f.events.rows, f.events.lastId, view, id);
      ChainedSuffix(view, h, from, MarkOf(view, f.clusters[id].health), k);
      var mid :| Chained(view, h[k..], mid, MarkOf(view, f.clusters[id].health));
      assert Tells(g, view, id, mid);
    } else {
      assert Tells(g, view, id, from);
    }
  }

  // ---------------------------------------------------------------- who owns which events

  lemma AppendOwned(f: Hub, e: Event)
    requires Owned(f) && Deduped(f.events) && (Tracked(e.kind) ==> e.cluster in f.used)
    ensures Owned(f.(events := Append(f.events, e).0)) && Deduped(Append(f.events, e).0)
  {
  }

  lemma LostOwned(f: Hub, id: ClusterId, reason: string, heartbeat: Option<Time>, now: Time)
    requires Owned(f) && Deduped(f.events)
    ensures var g := Lost(f, id, reason, heartbeat, now); Owned(g) && Deduped(g.events) && g.used == f.used
  {
    if id in f.clusters && f.clusters[id].health != Unreachable {
      var c := f.clusters[id];
      var d := DisconnectEvent(c.tenant, id, reason, now);
      AppendOwned(f, d);
      AppendOwned(f.(events := Append(f.events, d).0), TransitionEvent(c.tenant, id, c.health, Unreachable, now));
    }
  }

  lemma ReportedOwned(f: Hub, id: ClusterId, health: Health, now: Time)
    requires Owned(f) && Deduped(f.events)
    ensures Owned(Reported(f, id, health, now))
  {
    if id in f.clusters {
      AppendOwned(f, TransitionEvent(f.clusters[id].tenant, id, f.clusters[id].health, health, now));
    }
  }

  lemma {:induction false} MarkStaleOwned(f: Hub, ids: seq<ClusterId>, cutoff: Time, now: Time)
    requires Owned(f) && Deduped(f.events)
    ensures var g := MarkStale(f, ids, cutoff, now); Owned(g) && Deduped(g.events)
    decreases |ids|
  {
    if ids != [] {
      var n := |ids| - 1;
      MarkStaleOwned(f, ids[..n], cutoff, now);
      if ids[n] in f.clusters {
        LostOwned(MarkStale(f, ids[..n], cutoff, now), ids[n], "heartbeat_timeout", f.clusters[ids[n]].lastHeartbeat,
          now);
      }
    }
  }

  lemma StepOwned(f: Hub, a: Action, now: Time)
    requires Owned(f) && Deduped(f.events) && Allowed(a)
    ensures Owned(Step(f, a, now))
  {
    match a
    case DoCreate(at, tenant) =>
    case DoDelete(at) =>
    case DoLiveness(at) =>
    case DoDeregister(at) => LostOwned(f, at, "deregistered", Some(now), now);
    case DoHeartbeat(at, nodes, healthyNodes) => ReportedOwned(f, at, HeartbeatHealth(nodes, healthyNodes), now);
    case DoSnapshot(at, ready) => ReportedOwned(f, at, if AllReady(ready) then Healthy else Degraded, now);
    case DoMarkStale(ids, interval) => MarkStaleOwned(f, ids, now - 3 * interval, now);
    case DoOther(e) => AppendOwned(f, e);
    case DoPrune(cutoff) =>
  }

  // ---------------------------------------------------------------- whole runs

  datatype Timed = Timed(action: Action, at: Time)

  const Empty: Hub := Hub(map[], {}, Store(map[], 0))

  function Run(f: Hub, steps: seq<Timed>): Hub {
    if steps == [] then f
    else var n := |steps| - 1; Step(Run(f, steps[..n]), steps[n].action, steps[n].at)
  }

  /** Whole handlers, one after another, at strictly increasing times. */
  ghost predicate Serial(steps: seq<Timed>) {
    && (forall i, j :: 0 <= i < j < |steps| ==> steps[i].at < steps[j].at)
    && (forall i :: 0 <= i < |steps| ==> Allowed(steps[i].action))
  }

  ghost predicate Links(f: Hub, view: View, id: ClusterId) { exists from :: Tells(f, view, id, from) }

  ghost predicate RunInv(f: Hub, now: Time) {
    Inv(f, now) && forall id: ClusterId, view :: Links(f, view, id)
  }

  lemma StepRunInv(f: Hub, a: Action, now: Time)
    requires RunInv(f, now) && Allowed(a)
    ensures RunInv(Step(f, a, now), now + 1)
  {
    var g, later := Step(f, a, now), now + 1;
    StepOwned(f, a, now);
    forall id: ClusterId, view: View ensures Settled(g.events, id, later) && Links(g, view, id) {
      assert Links(f, view, id) && Settled(f.events, id, now);
      var from :| Tells(f, view, id, from);
      if a.DoPrune? {
        PruneKeeps(f, a.cutoff, now, id, view, from);
      } else {
        var start := if id in f.clusters then from else MarkOf(view, Unknown);
        StepTells(f, a, now, id, view, start);
        assert Tells(g, view, id, start);
      }
    }
    assert Links(g, Changes, "");
    forall id: ClusterId ensures Settled(g.events, id, later) { assert Links(g, Changes, id); }
  }

  lemma {:induction false} RunKeeps(steps: seq<Timed>, now: Time)
    requires Serial(steps) && (steps != [] ==> steps[|steps| - 1].at < now)
    ensures RunInv(Run(Empty, steps), now)
    decreases |steps|
  {
    if steps == [] {
      forall id: ClusterId, view: View ensures Links(Empty, view, id) { assert Tells(Empty, view, id, Of(Unknown)); }
    } else {
      var last := steps[|steps| - 1];
      RunKeeps(steps[..|steps| - 1], last.at);
      StepRunInv(Run(Empty, steps[..|steps| - 1]), last.action, last.at);
      forall id: ClusterId ensures Settled(Run(Empty, steps).events, id, now) {
        SettledLater(Run(Empty, steps).events, id, last.at + 1, now);
      }
    }
  }

  lemma {:induction false} RunTells(steps: seq<Timed>, id: ClusterId, view: View)
    requires Serial(steps) && forall i :: 0 <= i < |steps| ==> !steps[i].action.DoPrune?
    ensures Tells(Run(Empty, steps), view, id, MarkOf(view, Unknown))
    decreases |steps|
  {
    if steps != [] {
      var last, before := steps[|steps| - 1], steps[..|steps| - 1];
      RunTells(before, id, view);
      RunKeeps(before, last.at);
      StepTells(Run(Empty, before), last.action, last.at, id, view, MarkOf(view, Unknown));
    }
  }

  // ---------------------------------------------------------------- what a reader of the timeline sees

  lemma {:induction false} HistoryEntry(rows: Rows, n: EventId, view: View, id: ClusterId, now: Time, i: nat)
    requires Before(rows, id, now) && i < |History(rows, n, view, id)|
    ensures var e := History(rows, n, view, id)[i];
      Shows(view, e.kind) && e.cluster == id && e.occurredAt < now && (e.kind != AgentDisconnected ==> e.detail.FromTo?)
    decreases n
  {
    if i < |History(rows, n - 1, view, id)| { HistoryEntry(rows, n - 1, view, id, now, i); }
  }

  lemma {:induction false} ChainedPairs(view: View, h: seq<Event>, from: Mark, to: Mark)
    requires Chained(view, h, from, to)
    ensures h != [] ==> FromMark(view, h[0]) == from && ToMark(view, h[|h| - 1]) == to
    ensures forall i :: 0 <= i < |h| - 1 ==> ToMark(view, h[i]) == FromMark(view, h[i + 1])
    decreases |h|
  {
    if h != [] { ChainedPairs(view, h[..|h| - 1], from, FromMark(view, h[|h| - 1])); }
  }

  /**
    The state-change and reconnect events of a cluster lead from unknown to its current health,
    each starting where the one before it ended.
   */
  lemma TransitionHistory(steps: seq<Timed>, id: ClusterId)
    requires Serial(steps) && forall i :: 0 <= i < |steps| ==> !steps[i].action.DoPrune?
    requires id in Run(Empty, steps).clusters
    ensures var f := Run(Empty, steps);
      var h := History(f.events.rows, f.events.lastId, Changes, id);
      && (forall i :: 0 <= i < |h| ==> h[i].detail.FromTo?)
      && (if h == [] then f.clusters[id].health == Unknown
          else h[0].detail.from == Unknown && h[|h| - 1].detail.to == f.clusters[id].health)
      && (forall i :: 0 <= i < |h| - 1 ==> h[i].detail.to == h[i + 1].detail.from)
  {
    var f := Run(Empty, steps);
    var h := History(f.events.rows, f.events.lastId, Changes, id);
    var now := if steps == [] then 0 else steps[|steps| - 1].at + 1;
    RunKeeps(steps, now);
    RunTells(steps, id, Changes);
    ChainedPairs(Changes, h, Of(Unknown), Of(f.clusters[id].health));
    assert Settled(f.events, id, now);
    forall i | 0 <= i < |h| ensures h[i].detail.FromTo? {
      HistoryEntry(f.events.rows, f.events.lastId, Changes, id, now, i);
    }
    forall i | 0 <= i < |h| - 1 ensures h[i].detail.to == h[i + 1].detail.from {
      assert ToMark(Changes, h[i]) == FromMark(Changes, h[i + 1]);
    }
  }

  lemma {:induction false} AlternateKinds(h: seq<Event>, out: bool)
    requires Chained(Outages, h, Out(false), Out(out))
    requires forall i :: 0 <= i < |h| ==> Shows(Outages, h[i].kind)
    ensures forall i :: 0 <= i < |h| ==> h[i].kind == if i % 2 == 0 then AgentDisconnected else AgentReconnected
    ensures out <==> |h| % 2 == 1
    decreases |h|
  {
    if h != [] { AlternateKinds(h[..|h| - 1], h[|h| - 1].kind == AgentReconnected); }
  }

  /**
    The disconnect and reconnect events of a cluster alternate, starting with a disconnect, and the
    last one is a disconnect exactly while the cluster is unreachable.
   */
  lemma OutageHistory(steps: seq<Timed>, id: ClusterId)
    requires Serial(steps) && forall i :: 0 <= i < |steps| ==> !steps[i].action.DoPrune?
    requires id in Run(Empty, steps).clusters
    ensures var f := Run(Empty, steps);
      var h := History(f.events.rows, f.events.lastId, Outages, id);
      && (forall i :: 0 <= i < |h| ==> h[i].kind == if i % 2 == 0 then AgentDisconnected else AgentReconnected)
      && (f.clusters[id].health == Unreachable <==> |h| % 2 == 1)
  {
    var f := Run(Empty, steps);
    var h := History(f.events.rows, f.events.lastId, Outages, id);
    var now := if steps == [] then 0 else steps[|steps| - 1].at + 1;
    RunKeeps(steps, now);
    RunTells(steps, id, Outages);
    assert Settled(f.events, id, now);
    forall i | 0 <= i < |h| ensures Shows(Outages, h[i].kind) {
      HistoryEntry(f.events.rows, f.events.lastId, Outages, id, now, i);
    }
    AlternateKinds(h, f.clusters[id].health == Unreachable);
  }

  // ---------------------------------------------------------------- the staleness sweep

  /** A sweep makes exactly the stale clusters it lists unreachable and keeps their last heartbeat. */
  lemma {:induction false} MarkStaleExactly(f: Hub, ids: seq<ClusterId>, cutoff: Time, now: Time, id: ClusterId)
    requires Distinct(ids)
    ensures var g := MarkStale(f, ids, cutoff, now);
      && (id in g.clusters <==> id in f.clusters)
      && (id in f.clusters ==>
            g.clusters[id] == if id in ids && IsStale(f.clusters[id], cutoff)
                              then f.clusters[id].(health := Unreachable) else f.clusters[id])
    decreases |ids|
  {
    if ids != [] {
      var n := |ids| - 1;
      MarkStaleExactly(f, ids[..n], cutoff, now, id);
      MarkStaleExactly(f, ids[..n], cutoff, now, ids[n]);
      assert ids[n] !in ids[..n];
      assert id in ids <==> id in ids[..n] || id == ids[n];
    }
  }

  /** After a sweep over all clusters none is both stale and thought reachable, and a second sweep changes nothing. */
  lemma {:induction false} SweepSettles(f: Hub, ids: seq<ClusterId>, cutoff: Time, now: Time, again: seq<ClusterId>,
                                        later: Time)
    requires Distinct(ids) && forall id :: id in f.clusters ==> id in ids
    ensures var g := MarkStale(f, ids, cutoff, now);
      && (forall id :: id in g.clusters ==> !IsStale(g.clusters[id], cutoff))
      && MarkStale(g, again, cutoff, later) == g
    decreases |again|
  {
    var g := MarkStale(f, ids, cutoff, now);
    forall id | id in g.clusters ensures !IsStale(g.clusters[id], cutoff) { MarkStaleExactly(f, ids, cutoff, now, id); }
    if again != [] { SweepSettles(f, ids, cutoff, now, again[..|again| - 1], later); }
  }
}
