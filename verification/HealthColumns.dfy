/**
  What the hub knows of a cluster after a whole run, and what each step writes into the timeline, in
  terms of what the agents reported. Sources: internal/server/events.go, server.go, handlers_agents.go,
  handlers_clusters.go.
 */
module HealthColumns {
  import opened Text
  import opened Fleet
  import opened Runs
  import opened Pruning
  import opened Timeline
  import opened HealthHistory

  ghost function At(steps: seq<Timed>, n: nat): Hub {
    HealthHistory.Run(HealthHistory.Empty, if n <= |steps| then steps[..n] else steps)
  }

  lemma AtStep(steps: seq<Timed>, n: nat)
    requires n < |steps|
    ensures At(steps, n + 1) == HealthHistory.Step(At(steps, n), steps[n].action, steps[n].at)
  {
    assert steps[..n + 1][..n] == steps[..n];
  }

  /** A sweep lists each cluster once. */
  ghost predicate ListsOnce(a: HealthHistory.Action) { a.DoMarkStale? ==> Distinct(a.ids) }

  // ---------------------------------------------------------------- health and last heartbeat

  /** Its last heartbeat is more than three intervals ago, and it is not known to be unreachable. */
  predicate TimedOut(c: Cluster, interval: Time, now: Time) {
    c.lastHeartbeat.Some? && c.lastHeartbeat.value + 3 * interval < now && c.health != Unreachable
  }

  /** What a step says about a cluster's health. */
  function SaidHealth(f: Hub, a: HealthHistory.Action, now: Time, id: ClusterId): Option<Health> {
    match a
    case DoCreate(i, _) => if i == id && id !in f.used then Some(Unknown) else None
    case DoHeartbeat(i, nodes, healthyNodes) =>
      if i == id && id in f.clusters
      then Some(if nodes > 0 && healthyNodes == nodes then Healthy else Degraded) else None
    case DoSnapshot(i, ready) =>
      if i == id && id in f.clusters then Some(if ready != [] && false !in ready then Healthy else Degraded) else None
    case DoDeregister(i) => if i == id && id in f.clusters then Some(Unreachable) else None
    case DoMarkStale(ids, interval) =>
      if id in ids && id in f.clusters && TimedOut(f.clusters[id], interval, now) then Some(Unreachable) else None
    case _ => None
  }

  /** What a step says about its last heartbeat: none at creation, and later the time of every call of its agent. */
  function SaidHeartbeat(f: Hub, a: HealthHistory.Action, now: Time, id: ClusterId): Option<Option<Time>> {
    match a
    case DoCreate(i, _) => if i == id && id !in f.used then Some(None) else None
    case DoLiveness(i) => if i == id && id in f.clusters then Some(Some(now)) else None
    case DoHeartbeat(i, _, _) => if i == id && id in f.clusters then Some(Some(now)) else None
    case DoSnapshot(i, _) => if i == id && id in f.clusters then Some(Some(now)) else None
    case DoDeregister(i) => if i == id && id in f.clusters then Some(Some(now)) else None
    case _ => None
  }

  ghost predicate HasHealth(f: Hub, id: ClusterId, health: Health) {
    id in f.clusters && f.clusters[id].health == health
  }

  ghost predicate HasHeartbeat(f: Hub, id: ClusterId, heartbeat: Option<Time>) {
    id in f.clusters && f.clusters[id].lastHeartbeat == heartbeat
  }

  lemma AllReadyIs(ready: seq<bool>)
    ensures AllReady(ready) <==> ready != [] && false !in ready
  {
    if false in ready {
      var i :| 0 <= i < |ready| && ready[i] == false;
      assert !ready[i];
    }
  }

  lemma SweepSays(f: Hub, a: HealthHistory.Action, now: Time, id: ClusterId)
    requires a.DoMarkStale? && Distinct(a.ids)
    ensures var g := HealthHistory.Step(f, a, now);
      && (id in g.clusters <==> id in f.clusters)
      && (id in f.clusters ==>
            g.clusters[id] == if SaidHealth(f, a, now, id).Some? then f.clusters[id].(health := Unreachable)
                              else f.clusters[id])
  {
    MarkStaleExactly(f, a.ids, now - 3 * a.interval, now, id);
  }

  /** The row of a cluster after a step. */
  lemma RowStep(f: Hub, a: HealthHistory.Action, now: Time, id: ClusterId)
    requires ListsOnce(a)
    ensures var g := HealthHistory.Step(f, a, now);
      var health, beat := SaidHealth(f, a, now, id), SaidHeartbeat(f, a, now, id);
      && (id in g.clusters <==> (a.DoCreate? && health.Some?) || (id in f.clusters && a != DoDelete(id)))
      && (id in g.clusters && health.Some? ==> g.clusters[id].health == health.value)
      && (id in g.clusters && beat.Some? ==> g.clusters[id].lastHeartbeat == beat.value)
      && (id in g.clusters && health.None? ==> g.clusters[id].health == f.clusters[id].health)
      && (id in g.clusters && beat.None? ==> g.clusters[id].lastHeartbeat == f.clusters[id].lastHeartbeat)
      && (id in g.clusters && !(a.DoCreate? && health.Some?) ==> g.clusters[id].tenant == f.clusters[id].tenant)
      && (id in g.clusters && a.DoCreate? && health.Some? ==>
            g.clusters[id].tenant == if a.tenant == "" then "default" else a.tenant)
  {
    match a
    case DoMarkStale(_, _) => SweepSays(f, a, now, id);
    case DoSnapshot(_, ready) => AllReadyIs(ready);
    case _ =>
  }

  ghost function Saying(steps: seq<Timed>, id: ClusterId, health: Health): nat -> bool {
    (k: nat) => k < |steps| && SaidHealth(At(steps, k), steps[k].action, steps[k].at, id) == Some(health)
  }

  /** It is said to be otherwise, or deleted. */
  ghost function Unsaying(steps: seq<Timed>, id: ClusterId): nat -> bool {
    (k: nat) => k < |steps| && (SaidHealth(At(steps, k), steps[k].action, steps[k].at, id).Some?
                                || steps[k].action == DoDelete(id))
  }

  lemma HealthAt(steps: seq<Timed>, id: ClusterId, health: Health, k: nat)
    requires k < |steps| && ListsOnce(steps[k].action)
    ensures HasHealth(At(steps, k + 1), id, health)
       <==> Saying(steps, id, health)(k) || (HasHealth(At(steps, k), id, health) && !Unsaying(steps, id)(k))
  {
    AtStep(steps, k);
    RowStep(At(steps, k), steps[k].action, steps[k].at, id);
  }

  lemma {:induction false} HealthUpTo(steps: seq<Timed>, id: ClusterId, health: Health, k: nat)
    requires k <= |steps| && forall i :: 0 <= i < |steps| ==> ListsOnce(steps[i].action)
    ensures HasHealth(At(steps, k), id, health) <==> Since(Saying(steps, id, health), Unsaying(steps, id), k)
    decreases k
  {
    if k == 0 {
      assert steps[..0] == [];
    } else {
      HealthUpTo(steps, id, health, k - 1);
      HealthAt(steps, id, health, k - 1);
      SinceStep(Saying(steps, id, health), Unsaying(steps, id), k - 1);
    }
  }

  /**
    Over every run a cluster has the health that the last report, deregistration, timeout or creation
    since it was deleted says.
   */
  lemma HealthExactly(steps: seq<Timed>, id: ClusterId, health: Health)
    requires forall i :: 0 <= i < |steps| ==> ListsOnce(steps[i].action)
    ensures HasHealth(HealthHistory.Run(HealthHistory.Empty, steps), id, health)
       <==> Since(Saying(steps, id, health), Unsaying(steps, id), |steps|)
  {
    HealthUpTo(steps, id, health, |steps|);
    assert steps[..|steps|] == steps;
  }

  ghost function Beating(steps: seq<Timed>, id: ClusterId, heartbeat: Option<Time>): nat -> bool {
    (k: nat) => k < |steps| && SaidHeartbeat(At(steps, k), steps[k].action, steps[k].at, id) == Some(heartbeat)
  }

  ghost function Unbeating(steps: seq<Timed>, id: ClusterId): nat -> bool {
    (k: nat) => k < |steps| && (SaidHeartbeat(At(steps, k), steps[k].action, steps[k].at, id).Some?
                                || steps[k].action == DoDelete(id))
  }

  lemma HeartbeatAt(steps: seq<Timed>, id: ClusterId, heartbeat: Option<Time>, k: nat)
    requires k < |steps| && ListsOnce(steps[k].action)
    ensures HasHeartbeat(At(steps, k + 1), id, heartbeat)
       <==> Beating(steps, id, heartbeat)(k) || (HasHeartbeat(At(steps, k), id, heartbeat) && !Unbeating(steps, id)(k))
  {
    AtStep(steps, k);
    RowStep(At(steps, k), steps[k].action, steps[k].at, id);
  }

  lemma {:induction false} HeartbeatUpTo(steps: seq<Timed>, id: ClusterId, heartbeat: Option<Time>, k: nat)
    requires k <= |steps| && forall i :: 0 <= i < |steps| ==> ListsOnce(steps[i].action)
    ensures HasHeartbeat(At(steps, k), id, heartbeat)
       <==> Since(Beating(steps, id, heartbeat), Unbeating(steps, id), k)
    decreases k
  {
    if k == 0 {
      assert steps[..0] == [];
    } else {
      HeartbeatUpTo(steps, id, heartbeat, k - 1);
      HeartbeatAt(steps, id, heartbeat, k - 1);
      SinceStep(Beating(steps, id, heartbeat), Unbeating(steps, id), k - 1);
    }
  }

  /** Over every run its last heartbeat is the time of its agent's last call, or none since its creation. */
  lemma HeartbeatExactly(steps: seq<Timed>, id: ClusterId, heartbeat: Option<Time>)
    requires forall i :: 0 <= i < |steps| ==> ListsOnce(steps[i].action)
    ensures HasHeartbeat(HealthHistory.Run(HealthHistory.Empty, steps), id, heartbeat)
       <==> Since(Beating(steps, id, heartbeat), Unbeating(steps, id), |steps|)
  {
    HeartbeatUpTo(steps, id, heartbeat, |steps|);
    assert steps[..|steps|] == steps;
  }

  // ---------------------------------------------------------------- what is written into the timeline

  /** A change of health, which is a reconnect if it leads away from unreachable; none if nothing changed. */
  function ChangeOf(c: Cluster, id: ClusterId, next: Health, now: Time): seq<Event> {
    if c.health == next then []
    else [Event(c.tenant, id, if c.health == Unreachable then AgentReconnected else HeartbeatStateChange,
                FromTo(c.health, next), now, Some(TransitionAt(c.health, next, now)))]
  }

  /** A reachable cluster is lost: the disconnect with its reason, then the change of health. */
  function LossOf(c: Cluster, id: ClusterId, reason: string, now: Time): seq<Event> {
    if c.health == Unreachable then []
    else [Event(c.tenant, id, AgentDisconnected, Detail.Reason(reason), now, Some(ReasonAt(reason, now)))]
         + ChangeOf(c, id, Unreachable, now)
  }

  function TimeoutsOf(f: Hub, ids: seq<ClusterId>, interval: Time, now: Time): seq<Event> {
    if ids == [] then []
    else
      var n := |ids| - 1;
      TimeoutsOf(f, ids[..n], interval, now)
      + if ids[n] in f.clusters && TimedOut(f.clusters[ids[n]], interval, now)
        then LossOf(f.clusters[ids[n]], ids[n], "heartbeat_timeout", now) else []
  }

  /** The events that a step writes, in order. */
  function EventsOf(f: Hub, a: HealthHistory.Action, now: Time): seq<Event> {
    match a
    case DoCreate(id, tenant) =>
      if id in f.used then []
      else [Event(tenant, id, ClusterRegistered, NoDetail, now, Some(Literal("registered")))]
    case DoDeregister(id) => if id in f.clusters then LossOf(f.clusters[id], id, "deregistered", now) else []
    case DoHeartbeat(id, _, _) =>
      var said := SaidHealth(f, a, now, id);
      if said.Some? then ChangeOf(f.clusters[id], id, said.value, now) else []
    case DoSnapshot(id, _) =>
      var said := SaidHealth(f, a, now, id);
      if said.Some? then ChangeOf(f.clusters[id], id, said.value, now) else []
    case DoMarkStale(ids, interval) => TimeoutsOf(f, ids, interval, now)
    case DoOther(e) => [e]
    case _ => []
  }

  function AppendAll(s: Store, events: seq<Event>): Store {
    if events == [] then s else Timeline.Append(AppendAll(s, events[..|events| - 1]), events[|events| - 1]).0
  }

  lemma AppendOne(s: Store, e: Event)
    ensures AppendAll(s, [e]) == Timeline.Append(s, e).0
  {
    assert [e][..0] == [];
  }

  lemma {:induction false} AppendJoins(s: Store, a: seq<Event>, b: seq<Event>)
    ensures AppendAll(s, a + b) == AppendAll(AppendAll(s, a), b)
    decreases |b|
  {
    if b == [] {
      assert a + b == a;
    } else {
      var n := |b| - 1;
      assert (a + b)[..|a + b| - 1] == a + b[..n];
      AppendJoins(s, a, b[..n]);
    }
  }

  lemma ChangeAppends(s: Store, c: Cluster, id: ClusterId, next: Health, now: Time)
    ensures RecordTransition(s, c.tenant, id, c.health, next, now) == AppendAll(s, ChangeOf(c, id, next, now))
  {
    if c.health != next { AppendOne(s, TransitionEvent(c.tenant, id, c.health, next, now)); }
  }

  lemma LossAppends(f: Hub, id: ClusterId, reason: string, heartbeat: Option<Time>, now: Time)
    requires id in f.clusters
    ensures Lost(f, id, reason, heartbeat, now).events == AppendAll(f.events, LossOf(f.clusters[id], id, reason, now))
  {
    var c := f.clusters[id];
    if c.health != Unreachable {
      var d := DisconnectEvent(c.tenant, id, reason, now);
      AppendOne(f.events, d);
      ChangeAppends(Timeline.Append(f.events, d).0, c, id, Unreachable, now);
      AppendJoins(f.events, [d], ChangeOf(c, id, Unreachable, now));
    }
  }

  lemma {:induction false} TimeoutsAppend(f: Hub, ids: seq<ClusterId>, interval: Time, now: Time)
    requires Distinct(ids)
    ensures MarkStale(f, ids, now - 3 * interval, now).events == AppendAll(f.events, TimeoutsOf(f, ids, interval, now))
    decreases |ids|
  {
    if ids != [] {
      var n := |ids| - 1;
      var id, g := ids[n], MarkStale(f, ids[..n], now - 3 * interval, now);
      TimeoutsAppend(f, ids[..n], interval, now);
      MarkStaleExactly(f, ids[..n], now - 3 * interval, now, id);
      assert id !in ids[..n];
      if id in f.clusters && TimedOut(f.clusters[id], interval, now) {
        LossAppends(g, id, "heartbeat_timeout", f.clusters[id].lastHeartbeat, now);
        AppendJoins(f.events, TimeoutsOf(f, ids[..n], interval, now),
                    LossOf(f.clusters[id], id, "heartbeat_timeout", now));
      } else {
        assert TimeoutsOf(f, ids[..n], interval, now) + [] == TimeoutsOf(f, ids[..n], interval, now);
      }
    }
  }

  /**
    Every step appends exactly these events to the timeline, in this order, and none but a prune takes
    any away.
   */
  lemma StepWrites(f: Hub, a: HealthHistory.Action, now: Time)
    requires ListsOnce(a)
    ensures !a.DoPrune? ==> HealthHistory.Step(f, a, now).events == AppendAll(f.events, EventsOf(f, a, now))
    ensures a.DoPrune? ==>
      forall k :: k in HealthHistory.Step(f, a, now).events.rows <==>
        k in f.events.rows && f.events.rows[k].occurredAt >= a.cutoff
  {
    match a
    case DoCreate(id, tenant) =>
      AppendOne(f.events, Event(tenant, id, ClusterRegistered, NoDetail, now, Some(Literal("registered"))));
    case DoDeregister(id) => if id in f.clusters { LossAppends(f, id, "deregistered", Some(now), now); }
    case DoHeartbeat(id, nodes, healthyNodes) =>
      if id in f.clusters {
        ChangeAppends(f.events, f.clusters[id], id, HeartbeatHealth(nodes, healthyNodes), now);
      }
    case DoSnapshot(id, ready) =>
      AllReadyIs(ready);
      if id in f.clusters {
        ChangeAppends(f.events, f.clusters[id], id, if AllReady(ready) then Healthy else Degraded, now);
      }
    case DoMarkStale(ids, interval) => TimeoutsAppend(f, ids, interval, now);
    case DoOther(e) => AppendOne(f.events, e);
    case _ =>
  }
}
