/**
  The hub's health handlers and staleness sweep, proved against the steps of `HealthHistory`.
  Sources: internal/server/events.go, server.go, handlers_agents.go, handlers_clusters.go.
 */
module HealthServer {
  import opened Text
  import opened Fleet
  import opened Timeline
  import opened HealthHistory

  method SnapshotHealth(nodes: seq<bool>) returns (health: Health)
    ensures health == if AllReady(nodes) then Healthy else Degraded
  {
    if |nodes| == 0 { return Degraded; }
    for i := 0 to |nodes|
      invariant forall j :: 0 <= j < i ==> nodes[j]
    {
      if !nodes[i] { return Degraded; }
    }
    return Healthy;
  }

  class Server {
    var clusters: map<ClusterId, Cluster>
    var used: set<ClusterId>
    var events: Store
    const interval: Time

    ghost function State(): Hub reads this { Hub(clusters, used, events) }

    constructor (heartbeatInterval: Time)
      ensures State() == Empty
      ensures interval == if heartbeatInterval > 0 then heartbeatInterval else 30_000_000_000
    {
      clusters, used, events := map[], {}, Store(map[], 0);
      interval := if heartbeatInterval > 0 then heartbeatInterval else 30_000_000_000;
    }

    method UpdateHealth(id: ClusterId, health: Health, heartbeat: Option<Time>) returns (found: bool)
      modifies this`clusters
      ensures found == (id in old(clusters))
      ensures State() == SetHealth(old(State()), id, health, heartbeat)
    {
      found := id in clusters;
      if found {
        clusters := clusters[id := clusters[id].(health := health, lastHeartbeat := heartbeat)];
      }
    }

    method RecordEvent(e: Event)
      modifies this`events
      ensures events == Append(old(events), e).0
    {
      var appended := Append(events, e);
      events := appended.0;
    }

    method RecordHeartbeatTransition(c: Cluster, id: ClusterId, prev: Health, next: Health, now: Time)
      modifies this`events
      ensures events == RecordTransition(old(events), c.tenant, id, prev, next, now)
    {
      if prev == next { return; }
      var kind := HeartbeatStateChange;
      if prev == Unreachable && next != Unreachable { kind := AgentReconnected; }
      RecordEvent(Event(c.tenant, id, kind, FromTo(prev, next), now, Some(TransitionAt(prev, next, now))));
    }

    method RecordAgentDisconnected(c: Cluster, id: ClusterId, reason: string, now: Time)
      modifies this`events
      ensures events == RecordDisconnect(old(events), c.tenant, id, reason, now)
    {
      RecordEvent(Event(c.tenant, id, AgentDisconnected, Detail.Reason(reason), now, Some(ReasonAt(reason, now))));
    }

    method HandleAgentLiveness(id: ClusterId, now: Time)
      modifies this
      ensures State() == HealthHistory.Step(old(State()), DoLiveness(id), now)
    {
      if id !in clusters { return; }
      var _ := UpdateHealth(id, clusters[id].health, Some(now));
    }

    method HandleAgentDeregister(id: ClusterId, now: Time)
      modifies this
      ensures State() == HealthHistory.Step(old(State()), DoDeregister(id), now)
    {
      if id !in clusters { return; }
      var cluster := clusters[id];
      var _ := UpdateHealth(id, Unreachable, Some(now));
      if cluster.health != Unreachable {
        RecordAgentDisconnected(cluster, id, "deregistered", now);
        RecordHeartbeatTransition(cluster, id, cluster.health, Unreachable, now);
      }
    }

    method HandleHeartbeat(id: ClusterId, nodes: int, healthyNodes: int, now: Time)
      modifies this
      ensures State() == HealthHistory.Step(old(State()), DoHeartbeat(id, nodes, healthyNodes), now)
    {
      if id !in clusters { return; }
      var previous := clusters[id];
      var health := Degraded;
      if nodes > 0 && healthyNodes == nodes { health := Healthy; }
      var _ := UpdateHealth(id, health, Some(now));
      RecordHeartbeatTransition(clusters[id], id, previous.health, clusters[id].health, now);
    }

    method HandleClusterSnapshot(id: ClusterId, ready: seq<bool>, now: Time)
      modifies this
      ensures State() == HealthHistory.Step(old(State()), DoSnapshot(id, ready), now)
    {
      if id !in clusters { return; }
      var cluster := clusters[id];
      var health := SnapshotHealth(ready);
      var _ := UpdateHealth(id, health, Some(now));
      RecordHeartbeatTransition(clusters[id], id, cluster.health, clusters[id].health, now);
    }

    /** `order` is the list that ListClusters returns; each cluster is judged by the row that was read with it. */
    method MarkStaleClusters(order: seq<ClusterId>, now: Time)
      requires Distinct(order) && forall id :: id in order <==> id in clusters
      modifies this
      ensures State() == HealthHistory.Step(old(State()), DoMarkStale(order, interval), now)
    {
      var listed := clusters;
      var cutoff := now - 3 * interval;
      for i := 0 to |order|
        invariant State() == MarkStale(old(State()), order[..i], cutoff, now)
      {
        var id := order[i];
        var cluster := listed[id];
        SweepStep(old(State()), order, cutoff, now, i);
        if cluster.lastHeartbeat == None || !(cluster.lastHeartbeat.value < cutoff) || cluster.health == Unreachable {
          continue;
        }
        var _ := UpdateHealth(id, Unreachable, cluster.lastHeartbeat);
        RecordAgentDisconnected(cluster, id, "heartbeat_timeout", now);
        RecordHeartbeatTransition(cluster, id, cluster.health, Unreachable, now);
      }
      assert order[..|order|] == order;
    }
  }

  lemma SweepStep(f: Hub, ids: seq<ClusterId>, cutoff: Time, now: Time, i: nat)
    requires Distinct(ids) && i < |ids| && ids[i] in f.clusters
    ensures var g := MarkStale(f, ids[..i], cutoff, now);
      && ids[i] in g.clusters && g.clusters[ids[i]] == f.clusters[ids[i]]
      && MarkStale(f, ids[..i + 1], cutoff, now)
         == if IsStale(f.clusters[ids[i]], cutoff)
            then Lost(g, ids[i], "heartbeat_timeout", f.clusters[ids[i]].lastHeartbeat, now) else g
  {
    assert ids[..i + 1][..i] == ids[..i];
    assert ids[i] !in ids[..i];
    MarkStaleExactly(f, ids[..i], cutoff, now, ids[i]);
  }
}
