/**
  When the recorded histories are right whatever the clock does: the exact condition under which
  dedupe drops a transition or a disconnect.
  Sources: internal/server/events.go, server.go, handlers_agents.go, handlers_clusters.go.
 */
module HistoryDuplicates {
  import opened Text
  import opened Fleet
  import opened Timeline
  import opened HealthHistory
  import opened HistoryGaps

  // ---------------------------------------------------------------- one append

  lemma {:induction false} ChainEnd(view: View, h: seq<Event>, from: Mark, a: Mark, b: Mark)
    requires Chained(view, h, from, a) && Chained(view, h, from, b)
    ensures a == b
  {
  }

  /** An event that starts where the history ends continues it exactly when it is not taken for a duplicate. */
  lemma AppendExactly(s: Store, e: Event, view: View, id: ClusterId, from: Mark)
    requires Deduped(s) && e.cluster == id && Shows(view, e.kind) && FromMark(view, e) != ToMark(view, e)
    requires StoreTells(s, view, id, from, FromMark(view, e))
    ensures StoreTells(Append(s, e).0, view, id, from, ToMark(view, e)) <==> !Conflict(s.rows, e)
  {
    var h := History(s.rows, s.lastId, view, id);
    if Conflict(s.rows, e) {
      if Chained(view, h, from, ToMark(view, e)) { ChainEnd(view, h, from, ToMark(view, e), FromMark(view, e)); }
    } else {
      AppendHistory(s, e, view, id);
      ChainedSnoc(view, h, from, e.(tenant := NormalizeTenant(e.tenant)));
    }
  }

  /** An event of another cluster, or one that a history does not show, leaves the history alone. */
  lemma AppendUnseen(s: Store, e: Event, view: View, id: ClusterId)
    requires Deduped(s) && (e.cluster != id || !Shows(view, e.kind))
    ensures Deduped(Append(s, e).0)
    ensures var t := Append(s, e).0; History(t.rows, t.lastId, view, id) == History(s.rows, s.lastId, view, id)
  {
    if !Conflict(s.rows, e) { AppendHistory(s, e, view, id); }
  }

  /** Appending makes no duplicate of an event of another kind, cluster or key. */
  lemma ConflictStays(s: Store, other: Event, e: Event)
    requires Deduped(s) && (other.kind != e.kind || other.cluster != e.cluster || other.dedupe != e.dedupe)
    ensures Conflict(Append(s, other).0.rows, e) <==> Conflict(s.rows, e)
  {
    var t := Append(s, other).0;
    if Conflict(s.rows, e) {
      var k :| k in s.rows && s.rows[k].cluster == e.cluster && s.rows[k].kind == e.kind
        && s.rows[k].dedupe == e.dedupe;
      assert k in t.rows && t.rows[k] == s.rows[k];
    }
  }

  // ---------------------------------------------------------------- one report, one loss

  /** The event of a report, if this history shows it. */
  predicate ReportShows(view: View, prev: Health, next: Health) {
    prev != next && (view == Changes || prev == Unreachable)
  }

  lemma TransitionExactly(s: Store, tenant: TenantId, id: ClusterId, prev: Health, next: Health, now: Time, view: View,
                          from: Mark)
    requires Deduped(s) && (view == Changes || next != Unreachable)
    requires StoreTells(s, view, id, from, MarkOf(view, prev))
    ensures StoreTells(RecordTransition(s, tenant, id, prev, next, now), view, id, from, MarkOf(view, next))
       <==> !(ReportShows(view, prev, next) && Conflict(s.rows, TransitionEvent(tenant, id, prev, next, now)))
  {
    var e := TransitionEvent(tenant, id, prev, next, now);
    if ReportShows(view, prev, next) {
      AppendExactly(s, e, view, id, from);
    } else if prev != next {
      AppendUnseen(s, e, view, id);
    }
  }

  /** The event of a loss that a history shows: the transition, or the disconnect. */
  function LossEvent(view: View, tenant: TenantId, id: ClusterId, prev: Health, reason: string, now: Time): Event {
    if view == Changes then TransitionEvent(tenant, id, prev, Unreachable, now)
      else DisconnectEvent(tenant, id, reason, now)
  }

  lemma LossExactly(s: Store, tenant: TenantId, id: ClusterId, prev: Health, reason: string, now: Time, view: View,
                    from: Mark)
    requires Deduped(s) && prev != Unreachable && StoreTells(s, view, id, from, MarkOf(view, prev))
    ensures StoreTells(LossEvents(s, tenant, id, prev, reason, now), view, id, from, MarkOf(view, Unreachable))
       <==> !Conflict(s.rows, LossEvent(view, tenant, id, prev, reason, now))
  {
    var d, e := DisconnectEvent(tenant, id, reason, now), TransitionEvent(tenant, id, prev, Unreachable, now);
    var t := Append(s, d).0;
    if view == Changes {
      AppendUnseen(s, d, view, id);
      ConflictStays(s, d, e);
      AppendExactly(t, e, view, id, from);
    } else {
      AppendExactly(s, d, view, id, from);
      assert Deduped(t);
      AppendUnseen(t, e, view, id);
    }
  }

  // ---------------------------------------------------------------- one step

  predicate ReportDrops(f: Hub, id: ClusterId, health: Health, now: Time, view: View)
    requires id in f.clusters
  {
    var c := f.clusters[id];
    ReportShows(view, c.health, health) && Conflict(f.events.rows, TransitionEvent(c.tenant, id, c.health, health, now))
  }

  predicate LossDrops(f: Hub, id: ClusterId, reason: string, now: Time, view: View)
    requires id in f.clusters
  {
    var c := f.clusters[id];
    c.health != Unreachable && Conflict(f.events.rows, LossEvent(view, c.tenant, id, c.health, reason, now))
  }

  /** A report that changes the health continues a history exactly when its event is not a duplicate. */
  lemma ReportedExactly(f: Hub, at: ClusterId, health: Health, now: Time, id: ClusterId, view: View, from: Mark)
    requires Deduped(f.events) && Tells(f, view, id, from) && health != Unreachable
    ensures Tells(Reported(f, at, health, now), view, id, from)
       <==> !(at == id && id in f.clusters && ReportDrops(f, id, health, now, view))
  {
    if at in f.clusters {
      var c := f.clusters[at];
      if at == id {
        TransitionExactly(f.events, c.tenant, id, c.health, health, now, view, from);
      } else if c.health != health {
        AppendUnseen(f.events, TransitionEvent(c.tenant, at, c.health, health, now), view, id);
      }
    }
  }

  /** A deregistration or a timeout continues a history exactly when its event is not a duplicate. */
  lemma LostExactly(f: Hub, at: ClusterId, reason: string, heartbeat: Option<Time>, now: Time, id: ClusterId,
                    view: View, from: Mark)
    requires Deduped(f.events) && Tells(f, view, id, from)
    ensures Tells(Lost(f, at, reason, heartbeat, now), view, id, from)
       <==> !(at == id && id in f.clusters && LossDrops(f, id, reason, now, view))
  {
    if at in f.clusters && f.clusters[at].health != Unreachable {
      var c := f.clusters[at];
      if at == id {
        LossExactly(f.events, c.tenant, id, c.health, reason, now, view, from);
      } else {
        LossElsewhere(f.events, c.tenant, at, c.health, reason, now, id, view);
      }
    }
  }

  lemma LossElsewhere(s: Store, tenant: TenantId, at: ClusterId, prev: Health, reason: string, now: Time,
                      id: ClusterId, view: View)
    requires Deduped(s) && at != id
    ensures var t := LossEvents(s, tenant, at, prev, reason, now);
      Deduped(t) && History(t.rows, t.lastId, view, id) == History(s.rows, s.lastId, view, id)
  {
    var d := DisconnectEvent(tenant, at, reason, now);
    AppendUnseen(s, d, view, id);
    AppendUnseen(Append(s, d).0, TransitionEvent(tenant, at, prev, Unreachable, now), view, id);
  }

  lemma LossElsewhereConflict(s: Store, tenant: TenantId, at: ClusterId, prev: Health, reason: string, now: Time,
                              e: Event)
    requires Deduped(s) && at != e.cluster
    ensures Conflict(LossEvents(s, tenant, at, prev, reason, now).rows, e) <==> Conflict(s.rows, e)
  {
    var d, t := DisconnectEvent(tenant, at, reason, now), TransitionEvent(tenant, at, prev, Unreachable, now);
    AppendUnseen(s, d, Changes, e.cluster);
    ConflictStays(s, d, e);
    ConflictStays(Append(s, d).0, t, e);
  }

  /** A sweep step for another cluster. */
  lemma LostElsewhere(f: Hub, at: ClusterId, reason: string, heartbeat: Option<Time>, now: Time, id: ClusterId,
                      view: View, from: Mark, e: Event)
    requires Deduped(f.events) && at != id && e.cluster == id
    ensures var g := Lost(f, at, reason, heartbeat, now);
      && Deduped(g.events)
      && (Tells(g, view, id, from) <==> Tells(f, view, id, from))
      && (Conflict(g.events.rows, e) <==> Conflict(f.events.rows, e))
  {
    if at in f.clusters && f.clusters[at].health != Unreachable {
      var c := f.clusters[at];
      LossElsewhere(f.events, c.tenant, at, c.health, reason, now, id, view);
      LossElsewhereConflict(f.events, c.tenant, at, c.health, reason, now, e);
    }
  }

  predicate SweepDrops(f: Hub, ids: seq<ClusterId>, cutoff: Time, now: Time, id: ClusterId, view: View) {
    id in ids && id in f.clusters && IsStale(f.clusters[id], cutoff) && LossDrops(f, id, "heartbeat_timeout", now, view)
  }

  lemma LostKeepsDeduped(f: Hub, id: ClusterId, reason: string, heartbeat: Option<Time>, now: Time)
    requires Deduped(f.events)
    ensures Deduped(Lost(f, id, reason, heartbeat, now).events)
  {
    if id in f.clusters && f.clusters[id].health != Unreachable {
      var c := f.clusters[id];
      AppendUnseen(f.events, DisconnectEvent(c.tenant, id, reason, now), Changes, id);
      var t := RecordDisconnect(f.events, c.tenant, id, reason, now);
      AppendUnseen(t, TransitionEvent(c.tenant, id, c.health, Unreachable, now), Outages, id);
    }
  }

  /** A sweep continues each history exactly when it marks that cluster without meeting a duplicate. */
  lemma {:induction false} SweepExactly(f: Hub, ids: seq<ClusterId>, cutoff: Time, now: Time, id: ClusterId,
                                        view: View, from: Mark, e: Event)
    requires Deduped(f.events) && Tells(f, view, id, from) && Distinct(ids) && e.cluster == id
    ensures var g := MarkStale(f, ids, cutoff, now);
      && Deduped(g.events)
      && (id !in ids ==> (Conflict(g.events.rows, e) <==> Conflict(f.events.rows, e)))
      && (Tells(g, view, id, from) <==> !SweepDrops(f, ids, cutoff, now, id, view))
    decreases |ids|
  {
    if ids != [] {
      var n := |ids| - 1;
      var g := MarkStale(f, ids[..n], cutoff, now);
      SweepExactly(f, ids[..n], cutoff, now, id, view, from, e);
      assert ids[n] !in ids[..n] && (id in ids <==> id in ids[..n] || id == ids[n]);
      if ids[n] in f.clusters && IsStale(f.clusters[ids[n]], cutoff) {
        var c := f.clusters[ids[n]];
        if ids[n] == id {
          var loss := LossEvent(view, c.tenant, id, c.health, "heartbeat_timeout", now);
          SweepExactly(f, ids[..n], cutoff, now, id, view, from, loss);
          MarkStaleExactly(f, ids[..n], cutoff, now, id);
          LostKeepsDeduped(g, id, "heartbeat_timeout", c.lastHeartbeat, now);
          LostExactly(g, id, "heartbeat_timeout", c.lastHeartbeat, now, id, view, from);
        } else {
          LostElsewhere(g, ids[n], "heartbeat_timeout", c.lastHeartbeat, now, id, view, from, e);
        }
      }
    }
  }

  /** The step drops the event with which this history of the cluster would have gone on. */
  predicate Drops(f: Hub, a: HealthHistory.Action, now: Time, id: ClusterId, view: View) {
    match a
    case DoDeregister(at) => at == id && id in f.clusters && LossDrops(f, id, "deregistered", now, view)
    case DoHeartbeat(at, nodes, healthyNodes) =>
      at == id && id in f.clusters && ReportDrops(f, id, HeartbeatHealth(nodes, healthyNodes), now, view)
    case DoSnapshot(at, ready) =>
      at == id && id in f.clusters && ReportDrops(f, id, if AllReady(ready) then Healthy else Degraded, now, view)
    case DoMarkStale(ids, interval) => SweepDrops(f, ids, now - 3 * interval, now, id, view)
    case _ => false
  }

  lemma CreatedTells(f: Hub, at: ClusterId, tenant: TenantId, now: Time, id: ClusterId, view: View, from: Mark)
    requires Owned(f) && Deduped(f.events) && Tells(f, view, id, from)
    requires id !in f.clusters ==> from == MarkOf(view, Unknown)
    ensures Tells(Created(f, at, tenant, now), view, id, from)
  {
    if at !in f.used {
      AppendUnseen(f.events, Event(tenant, at, ClusterRegistered, NoDetail, now, Some(Literal("registered"))), view,
        id);
      if at == id { NoHistory(f.events.rows, f.events.lastId, view, id); }
    }
  }

  /** Whatever the clock says, a step continues a history of a cluster exactly when it drops no event of it. */
  lemma StepExactly(f: Hub, a: HealthHistory.Action, now: Time, id: ClusterId, view: View, from: Mark)
    requires Owned(f) && Deduped(f.events) && Allowed(a) && !a.DoPrune? && Tells(f, view, id, from)
    requires id !in f.clusters ==> from == MarkOf(view, Unknown)
    ensures Tells(HealthHistory.Step(f, a, now), view, id, from) <==> !Drops(f, a, now, id, view)
  {
    match a
    case DoCreate(at, tenant) => CreatedTells(f, at, tenant, now, id, view, from);
    case DoDelete(at) =>
    case DoLiveness(at) =>
    case DoDeregister(at) => LostExactly(f, at, "deregistered", Some(now), now, id, view, from);
    case DoHeartbeat(at, nodes, healthyNodes) =>
      ReportedExactly(f, at, HeartbeatHealth(nodes, healthyNodes), now, id, view, from);
    case DoSnapshot(at, ready) =>
      ReportedExactly(f, at, if AllReady(ready) then Healthy else Degraded, now, id, view, from);
    case DoMarkStale(ids, interval) =>
      SweepExactly(f, ids, now - 3 * interval, now, id, view, from, DisconnectEvent("", id, "", now));
    case DoOther(e) => AppendUnseen(f.events, e, view, id);
  }

  // ---------------------------------------------------------------- whole runs at any times

  ghost predicate Unpruned(steps: seq<Timed>) {
    forall i :: 0 <= i < |steps| ==> Allowed(steps[i].action) && !steps[i].action.DoPrune?
  }

  ghost predicate DropsAt(steps: seq<Timed>, n: nat, id: ClusterId, view: View)
    requires n < |steps|
  {
    Drops(HealthHistory.Run(HealthHistory.Empty, steps[..n]), steps[n].action, steps[n].at, id, view)
  }

  lemma AppendDedupes(s: Store, e: Event)
    requires Deduped(s)
    ensures Deduped(Append(s, e).0)
  {
  }

  lemma {:induction false} SweepDedupes(f: Hub, ids: seq<ClusterId>, cutoff: Time, now: Time)
    requires Deduped(f.events)
    ensures Deduped(MarkStale(f, ids, cutoff, now).events)
    decreases |ids|
  {
    if ids != [] {
      var n := |ids| - 1;
      SweepDedupes(f, ids[..n], cutoff, now);
      if ids[n] in f.clusters {
        LostKeepsDeduped(MarkStale(f, ids[..n], cutoff, now), ids[n], "heartbeat_timeout",
          f.clusters[ids[n]].lastHeartbeat, now);
      }
    }
  }

  lemma StepDedupes(f: Hub, a: HealthHistory.Action, now: Time)
    requires Deduped(f.events)
    ensures Deduped(HealthHistory.Step(f, a, now).events)
  {
    match a
    case DoCreate(at, tenant) =>
      AppendDedupes(f.events, Event(tenant, at, ClusterRegistered, NoDetail, now, Some(Literal("registered"))));
    case DoDelete(at) =>
    case DoLiveness(at) =>
    case DoDeregister(at) => LostKeepsDeduped(f, at, "deregistered", Some(now), now);
    case DoHeartbeat(at, nodes, healthyNodes) => ReportDedupes(f, at, HeartbeatHealth(nodes, healthyNodes), now);
    case DoSnapshot(at, ready) => ReportDedupes(f, at, if AllReady(ready) then Healthy else Degraded, now);
    case DoMarkStale(ids, interval) => SweepDedupes(f, ids, now - 3 * interval, now);
    case DoOther(e) => AppendDedupes(f.events, e);
    case DoPrune(cutoff) =>
  }

  lemma ReportDedupes(f: Hub, at: ClusterId, health: Health, now: Time)
    requires Deduped(f.events)
    ensures Deduped(Reported(f, at, health, now).events)
  {
    if at in f.clusters {
      AppendDedupes(f.events, TransitionEvent(f.clusters[at].tenant, at, f.clusters[at].health, health, now));
    }
  }

  lemma {:induction false} RunIsSound(steps: seq<Timed>)
    requires forall i :: 0 <= i < |steps| ==> Allowed(steps[i].action)
    ensures Owned(HealthHistory.Run(HealthHistory.Empty, steps))
      && Deduped(HealthHistory.Run(HealthHistory.Empty, steps).events)
    decreases |steps|
  {
    if steps != [] {
      var n := |steps| - 1;
      RunIsSound(steps[..n]);
      StepOwned(HealthHistory.Run(HealthHistory.Empty, steps[..n]), steps[n].action, steps[n].at);
      StepDedupes(HealthHistory.Run(HealthHistory.Empty, steps[..n]), steps[n].action, steps[n].at);
    }
  }

  /** A run without dropped events tells the history of the cluster, whatever its times. */
  lemma {:induction false} UndroppedTells(steps: seq<Timed>, id: ClusterId, view: View)
    requires Unpruned(steps) && forall n :: 0 <= n < |steps| ==> !DropsAt(steps, n, id, view)
    ensures Tells(HealthHistory.Run(HealthHistory.Empty, steps), view, id, MarkOf(view, Unknown))
    decreases |steps|
  {
    if steps != [] {
      var n := |steps| - 1;
      forall i | 0 <= i < n ensures !DropsAt(steps[..n], i, id, view) {
        assert steps[..n][..i] == steps[..i];
        assert !DropsAt(steps, i, id, view);
      }
      UndroppedTells(steps[..n], id, view);
      RunIsSound(steps[..n]);
      assert !DropsAt(steps, n, id, view);
      StepExactly(HealthHistory.Run(HealthHistory.Empty, steps[..n]), steps[n].action, steps[n].at, id, view,
        MarkOf(view, Unknown));
    }
  }

  /**
    The exact condition on whole runs, with no assumption on the clock: a history of a cluster is
    unbroken after every step if and only if no step met its own event in the table already.
   */
  lemma RunExactly(steps: seq<Timed>, id: ClusterId, view: View)
    requires Unpruned(steps)
    ensures (forall n :: 0 <= n <= |steps| ==>
              Tells(HealthHistory.Run(HealthHistory.Empty, steps[..n]), view, id, MarkOf(view, Unknown)))
       <==> (forall n :: 0 <= n < |steps| ==> !DropsAt(steps, n, id, view))
  {
    if forall n :: 0 <= n < |steps| ==> !DropsAt(steps, n, id, view) {
      forall n | 0 <= n <= |steps|
        ensures Tells(HealthHistory.Run(HealthHistory.Empty, steps[..n]), view, id, MarkOf(view, Unknown))
      {
        forall i | 0 <= i < n ensures !DropsAt(steps[..n], i, id, view) {
          assert steps[..n][..i] == steps[..i] && !DropsAt(steps, i, id, view);
        }
        UndroppedTells(steps[..n], id, view);
      }
    }
    if forall n :: 0 <= n <= |steps| ==>
         Tells(HealthHistory.Run(HealthHistory.Empty, steps[..n]), view, id, MarkOf(view, Unknown)) {
      forall n | 0 <= n < |steps| ensures !DropsAt(steps, n, id, view) { ToldTwice(steps, n, id, view); }
    }
  }

  lemma ToldTwice(steps: seq<Timed>, n: nat, id: ClusterId, view: View)
    requires Unpruned(steps) && n < |steps|
    requires Tells(HealthHistory.Run(HealthHistory.Empty, steps[..n]), view, id, MarkOf(view, Unknown))
    requires Tells(HealthHistory.Run(HealthHistory.Empty, steps[..n + 1]), view, id, MarkOf(view, Unknown))
    ensures !DropsAt(steps, n, id, view)
  {
    assert steps[..n + 1][..n] == steps[..n];
    RunIsSound(steps[..n]);
    StepExactly(HealthHistory.Run(HealthHistory.Empty, steps[..n]), steps[n].action, steps[n].at, id, view,
      MarkOf(view, Unknown));
  }

  /** At strictly increasing times nothing is dropped. */
  lemma SerialDropsNothing(steps: seq<Timed>, n: nat, id: ClusterId, view: View)
    requires Serial(steps) && n < |steps|
    ensures !DropsAt(steps, n, id, view)
  {
    var before, now := steps[..n], steps[n].at;
    var f := HealthHistory.Run(HealthHistory.Empty, before);
    HealthHistory.RunKeeps(before, now);
    assert Settled(f.events, id, now);
    if id in f.clusters {
      var c := f.clusters[id];
      forall next: Health ensures !Conflict(f.events.rows, TransitionEvent(c.tenant, id, c.health, next, now)) {
        NoConflict(f.events.rows, TransitionEvent(c.tenant, id, c.health, next, now), now);
      }
      forall reason: string ensures !Conflict(f.events.rows, DisconnectEvent(c.tenant, id, reason, now)) {
        NoConflict(f.events.rows, DisconnectEvent(c.tenant, id, reason, now), now);
      }
    }
  }

  // ---------------------------------------------------------------- one clock reading

  /** Three changes of health within one clock reading: the third repeats the first and is not recorded. */
  lemma StalledClock(f: Hub, id: ClusterId, now: Time)
    requires Settled(f.events, id, now) && id in f.clusters && f.clusters[id].health == Healthy
    requires Tells(f, Changes, id, Of(Unknown))
    ensures var g := Reported(Reported(Reported(f, id, Degraded, now), id, Healthy, now), id, Degraded, now);
      g.clusters[id].health == Degraded && !Tells(g, Changes, id, Of(Unknown))
  {
    var down := TransitionEvent(f.clusters[id].tenant, id, Healthy, Degraded, now);
    var up := TransitionEvent(f.clusters[id].tenant, id, Degraded, Healthy, now);
    NoConflict(f.events.rows, down, now);
    NoConflict(f.events.rows, up, now);
    ReportedExactly(f, id, Degraded, now, id, Changes, Of(Unknown));
    var g1 := Reported(f, id, Degraded, now);
    ReportDedupes(f, id, Degraded, now);
    ConflictStays(f.events, down, up);
    ReportedExactly(g1, id, Healthy, now, id, Changes, Of(Unknown));
    var g2 := Reported(g1, id, Healthy, now);
    ReportDedupes(g1, id, Healthy, now);
    assert Conflict(g2.events.rows, down) by { assert f.events.lastId + 1 in g2.events.rows; }
    ReportedExactly(g2, id, Degraded, now, id, Changes, Of(Unknown));
  }

  /**
    The same for outages: lost, back and lost again within one clock reading leaves a cluster that is
    unreachable although its history ends with a reconnect.
   */
  lemma StalledOutage(f: Hub, id: ClusterId, now: Time)
    requires Settled(f.events, id, now) && id in f.clusters && f.clusters[id].health == Healthy
    requires Tells(f, Outages, id, Out(false))
    ensures var back := Reported(Lost(f, id, "deregistered", Some(now), now), id, Healthy, now);
      var g := Lost(back, id, "deregistered", Some(now), now);
      g.clusters[id].health == Unreachable && !Tells(g, Outages, id, Out(false))
  {
    var c := f.clusters[id];
    var gone := DisconnectEvent(c.tenant, id, "deregistered", now);
    var back := TransitionEvent(c.tenant, id, Unreachable, Healthy, now);
    NoConflict(f.events.rows, gone, now);
    NoConflict(f.events.rows, back, now);
    LostExactly(f, id, "deregistered", Some(now), now, id, Outages, Out(false));
    var g1 := Lost(f, id, "deregistered", Some(now), now);
    LostKeepsDeduped(f, id, "deregistered", Some(now), now);
    var s := Append(f.events, gone).0;
    ConflictStays(f.events, gone, back);
    AppendDedupes(f.events, gone);
    ConflictStays(s, TransitionEvent(c.tenant, id, Healthy, Unreachable, now), back);
    ReportedExactly(g1, id, Healthy, now, id, Outages, Out(false));
    var g2 := Reported(g1, id, Healthy, now);
    ReportDedupes(g1, id, Healthy, now);
    assert Conflict(g2.events.rows, gone) by { GoneStays(f, id, now); }
    LostExactly(g2, id, "deregistered", Some(now), now, id, Outages, Out(false));
  }

  lemma GoneStays(f: Hub, id: ClusterId, now: Time)
    requires Deduped(f.events) && id in f.clusters && f.clusters[id].health == Healthy
    ensures var g := Reported(Lost(f, id, "deregistered", Some(now), now), id, Healthy, now);
      Conflict(g.events.rows, DisconnectEvent(f.clusters[id].tenant, id, "deregistered", now))
  {
    var c := f.clusters[id];
    var gone := DisconnectEvent(c.tenant, id, "deregistered", now);
    var s := Append(f.events, gone).0;
    AppendDedupes(f.events, gone);
    assert Conflict(s.rows, gone) by { if !Conflict(f.events.rows, gone) { assert f.events.lastId + 1 in s.rows; } }
    var t := TransitionEvent(c.tenant, id, Healthy, Unreachable, now);
    ConflictStays(s, t, gone);
    AppendDedupes(s, t);
    ConflictStays(Append(s, t).0, TransitionEvent(c.tenant, id, Unreachable, Healthy, now), gone);
  }

  // ---------------------------------------------------------------- the same as runs

  lemma DownStays(f: Hub, id: ClusterId, now: Time)
    requires Deduped(f.events) && id in f.clusters && f.clusters[id].health == Healthy
    ensures var g := Reported(Reported(f, id, Degraded, now), id, Healthy, now);
      Conflict(g.events.rows, TransitionEvent(f.clusters[id].tenant, id, Healthy, Degraded, now))
  {
    var down := TransitionEvent(f.clusters[id].tenant, id, Healthy, Degraded, now);
    var up := TransitionEvent(f.clusters[id].tenant, id, Degraded, Healthy, now);
    var s := Append(f.events, down).0;
    AppendDedupes(f.events, down);
    assert Conflict(s.rows, down) by { if !Conflict(f.events.rows, down) { assert f.events.lastId + 1 in s.rows; } }
    ConflictStays(s, up, down);
  }

  /** Three steps more, at one time. */
  function Then(first: HealthHistory.Action, second: HealthHistory.Action, third: HealthHistory.Action): seq<Timed> {
    Beats(1) + [Timed(first, 2), Timed(second, 2), Timed(third, 2)]
  }

  lemma RunThen(first: HealthHistory.Action, second: HealthHistory.Action, third: HealthHistory.Action)
    ensures var steps := Then(first, second, third);
      && |steps| == 5 && steps[2].action == first && steps[3].action == second && steps[4] == Timed(third, 2)
      && HealthHistory.Run(HealthHistory.Empty, steps[..4])
         == HealthHistory.Step(HealthHistory.Step(BeatHub(1), first, 2), second, 2)
  {
    var steps := Then(first, second, third);
    BeatsReach(1);
    assert Beats(1) == [Timed(DoCreate("c", ""), 0), Timed(DoHeartbeat("c", 1, 1), 1)] by {
      assert Beats(0) == [Timed(DoCreate("c", ""), 0)];
    }
    assert steps[..2] == Beats(1);
    assert steps[..3][..2] == steps[..2] && steps[..4][..3] == steps[..3];
    assert steps[2] == Timed(first, 2) && steps[3] == Timed(second, 2);
    assert HealthHistory.Run(HealthHistory.Empty, steps[..3]) == HealthHistory.Step(BeatHub(1), first, 2);
  }

  lemma ThenIsUnpruned(first: HealthHistory.Action, second: HealthHistory.Action, third: HealthHistory.Action)
    requires FromAgent(first) && FromAgent(second) && FromAgent(third)
    ensures Unpruned(Then(first, second, third))
  {
    RunThen(first, second, third);
    var steps := Then(first, second, third);
    assert Beats(1) == Beats(0) + [Timed(DoHeartbeat("c", 1, 1), 1)] && Beats(0) == [Timed(DoCreate("c", ""), 0)];
    assert steps[0] == Timed(DoCreate("c", ""), 0) && steps[1] == Timed(DoHeartbeat("c", 1, 1), 1);
  }

  predicate FromAgent(a: HealthHistory.Action) { a.DoHeartbeat? || a.DoDeregister? }

  lemma BeatOneIsDeduped()
    ensures Deduped(BeatHub(1).events)
  {
    RunIsSound(Beats(1)) by {
      assert Beats(1) == Beats(0) + [Timed(DoHeartbeat("c", 1, 1), 1)] && Beats(0) == [Timed(DoCreate("c", ""), 0)];
    }
    BeatsReach(1);
  }

  /** A run of five handlers whose last step finds its transition recorded already and drops it. */
  lemma StalledClockRun()
    ensures var down, up := DoHeartbeat("c", 1, 0), DoHeartbeat("c", 1, 1);
      Unpruned(Then(down, up, down)) && DropsAt(Then(down, up, down), 4, "c", Changes)
  {
    var down, up := DoHeartbeat("c", 1, 0), DoHeartbeat("c", 1, 1);
    ThenIsUnpruned(down, up, down);
    RunThen(down, up, down);
    BeatOneIsDeduped();
    DownStays(BeatHub(1), "c", 2);
  }

  /** And one whose last step drops its disconnect. */
  lemma StalledOutageRun()
    ensures var gone, back := DoDeregister("c"), DoHeartbeat("c", 1, 1);
      Unpruned(Then(gone, back, gone)) && DropsAt(Then(gone, back, gone), 4, "c", Outages)
  {
    var gone, back := DoDeregister("c"), DoHeartbeat("c", 1, 1);
    ThenIsUnpruned(gone, back, gone);
    RunThen(gone, back, gone);
    BeatOneIsDeduped();
    GoneStays(BeatHub(1), "c", 2);
  }
}
