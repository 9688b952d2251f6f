/**
  Every alert is delivered or given up after at most as many sends as the hub makes attempts.
  Sources: internal/alerts/manager.go, internal/store/alerts.go.
 */
module AlertCompletion {
  import opened Text
  import opened Fleet
  import opened Sets
  import opened Alerts
  import opened AlertProgress

  // ---------------------------------------------------------------- one alert over a run

  /** Nothing happened to its delivery, or it was sent at least once more. */
  ghost predicate Moves(a: Alert, b: Alert) { SameDelivery(a, b) || (!Terminal(a) && b.attempts > a.attempts) }

  lemma StepMoves(s: System, a: Action, cfg: Config, id: AlertId)
    requires ConfigOk(cfg) && DeliveryOk(s, cfg) && id in s.table
    ensures id in Step(s, a, cfg).table && Moves(s.table[id], Step(s, a, cfg).table[id])
  {
    if Terminal(s.table[id]) {
      StepTerminal(s, a, cfg, id);
    } else {
      match a
      case DoDeliver(at, ok) => if s.batch != [] && s.clock <= at { DeliverMoves(s, at, ok, cfg, id); }
      case DoResolve(_, _, _) => LifecycleLeavesDelivery(s, a, cfg);
      case DoAcknowledge(_, _, _) => LifecycleLeavesDelivery(s, a, cfg);
      case _ =>
    }
  }

  lemma DeliverMoves(s: System, at: Time, ok: bool, cfg: Config, id: AlertId)
    requires DeliveryOk(s, cfg) && s.batch != [] && s.clock <= at && id in s.table && !Terminal(s.table[id])
    ensures var t := Step(s, DoDeliver(at, ok), cfg); id in t.table && Moves(s.table[id], t.table[id])
  {
    DeliverIs(s, at, ok, cfg);
  }

  lemma {:induction false} RunMoves(s: System, actions: seq<Action>, cfg: Config, id: AlertId)
    requires ConfigOk(cfg) && DeliveryOk(s, cfg) && id in s.table
    ensures id in Run(s, actions, cfg).table && Moves(s.table[id], Run(s, actions, cfg).table[id])
    decreases |actions|
  {
    if actions != [] {
      StepMoves(s, actions[0], cfg, id);
      StepDelivery(s, actions[0], cfg);
      RunMoves(Step(s, actions[0], cfg), actions[1..], cfg, id);
    }
  }

  lemma {:induction false} RoundsMove(s: System, rounds: seq<Round>, cfg: Config, id: AlertId)
    requires ConfigOk(cfg) && DeliveryOk(s, cfg) && id in s.table
    ensures var t := AfterAll(s, rounds, cfg);
      DeliveryOk(t, cfg) && id in t.table && Moves(s.table[id], t.table[id])
    decreases |rounds|
  {
    if rounds != [] {
      var list := DoList(rounds[0].now, rounds[0].rows);
      var u := Step(s, list, cfg);
      StepMoves(s, list, cfg, id);
      StepDelivery(s, list, cfg);
      RunMoves(u, rounds[0].calls, cfg, id);
      DeliveryInvariant(u, rounds[0].calls, cfg);
      RoundsMove(After(s, rounds[0], cfg), rounds[1..], cfg, id);
    }
  }

  // ---------------------------------------------------------------- served

  ghost predicate Waits(a: Alert) { a.delivery == Pending || a.delivery == Retrying }

  /**
    Unless it is done with, the alert is served: complete rounds come at or after the time of its next
    delivery, enough of them for the alerts that are due by that time.
   */
  ghost predicate Served(s: System, rounds: seq<Round>, cfg: Config, id: AlertId) {
    id in s.table && Waits(s.table[id]) ==>
      && s.table[id].nextAt.Some?
      && AllComplete(s, rounds, cfg, s.table[id].nextAt.value)
      && 25 * |rounds| >= |DueSet(s.table, s.table[id].nextAt.value)|
  }

  /** A waiting alert that is served is sent. */
  lemma ServedIsSent(s: System, rounds: seq<Round>, cfg: Config, id: AlertId)
    requires ConfigOk(cfg) && cfg.webhook && DeliveryOk(s, cfg) && id in s.table && Waits(s.table[id])
    requires Served(s, rounds, cfg, id)
    ensures var t := AfterAll(s, rounds, cfg); id in t.table && t.table[id].attempts > s.table[id].attempts
  {
    var t, cutoff := AfterAll(s, rounds, cfg), s.table[id].nextAt.value;
    RoundsMove(s, rounds, cfg, id);
    BacklogDrainsOverRun(s, rounds, cfg, cutoff);
    assert DueSet(t.table, cutoff) == {};
    assert id !in DueSet(t.table, cutoff) && Due(s.table[id], cutoff);
  }

  /** Served again and again. */
  ghost predicate KeepsBeingServed(s: System, phases: seq<seq<Round>>, cfg: Config, id: AlertId)
    decreases |phases|
  {
    phases == [] ||
    (Served(s, phases[0], cfg, id) && KeepsBeingServed(AfterAll(s, phases[0], cfg), phases[1..], cfg, id))
  }

  ghost function AfterPhases(s: System, phases: seq<seq<Round>>, cfg: Config): System
    decreases |phases|
  {
    if phases == [] then s else AfterPhases(AfterAll(s, phases[0], cfg), phases[1..], cfg)
  }

  lemma {:induction false} PhasesSend(s: System, phases: seq<seq<Round>>, cfg: Config, id: AlertId)
    requires ConfigOk(cfg) && cfg.webhook && DeliveryOk(s, cfg) && id in s.table
    requires KeepsBeingServed(s, phases, cfg, id)
    ensures var t := AfterPhases(s, phases, cfg);
      && DeliveryOk(t, cfg) && id in t.table && Moves(s.table[id], t.table[id])
      && (Waits(t.table[id]) ==> t.table[id].attempts >= s.table[id].attempts + |phases|)
    decreases |phases|
  {
    if phases != [] {
      var u := AfterAll(s, phases[0], cfg);
      RoundsMove(s, phases[0], cfg, id);
      if Waits(s.table[id]) { ServedIsSent(s, phases[0], cfg, id); }
      PhasesSend(u, phases[1..], cfg, id);
    }
  }

  /**
    From every reachable state: an alert that keeps being served is delivered or dead-lettered after as
    many servings as attempts are left to it, having been sent at most as often as the hub attempts.
   */
  lemma EveryAlertCompletes(actions: seq<Action>, phases: seq<seq<Round>>, cfg: Config, id: AlertId)
    requires ConfigOk(cfg) && cfg.webhook
    requires id in Run(Empty, actions, cfg).table && Run(Empty, actions, cfg).table[id].delivery != Disabled
    requires KeepsBeingServed(Run(Empty, actions, cfg), phases, cfg, id)
    requires |phases| >= cfg.maxAttempts - Run(Empty, actions, cfg).table[id].attempts
    ensures var t := AfterPhases(Run(Empty, actions, cfg), phases, cfg);
      && id in t.table && (t.table[id].delivery == Delivered || t.table[id].delivery == DeadLetter)
      && |SendsOf(t.sends, id)| <= cfg.maxAttempts
  {
    var s := Run(Empty, actions, cfg);
    DeliveryInvariant(Empty, actions, cfg);
    PhasesSend(s, phases, cfg, id);
    assert HistoryOk(s.table[id], SendsOf(s.sends, id), cfg);
    var t := AfterPhases(s, phases, cfg);
    assert HistoryOk(t.table[id], SendsOf(t.sends, id), cfg);
  }

  // ---------------------------------------------------------------- rounds can be completed

  /** A row that goes before all others of a set. */
  lemma {:induction false} FirstOf(t: Table, due: set<AlertId>) returns (first: AlertId)
    requires due != {} && forall id :: id in due ==> id in t && t[id].nextAt.Some?
    ensures first in due && forall id :: id in due ==> Earlier(t[first], t[id])
    decreases due
  {
    first :| first in due;
    if due != {first} {
      var other := FirstOf(t, due - {first});
      assert forall id :: id in due ==> id == first || id in due - {first};
      if !Earlier(t[first], t[other]) { first := other; }
    }
  }

  /** The first rows of a set, as many as fit, with what is left. */
  ghost predicate Heads(t: Table, due: set<AlertId>, rows: seq<AlertId>, rest: set<AlertId>) {
    && Distinct(rows) && rest <= due && due <= t.Keys
    && (forall id :: id in rows <==> id in due && id !in rest)
    && (forall i, j :: 0 <= i < j < |rows| && rows[i] in t && rows[j] in t ==> Earlier(t[rows[i]], t[rows[j]]))
    && (forall id, d :: id in rows && id in t && d in rest ==> Earlier(t[id], t[d]))
  }

  lemma OneMore(t: Table, due: set<AlertId>, rows: seq<AlertId>, rest: set<AlertId>, first: AlertId)
    requires Heads(t, due, rows, rest) && first in rest && forall id :: id in rest ==> Earlier(t[first], t[id])
    ensures Heads(t, due, rows + [first], rest - {first})
  {
    assert first !in rows;
  }

  lemma {:induction false} DueListExists(t: Table, now: Time, limit: nat) returns (rows: seq<AlertId>)
    ensures IsDueList(t, now, limit, rows)
  {
    var due := DueSet(t, now);
    var rest := due;
    rows := [];
    while rest != {} && |rows| < limit
      invariant Heads(t, due, rows, rest) && |rows| + |rest| == |due| && |rows| <= limit
      decreases rest
    {
      var first := FirstOf(t, rest);
      OneMore(t, due, rows, rest, first);
      rows := rows + [first];
      rest := rest - {first};
    }
  }

  /** The listed rows can be sent, whatever the webhook answers. */
  lemma {:induction false} BatchCanBeSent(s: System, ok: bool, cfg: Config) returns (calls: seq<Action>)
    requires ConfigOk(cfg) && DeliveryOk(s, cfg)
    ensures Run(s, calls, cfg).batch == [] && forall i :: 0 <= i < |calls| ==> calls[i].DoDeliver?
    decreases |s.batch|
  {
    calls := [];
    if s.batch != [] {
      var send := DoDeliver(s.clock, ok);
      assert ListedOk(s.table, s.batch[0], s.clock);
      StepDelivery(s, send, cfg);
      var rest := BatchCanBeSent(Step(s, send, cfg), ok, cfg);
      calls := [send] + rest;
      assert calls[1..] == rest;
    }
  }

  /** Whenever the worker is idle it can complete a round. */
  lemma RoundsExist(s: System, now: Time, ok: bool, cfg: Config, cutoff: Time) returns (r: Round)
    requires ConfigOk(cfg) && cfg.webhook && DeliveryOk(s, cfg) && s.batch == []
    requires s.clock <= now && cutoff <= now
    ensures r.now == now && Completes(s, r, cfg, cutoff)
  {
    var rows := DueListExists(s.table, now, 25);
    StepDelivery(s, DoList(now, rows), cfg);
    var calls := BatchCanBeSent(Step(s, DoList(now, rows), cfg), ok, cfg);
    r := Round(now, rows, calls);
  }
}
