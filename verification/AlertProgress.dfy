/**
  Progress of the delivery scheduler over runs in which its queries and sends interleave with every
  other store call. Sources: internal/alerts/manager.go, internal/store/alerts.go.
 */
module AlertProgress {
  import opened Text
  import opened Fleet
  import opened Sets
  import opened Alerts

  /** The alerts that the worker has listed and not yet sent. */
  function Listed(s: System): set<AlertId> { set i | 0 <= i < |s.batch| :: s.batch[i].0 }

  /** What may happen during a round: sends, and store calls that make nothing due at the cutoff. */
  ghost predicate Traffic(calls: seq<Action>, cutoff: Time) {
    forall i :: 0 <= i < |calls| ==> Allowed(calls[i], cutoff)
  }

  predicate Allowed(a: Action, cutoff: Time) { !a.DoStop? && !a.DoList? && (a.DoCreate? ==> a.at > cutoff) }

  /** A send takes its alert off the list and out of the due set. */
  lemma SendStep(s: System, at: Time, ok: bool, cfg: Config, cutoff: Time)
    requires ConfigOk(cfg) && DeliveryOk(s, cfg) && s.batch != [] && s.clock <= at && cutoff <= s.clock
    ensures var t, id := Step(s, DoDeliver(at, ok), cfg), s.batch[0].0;
      DueSet(t.table, cutoff) == DueSet(s.table, cutoff) - {id} && Listed(t) == Listed(s) - {id}
  {
    var t, id := Step(s, DoDeliver(at, ok), cfg), s.batch[0].0;
    assert ListedOk(s.table, s.batch[0], s.clock);
    SentRowNotDue(s.table[id], at, ok, cfg, cutoff);
    forall i | 0 <= i < |t.batch| ensures t.batch[i].0 != id && t.batch[i] == s.batch[i + 1] {}
    assert Listed(t) == Listed(s) - {id};
  }

  lemma OtherStep(s: System, a: Action, cfg: Config, cutoff: Time)
    requires Allowed(a, cutoff) && !a.DoDeliver?
    ensures var t := Step(s, a, cfg);
      DueSet(t.table, cutoff) == DueSet(s.table, cutoff) && t.batch == s.batch && t.clock == s.clock
  {
    var t := Step(s, a, cfg);
    if a.DoResolve? {
      forall id | id in s.table ensures t.table[id] == ResolveRow(s.table[id], a.cluster, a.health, a.at) {}
    }
    assert DueSet(t.table, cutoff) == DueSet(s.table, cutoff);
  }

  /** No step of a round changes which due alerts are not on the list. */
  lemma TrafficStep(s: System, a: Action, cfg: Config, cutoff: Time)
    requires ConfigOk(cfg) && DeliveryOk(s, cfg) && cutoff <= s.clock && Allowed(a, cutoff)
    ensures var t := Step(s, a, cfg);
      && cutoff <= t.clock
      && DueSet(t.table, cutoff) - Listed(t) == DueSet(s.table, cutoff) - Listed(s)
  {
    if a.DoDeliver? {
      if s.batch != [] && s.clock <= a.at { SendStep(s, a.at, a.ok, cfg, cutoff); }
    } else {
      OtherStep(s, a, cfg, cutoff);
    }
  }

  lemma {:induction false} TrafficRun(s: System, calls: seq<Action>, cfg: Config, cutoff: Time)
    requires ConfigOk(cfg) && DeliveryOk(s, cfg) && cutoff <= s.clock && Traffic(calls, cutoff)
    ensures var t := Run(s, calls, cfg);
      DueSet(t.table, cutoff) - Listed(t) == DueSet(s.table, cutoff) - Listed(s)
    decreases |calls|
  {
    if calls != [] {
      TrafficStep(s, calls[0], cfg, cutoff);
      StepDelivery(s, calls[0], cfg);
      TrafficRun(Step(s, calls[0], cfg), calls[1..], cfg, cutoff);
    }
  }

  /** One ProcessDue: its query, then its sends with whatever else the store is asked meanwhile. */
  datatype Round = Round(now: Time, rows: seq<AlertId>, calls: seq<Action>)

  ghost function After(s: System, r: Round, cfg: Config): System {
    Run(Step(s, DoList(r.now, r.rows), cfg), r.calls, cfg)
  }

  /** The round's query answers from this state, and all its sends are made. */
  ghost predicate Completes(s: System, r: Round, cfg: Config, cutoff: Time) {
    && s.batch == [] && s.clock <= r.now && cutoff <= r.now && IsDueList(s.table, r.now, 25, r.rows)
    && Traffic(r.calls, cutoff)
    && After(s, r, cfg).batch == []
  }

  /**
    A round over the running system, whatever its sends interleave with, removes exactly
    min(25, n) of the n alerts due at the cutoff.
   */
  lemma RoundOverRun(s: System, r: Round, cfg: Config, cutoff: Time)
    requires ConfigOk(cfg) && cfg.webhook && DeliveryOk(s, cfg) && Completes(s, r, cfg, cutoff)
    ensures var t, n := After(s, r, cfg), |DueSet(s.table, cutoff)|;
      && DeliveryOk(t, cfg)
      && DueSet(t.table, cutoff) <= DueSet(s.table, cutoff)
      && |DueSet(t.table, cutoff)| == n - Min(25, n)
  {
    var u, t := Step(s, DoList(r.now, r.rows), cfg), After(s, r, cfg);
    var listed := set id | id in r.rows;
    StepDelivery(s, DoList(r.now, r.rows), cfg);
    DeliveryInvariant(u, r.calls, cfg);
    TrafficRun(u, r.calls, cfg, cutoff);
    RowsAreListed(s, r, cfg, cutoff);
    assert Listed(t) == {};
    assert DueSet(t.table, cutoff) == DueSet(s.table, cutoff) - listed;
    BacklogFirst(s.table, cutoff, r.now, r.rows);
    DistinctSize(r.rows);
    Remaining(DueSet(s.table, cutoff), listed);
  }

  lemma RowsAreListed(s: System, r: Round, cfg: Config, cutoff: Time)
    requires cfg.webhook && Completes(s, r, cfg, cutoff)
    ensures var u := Step(s, DoList(r.now, r.rows), cfg);
      Listed(u) == (set id | id in r.rows) && u.table == s.table && u.clock == r.now
  {
    var u := Step(s, DoList(r.now, r.rows), cfg);
    forall id | id in r.rows ensures id in Listed(u) {
      var i :| 0 <= i < |r.rows| && r.rows[i] == id;
      assert u.batch[i].0 == id;
    }
    forall id | id in Listed(u) ensures id in r.rows {
      var i :| 0 <= i < |u.batch| && u.batch[i].0 == id;
      assert u.batch[i].0 == r.rows[i];
    }
  }

  /** Rounds one after the other over one running system. */
  ghost predicate AllComplete(s: System, rounds: seq<Round>, cfg: Config, cutoff: Time)
    decreases |rounds|
  {
    rounds == [] || (Completes(s, rounds[0], cfg, cutoff)
      && AllComplete(After(s, rounds[0], cfg), rounds[1..], cfg, cutoff))
  }

  ghost function AfterAll(s: System, rounds: seq<Round>, cfg: Config): System
    decreases |rounds|
  {
    if rounds == [] then s else AfterAll(After(s, rounds[0], cfg), rounds[1..], cfg)
  }

  /**
    A backlog of n alerts is gone after n / 25 rounds, rounded up, whatever else the store is asked
    during the rounds.
   */
  lemma {:induction false} BacklogDrainsOverRun(s: System, rounds: seq<Round>, cfg: Config, cutoff: Time)
    requires ConfigOk(cfg) && cfg.webhook && DeliveryOk(s, cfg) && AllComplete(s, rounds, cfg, cutoff)
    ensures var n := |DueSet(s.table, cutoff)|;
      |DueSet(AfterAll(s, rounds, cfg).table, cutoff)| == n - Min(n, 25 * |rounds|)
    decreases |rounds|
  {
    if rounds != [] {
      RoundOverRun(s, rounds[0], cfg, cutoff);
      BacklogDrainsOverRun(After(s, rounds[0], cfg), rounds[1..], cfg, cutoff);
    }
  }
}
