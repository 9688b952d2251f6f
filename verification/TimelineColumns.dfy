/**
  What pages and walks list, and what the table holds, in terms of the columns of the events and of
  what happened. Source: internal/store/sqlite.go.
 */
module TimelineColumns {
  import opened Text
  import opened Fleet
  import opened Runs
  import opened Pruning
  import Sets
  import opened Timeline

  /** The columns that a filter restricts. */
  predicate Wanted(e: Event, f: Filter) {
    && (f.tenant == "" || e.tenant == f.tenant)
    && (f.cluster == "" || e.cluster == f.cluster)
    && (f.since == None || f.since.value <= e.occurredAt)
    && (f.until == None || e.occurredAt < f.until.value)
  }

  /** Later, or at the same time with the greater id. */
  predicate After(rows: Rows, i: EventId, j: EventId)
    requires i in rows && j in rows
  {
    rows[j].occurredAt < rows[i].occurredAt || (rows[j].occurredAt == rows[i].occurredAt && j < i)
  }

  // ---------------------------------------------------------------- one page

  /** The cursor row is gone, or not one of the tenant's. */
  predicate Unusable(rows: Rows, f: Filter, before: EventId) {
    before != 0 && (before !in rows || (f.tenant != "" && rows[before].tenant != f.tenant))
  }

  /** What the page of a usable cursor may hold. */
  predicate Eligible(rows: Rows, f: Filter, before: EventId, id: EventId) {
    id in rows && Wanted(rows[id], f) && (before == 0 || (before in rows && After(rows, before, id)))
  }

  lemma CandidatesAre(rows: Rows, f: Filter, before: EventId)
    requires before == 0 || before in rows
    ensures forall id :: id in Candidates(rows, f, before) <==> Eligible(rows, f, before, id)
  {
  }

  /**
    A page holds events with the wanted columns only, newest first, at most as many as the limit
    allows; whatever it leaves out is older than all of it and only left out for lack of room, which
    the cursor tells.
   */
  lemma PageExactly(rows: Rows, f: Filter, before: EventId, limit: int, page: Page)
    requires IsPage(rows, f, before, limit, page) && 0 !in rows
    ensures Unusable(rows, f, before) ==> page == Page([], 0)
    ensures !Unusable(rows, f, before) ==>
      var n := if limit <= 0 then 50 else if limit > 500 then 500 else limit;
      var events := page.events;
      && (forall id :: id in events ==> Eligible(rows, f, before, id))
      && (forall i, j :: 0 <= i < j < |events| && events[i] in rows && events[j] in rows ==>
            After(rows, events[i], events[j]))
      && |events| <= n
      && (forall id, d :: id in events && id in rows && d !in events && Eligible(rows, f, before, d) ==>
            After(rows, id, d))
      && (forall d :: d !in events && Eligible(rows, f, before, d) ==> |events| == n)
      && (page.nextCursor == 0 ==> forall d :: Eligible(rows, f, before, d) ==> d in events)
      && (page.nextCursor != 0 ==> events != [] && page.nextCursor == events[|events| - 1]
                                   && exists d :: Eligible(rows, f, before, d) && d !in events)
  {
    if !Unusable(rows, f, before) {
      assert CursorFound(rows, f, before);
      CandidatesAre(rows, f, before);
      var candidates, n := Candidates(rows, f, before), EffectiveLimit(limit);
      assert n == if limit <= 0 then 50 else if limit > 500 then 500 else limit;
      LeftOutForRoom(rows, candidates, n, page.events);
    }
  }

  /** Fewer are shown than there are exactly when one is left out. */
  lemma LeftOutForRoom(rows: Rows, candidates: set<EventId>, n: nat, ids: seq<EventId>)
    requires NewestOf(rows, candidates, n, ids)
    ensures |candidates| > n <==> exists d :: d in candidates && d !in ids
    ensures (exists d :: d in candidates && d !in ids) ==> |ids| == n
  {
    DistinctSetSize(rows, ids);
    assert SetOf(ids) <= candidates;
    Sets.SubsetSize(SetOf(ids), candidates);
    if d :| d in candidates && d !in ids { Sets.ProperSubsetSmaller(SetOf(ids), candidates); }
    assert (forall d :: d in candidates ==> d in ids) ==> SetOf(ids) == candidates;
  }

  // ---------------------------------------------------------------- whole walks

  /**
    Whatever the store does between the pages, a walk lists events with the wanted columns only, each
    one older than the one before it.
   */
  lemma WalkColumns(universe: Rows, s: Store, f: Filter, runs: seq<seq<Action>>, limits: seq<int>, pages: seq<Page>)
    requires Follow(s, f, 0, runs, limits, pages) && Spans(universe, s, runs)
    ensures forall id :: id in Events(pages) ==> id in universe && Wanted(universe[id], f)
    ensures forall i, j :: 0 <= i < j < |Events(pages)| ==>
      var a, b := Events(pages)[i], Events(pages)[j]; a in universe && b in universe && After(universe, a, b)
  {
    FollowDescends(universe, s, f, 0, runs, limits, pages);
    forall i, j | 0 <= i < j < |Events(pages)|
      ensures var a, b := Events(pages)[i], Events(pages)[j]; a in universe && b in universe && After(universe, a, b)
    {
      assert Newer(universe, Events(pages)[i], Events(pages)[j]);
    }
  }

  /**
    With appends and completed prunes between its pages a finished walk has listed, of the events that
    were there throughout, exactly those with the wanted columns.
   */
  lemma FinishedWalkExactly(universe: Rows, s: Store, f: Filter, runs: seq<seq<Action>>, limits: seq<int>,
                            pages: seq<Page>, id: EventId)
    requires Follow(s, f, 0, runs, limits, pages) && Finished(pages) && WholePrunes(runs)
    requires Deduped(s) && Spans(universe, s, runs) && Throughout(s, runs, id)
    ensures id in Events(pages) <==> Wanted(s.rows[id], f)
  {
    WalkColumns(universe, s, f, runs, limits, pages);
    assert Within(s.rows, universe);
    if Wanted(s.rows[id], f) { StoreWalkComplete(universe, s, f, 0, runs, limits, pages, id); }
  }

  // ---------------------------------------------------------------- what the table holds

  const Nothing: Store := Store(map[], 0)

  ghost function At(actions: seq<Action>, n: nat): Store {
    Run(Nothing, if n <= |actions| then actions[..n] else actions)
  }

  lemma AtStep(actions: seq<Action>, n: nat)
    requires n < |actions|
    ensures Deduped(At(actions, n)) && At(actions, n + 1) == Step(At(actions, n), actions[n])
  {
    assert actions[..n + 1] == actions[..n] + [actions[n]];
    RunSnoc(Nothing, actions[..n], actions[n]);
    DedupeInvariant(Nothing, actions[..n]);
  }

  ghost predicate Stored(s: Store, id: EventId, e: Event) { id in s.rows && s.rows[id] == e }

  /** No event of the same cluster and kind has the dedupe key. */
  ghost predicate IsNew(s: Store, e: Event) {
    e.dedupe == None || forall id :: id in s.rows ==>
      s.rows[id].cluster != e.cluster || s.rows[id].kind != e.kind || s.rows[id].dedupe != e.dedupe
  }

  /** The event is appended as the id-th, with the default tenant if it names none. */
  ghost predicate Inserts(s: Store, a: Action, id: EventId, e: Event) {
    && a.DoAppend? && id == s.lastId + 1 && IsNew(s, a.event)
    && e == a.event.(tenant := if a.event.tenant == "" then "default" else a.event.tenant)
  }

  ghost predicate Deletes(s: Store, a: Action, id: EventId, e: Event) {
    || (a.DoPrune? && e.occurredAt < a.cutoff)
    || (a.DoPruneBatch? && id in a.batch && IsBatch(s.rows, OlderThanCutoff(a.cutoff), a.batch))
  }

  lemma StoredStep(s: Store, a: Action, id: EventId, e: Event)
    requires Deduped(s)
    ensures Stored(Step(s, a), id, e) <==> Inserts(s, a, id, e) || (Stored(s, id, e) && !Deletes(s, a, id, e))
  {
  }

  ghost function Inserting(actions: seq<Action>, id: EventId, e: Event): nat -> bool {
    (k: nat) => k < |actions| && Inserts(At(actions, k), actions[k], id, e)
  }

  ghost function Removing(actions: seq<Action>, id: EventId, e: Event): nat -> bool {
    (k: nat) => k < |actions| && Deletes(At(actions, k), actions[k], id, e)
  }

  lemma {:induction false} StoredUpTo(actions: seq<Action>, id: EventId, e: Event, k: nat)
    requires k <= |actions|
    ensures Stored(At(actions, k), id, e) <==> Since(Inserting(actions, id, e), Removing(actions, id, e), k)
    decreases k
  {
    if k == 0 {
      assert actions[..0] == [];
    } else {
      StoredUpTo(actions, id, e, k - 1);
      AtStep(actions, k - 1);
      StoredStep(At(actions, k - 1), actions[k - 1], id, e);
      SinceStep(Inserting(actions, id, e), Removing(actions, id, e), k - 1);
    }
  }

  /**
    Over every run a row is in the table exactly if its event was appended when no event of its
    cluster and kind had its dedupe key, and no prune has taken it since; the pruned rows are expired.
   */
  lemma StoredExactly(actions: seq<Action>, id: EventId, e: Event)
    ensures Stored(Run(Nothing, actions), id, e)
       <==> Since(Inserting(actions, id, e), Removing(actions, id, e), |actions|)
  {
    StoredUpTo(actions, id, e, |actions|);
    assert actions[..|actions|] == actions;
  }

  /** Whatever batch is picked, only expired rows are deleted, and a short one leaves none of them. */
  lemma BatchColumns(s: Store, cutoff: Time, batch: set<EventId>)
    requires IsBatch(s.rows, OlderThanCutoff(cutoff), batch)
    ensures forall id :: id in batch ==> id in s.rows && s.rows[id].occurredAt < cutoff
    ensures |batch| <= 500
    ensures |batch| < 500 ==> forall id :: id in s.rows && s.rows[id].occurredAt < cutoff ==> id in batch
  {
  }
}
