/**
  The operational event timeline: appending with dedupe, cursor pagination over a table that changes
  between pages, and batched pruning. Source: internal/store/sqlite.go.
 */
module Timeline {
  import opened Text
  import opened Fleet
  import opened Pruning
  import opened Sets

  type EventId = nat

  datatype Kind =
    | ClusterRegistered | AgentApproved | HeartbeatStateChange | VersionChanged
    | AgentReconnected | AgentDisconnected | PolicyFinding

  /** Dedupe keys by what they are formatted from; different values format differently. */
  datatype Key = Literal(text: string)
               | TransitionAt(from: Health, to: Health, at: Time)
               | ReasonAt(reason: string, at: Time)

  datatype Detail = NoDetail | FromTo(from: Health, to: Health) | Reason(reason: string)

  datatype Event = Event(tenant: TenantId, cluster: ClusterId, kind: Kind, detail: Detail,
                         occurredAt: Time, dedupe: Option<Key>)

  type Rows = map<EventId, Event>

  /** `lastId` is SQLite's AUTOINCREMENT counter: no id at or below it is ever used again. */
  datatype Store = Store(rows: Rows, lastId: EventId)

  predicate Conflict(rows: Rows, e: Event) {
    e.dedupe.Some? &&
    exists id :: id in rows && rows[id].cluster == e.cluster && rows[id].kind == e.kind && rows[id].dedupe == e.dedupe
  }

  /** AppendEvent; the second component tells whether a row was inserted. */
  function Append(s: Store, e: Event): (Store, bool) {
    if Conflict(s.rows, e) then (s, false)
    else (Store(s.rows[s.lastId + 1 := e.(tenant := NormalizeTenant(e.tenant))], s.lastId + 1), true)
  }

  function OlderThanCutoff(cutoff: Time): Event -> bool { (e: Event) => e.occurredAt < cutoff }

  function Unexpired(rows: Rows, cutoff: Time): Rows { Kept(rows, OlderThanCutoff(cutoff)) }

  // ---------------------------------------------------------------- dedupe over runs

  ghost predicate Deduped(s: Store) {
    && (forall id :: id in s.rows ==> 0 < id <= s.lastId)
    && (forall i, j :: i in s.rows && j in s.rows && i != j && s.rows[i].dedupe.Some? ==>
          !(s.rows[i].cluster == s.rows[j].cluster && s.rows[i].kind == s.rows[j].kind
            && s.rows[i].dedupe == s.rows[j].dedupe))
  }

  /** A prune as a whole, or one statement of it with other requests around it. */
  datatype Action = DoAppend(event: Event) | DoPrune(cutoff: Time) | DoPruneBatch(cutoff: Time, batch: set<EventId>)

  ghost function Step(s: Store, a: Action): Store {
    match a
    case DoAppend(e) => Append(s, e).0
    case DoPrune(cutoff) => s.(rows := Unexpired(s.rows, cutoff))
    case DoPruneBatch(cutoff, batch) =>
      if IsBatch(s.rows, OlderThanCutoff(cutoff), batch) then s.(rows := s.rows - batch) else s
  }

  ghost function Run(s: Store, actions: seq<Action>): Store
    decreases |actions|
  {
    if actions == [] then s else Run(Step(s, actions[0]), actions[1..])
  }

  /** In every reachable table a dedupe key occurs once per cluster and kind. */
  lemma {:induction false} DedupeInvariant(s: Store, actions: seq<Action>)
    requires Deduped(s)
    ensures Deduped(Run(s, actions))
    decreases |actions|
  {
    if actions != [] {
      DedupeInvariant(Step(s, actions[0]), actions[1..]);
    }
  }

  /** Rows are immutable: two states of one run agree on every row they share. */
  lemma {:induction false} RowsAreImmutable(s: Store, actions: seq<Action>, id: EventId)
    requires Deduped(s) && id <= s.lastId
    ensures id in Run(s, actions).rows ==> id in s.rows && Run(s, actions).rows[id] == s.rows[id]
    decreases |actions|
  {
    if actions != [] {
      var t := Step(s, actions[0]);
      assert id in t.rows ==> id in s.rows && t.rows[id] == s.rows[id];
      RowsAreImmutable(t, actions[1..], id);
    }
  }

  // ---------------------------------------------------------------- pages

  const DEFAULT_LIMIT: nat := 50
  const MAX_LIMIT: nat := 500

  function EffectiveLimit(limit: int): (n: nat)
    ensures 1 <= n <= MAX_LIMIT
  {
    if limit <= 0 then DEFAULT_LIMIT else if limit > MAX_LIMIT then MAX_LIMIT else limit
  }

  /** The filter without its cursor and limit. */
  datatype Filter = Filter(tenant: TenantId, cluster: ClusterId, since: Option<Time>, until: Option<Time>)

  predicate Matches(e: Event, f: Filter) {
    && (f.tenant != "" ==> e.tenant == NormalizeTenant(f.tenant))
    && (f.cluster != "" ==> e.cluster == f.cluster)
    && (f.since.Some? ==> e.occurredAt >= f.since.value)
    && (f.until.Some? ==> e.occurredAt < f.until.value)
  }

  /** ORDER BY occurred_at DESC, id DESC: i comes before j. */
  predicate Newer(rows: Rows, i: EventId, j: EventId)
    requires i in rows && j in rows
  {
    rows[i].occurredAt > rows[j].occurredAt || (rows[i].occurredAt == rows[j].occurredAt && i > j)
  }

  /** No cursor, or a cursor row that the lookup finds. */
  predicate CursorFound(rows: Rows, f: Filter, before: EventId) {
    before == 0 || (before in rows && (f.tenant != "" ==> rows[before].tenant == NormalizeTenant(f.tenant)))
  }

  function Candidates(rows: Rows, f: Filter, before: EventId): set<EventId>
    requires before == 0 || before in rows
  {
    set id | id in rows && Matches(rows[id], f) && (before == 0 || Newer(rows, before, id))
  }

  datatype Page = Page(events: seq<EventId>, nextCursor: EventId)

  ghost predicate Descending(rows: Rows, ids: seq<EventId>) {
    && (forall i :: 0 <= i < |ids| ==> ids[i] in rows)
    && (forall i, j :: 0 <= i < j < |ids| ==> Newer(rows, ids[i], ids[j]))
  }

  /** The newest candidates, as many as fit. */
  ghost predicate NewestOf(rows: Rows, candidates: set<EventId>, limit: nat, ids: seq<EventId>) {
    && candidates <= rows.Keys
    && Descending(rows, ids)
    && (forall id :: id in ids ==> id in candidates)
    && |ids| == (if |candidates| < limit then |candidates| else limit)
    && (forall id, d :: id in ids && id in rows && d in candidates && d !in ids ==> Newer(rows, id, d))
  }

  /** What ListTimelineEvents answers. */
  ghost predicate IsPage(rows: Rows, f: Filter, before: EventId, limit: int, page: Page) {
    if !CursorFound(rows, f, before) then page == Page([], 0)
    else
      var candidates := Candidates(rows, f, before);
      var n := EffectiveLimit(limit);
      && NewestOf(rows, candidates, n, page.events)
      && page.nextCursor == (if |candidates| > n && page.events != [] then page.events[|page.events| - 1] else 0)
  }

  // ---------------------------------------------------------------- walks

  /** Rows never change: every table seen is part of one universe of events. */
  ghost predicate Within(rows: Rows, universe: Rows) {
    && 0 !in universe
    && forall id :: id in rows ==> id in universe && rows[id] == universe[id]
  }

  /**
    Following NextCursor with a fixed filter: the limits and the tables are arbitrary from page to
    page, but each cursor row is still there when its cursor is used.
   */
  ghost predicate Walk(universe: Rows, f: Filter, cursor: EventId, tables: seq<Rows>, limits: seq<int>,
                       pages: seq<Page>)
    decreases |pages|
  {
    && |tables| == |limits| == |pages| >= 1
    && Within(tables[0], universe)
    && CursorFound(tables[0], f, cursor)
    && IsPage(tables[0], f, cursor, limits[0], pages[0])
    && (|pages| > 1 ==>
          && pages[0].nextCursor != 0
          && Walk(universe, f, pages[0].nextCursor, tables[1..], limits[1..], pages[1..]))
  }

  function Events(pages: seq<Page>): seq<EventId> {
    if pages == [] then [] else pages[0].events + Events(pages[1..])
  }

  ghost predicate OlderThan(universe: Rows, cursor: EventId, ids: seq<EventId>) {
    forall id :: id in ids ==> id in universe && (cursor == 0 || (cursor in universe && Newer(universe, cursor, id)))
  }

  lemma AppendDescending(universe: Rows, a: seq<EventId>, b: seq<EventId>)
    requires Descending(universe, a) && Descending(universe, b)
    requires a != [] && OlderThan(universe, a[|a| - 1], b) && a[|a| - 1] != 0
    ensures Descending(universe, a + b)
  {
    var ids, last := a + b, a[|a| - 1];
    forall i, j | 0 <= i < j < |ids| ensures Newer(universe, ids[i], ids[j]) {
      if i < |a| <= j {
        assert ids[j] in b;
        assert Newer(universe, last, ids[j]);
      }
    }
  }

  /** What one page of a walk says in terms of the universe. */
  lemma PageInUniverse(universe: Rows, f: Filter, cursor: EventId, rows: Rows, limit: int, page: Page)
    requires Within(rows, universe) && CursorFound(rows, f, cursor) && IsPage(rows, f, cursor, limit, page)
    ensures Descending(universe, page.events) && OlderThan(universe, cursor, page.events)
    ensures forall id :: id in page.events ==> id in rows && Matches(universe[id], f)
    ensures page.nextCursor != 0 ==> page.events != [] && page.nextCursor == page.events[|page.events| - 1]
  {
  }

  /** Every page of a walk continues strictly below the one before it. */
  lemma {:induction false} WalkDescends(universe: Rows, f: Filter, cursor: EventId, tables: seq<Rows>,
                                        limits: seq<int>, pages: seq<Page>)
    requires Walk(universe, f, cursor, tables, limits, pages)
    ensures Descending(universe, Events(pages)) && OlderThan(universe, cursor, Events(pages))
    ensures forall id :: id in Events(pages) ==> Matches(universe[id], f)
    decreases |pages|
  {
    var page := pages[0];
    PageInUniverse(universe, f, cursor, tables[0], limits[0], page);
    if |pages| == 1 {
      assert Events(pages) == page.events + [] == page.events;
    } else {
      WalkDescends(universe, f, page.nextCursor, tables[1..], limits[1..], pages[1..]);
      AppendDescending(universe, page.events, Events(pages[1..]));
    }
  }

  /** Strictly descending lists have no repetitions. */
  lemma DescendingIsDistinct(universe: Rows, ids: seq<EventId>, i: nat, j: nat)
    requires Descending(universe, ids) && i < j < |ids|
    ensures ids[i] != ids[j]
  {
    assert Newer(universe, ids[i], ids[j]);
  }

  function SetOf(ids: seq<EventId>): set<EventId> { set id | id in ids }

  lemma {:induction false} DistinctSetSize(rows: Rows, ids: seq<EventId>)
    requires Descending(rows, ids)
    ensures |SetOf(ids)| == |ids|
    decreases |ids|
  {
    if ids != [] {
      var n := |ids| - 1;
      DistinctSetSize(rows, ids[..n]);
      forall i | 0 <= i < n ensures ids[i] != ids[n] { DescendingIsDistinct(rows, ids, i, n); }
      assert ids[n] !in ids[..n];
      assert ids == ids[..n] + [ids[n]];
      assert SetOf(ids) == SetOf(ids[..n]) + {ids[n]};
    }
  }

  /** A page with room for every candidate shows every candidate. */
  lemma AllShown(rows: Rows, candidates: set<EventId>, limit: nat, ids: seq<EventId>, id: EventId)
    requires NewestOf(rows, candidates, limit, ids) && |candidates| <= limit && id in candidates
    ensures id in ids
  {
    var listed := SetOf(ids);
    DistinctSetSize(rows, ids);
    if id !in listed {
      SubsetSize(listed, candidates - {id});
    }
  }

  /** A candidate that a page leaves out lies below the cursor the page returns. */
  lemma LeftOut(universe: Rows, f: Filter, cursor: EventId, rows: Rows, limit: int, page: Page, id: EventId)
    requires Within(rows, universe) && CursorFound(rows, f, cursor) && IsPage(rows, f, cursor, limit, page)
    requires id in Candidates(rows, f, cursor) && id !in page.events
    ensures page.nextCursor != 0 && page.nextCursor in universe && Newer(universe, page.nextCursor, id)
  {
    var candidates := Candidates(rows, f, cursor);
    if |candidates| <= EffectiveLimit(limit) {
      AllShown(rows, candidates, EffectiveLimit(limit), page.events, id);
    }
    assert page.events != [];
    var last := page.events[|page.events| - 1];
    assert last in page.events && last in rows && Newer(rows, last, id);
  }

  /** A finished walk has returned every matching event that was there throughout. */
  lemma {:induction false} WalkComplete(universe: Rows, f: Filter, cursor: EventId, tables: seq<Rows>, limits: seq<int>,
                     pages: seq<Page>, id: EventId)
    requires Walk(universe, f, cursor, tables, limits, pages)
    requires pages[|pages| - 1].nextCursor == 0
    requires forall i :: 0 <= i < |tables| ==> id in tables[i]
    requires id in universe && Matches(universe[id], f)
    requires cursor == 0 || (cursor in universe && Newer(universe, cursor, id))
    ensures id in Events(pages)
    decreases |pages|
  {
    assert id in Candidates(tables[0], f, cursor);
    if id !in pages[0].events {
      LeftOut(universe, f, cursor, tables[0], limits[0], pages[0], id);
      assert |pages| > 1;
      forall i | 0 <= i < |tables[1..]| ensures id in tables[1..][i] { assert id in tables[i + 1]; }
      WalkComplete(universe, f, pages[0].nextCursor, tables[1..], limits[1..], pages[1..], id);
    }
  }

  // ---------------------------------------------------------------- walks over one fixed table

  function Matching(rows: Rows, f: Filter): set<EventId> { set id | id in rows && Matches(rows[id], f) }

  lemma {:induction false} PagesHoldEvents(universe: Rows, f: Filter, cursor: EventId, tables: seq<Rows>,
                                           limits: seq<int>, pages: seq<Page>)
    requires Walk(universe, f, cursor, tables, limits, pages)
    ensures |pages| - 1 <= |Events(pages)|
    decreases |pages|
  {
    if |pages| > 1 {
      PageInUniverse(universe, f, cursor, tables[0], limits[0], pages[0]);
      PagesHoldEvents(universe, f, pages[0].nextCursor, tables[1..], limits[1..], pages[1..]);
    }
  }

  /**
    On a fixed table a walk of n matching events takes at most n + 1 pages, and a finished walk is
    the whole filtered table in order.
   */
  lemma FixedTableWalk(rows: Rows, f: Filter, tables: seq<Rows>, limits: seq<int>, pages: seq<Page>)
    requires Walk(rows, f, 0, tables, limits, pages)
    requires forall i :: 0 <= i < |tables| ==> tables[i] == rows
    ensures |pages| <= |Matching(rows, f)| + 1
    ensures Descending(rows, Events(pages))
    ensures pages[|pages| - 1].nextCursor == 0 ==> SetOf(Events(pages)) == Matching(rows, f)
  {
    WalkDescends(rows, f, 0, tables, limits, pages);
    PagesHoldEvents(rows, f, 0, tables, limits, pages);
    DistinctSetSize(rows, Events(pages));
    SubsetSize(SetOf(Events(pages)), Matching(rows, f));
    if pages[|pages| - 1].nextCursor == 0 {
      forall id | id in Matching(rows, f) ensures id in Events(pages) {
        WalkComplete(rows, f, 0, tables, limits, pages, id);
      }
    }
  }

  /** Order and contents determine the list: there is only one such walk result. */
  lemma {:induction false} DescendingIsUnique(rows: Rows, a: seq<EventId>, b: seq<EventId>)
    requires Descending(rows, a) && Descending(rows, b) && SetOf(a) == SetOf(b)
    ensures a == b
    decreases |a|
  {
    DistinctSetSize(rows, a);
    DistinctSetSize(rows, b);
    if a != [] {
      assert a[0] in SetOf(b) && b[0] in SetOf(a);
      assert a[0] == b[0];
      TailSet(rows, a);
      TailSet(rows, b);
      DescendingIsUnique(rows, a[1..], b[1..]);
      assert a == [a[0]] + a[1..] && b == [b[0]] + b[1..];
    }
  }

  lemma TailSet(rows: Rows, a: seq<EventId>)
    requires Descending(rows, a) && a != []
    ensures SetOf(a[1..]) == SetOf(a) - {a[0]}
  {
    assert a == [a[0]] + a[1..];
    forall j | 0 < j < |a| ensures a[j] != a[0] { DescendingIsDistinct(rows, a, 0, j); }
  }

  // ---------------------------------------------------------------- walks over the store's own runs

  /** One store is a later state of the other: rows that both have are the same, new ids are fresh. */
  ghost predicate Later(s: Store, t: Store) {
    && s.lastId <= t.lastId
    && (forall id :: id in t.rows && id <= s.lastId ==> id in s.rows && t.rows[id] == s.rows[id])
  }

  lemma {:induction false} RunIsLater(s: Store, actions: seq<Action>)
    requires Deduped(s)
    ensures Deduped(Run(s, actions)) && Later(s, Run(s, actions))
    decreases |actions|
  {
    if actions != [] { RunIsLater(Step(s, actions[0]), actions[1..]); }
  }

  /** The store after several runs, one after the other. */
  ghost function Last(s: Store, runs: seq<seq<Action>>): Store
    decreases |runs|
  {
    if runs == [] then s else Last(Run(s, runs[0]), runs[1..])
  }

  lemma {:induction false} LastIsLater(s: Store, runs: seq<seq<Action>>)
    requires Deduped(s)
    ensures Deduped(Last(s, runs)) && Later(s, Last(s, runs))
    decreases |runs|
  {
    if runs != [] {
      RunIsLater(s, runs[0]);
      LastIsLater(Run(s, runs[0]), runs[1..]);
    }
  }

  /** A client's walk while the store runs: `runs[i]` is what happens between page i and the next. */
  ghost predicate Follow(s: Store, f: Filter, cursor: EventId, runs: seq<seq<Action>>, limits: seq<int>,
                         pages: seq<Page>)
    decreases |pages|
  {
    && |runs| + 1 == |limits| == |pages|
    && IsPage(s.rows, f, cursor, limits[0], pages[0])
    && (|pages| > 1 ==>
          && pages[0].nextCursor != 0
          && Follow(Run(s, runs[0]), f, pages[0].nextCursor, runs[1..], limits[1..], pages[1..]))
  }

  ghost predicate Finished(pages: seq<Page>) { pages != [] && pages[|pages| - 1].nextCursor == 0 }

  /** `id` is in the first table and in the last, and so, ids being fresh, in all between. */
  ghost predicate Throughout(s: Store, runs: seq<seq<Action>>, id: EventId) { id in s.rows && id in Last(s, runs).rows }

  /** The universe holds every row of every table that a page is read from. */
  ghost predicate Spans(universe: Rows, s: Store, runs: seq<seq<Action>>)
    decreases |runs|
  {
    Within(s.rows, universe) && (runs != [] ==> Spans(universe, Run(s, runs[0]), runs[1..]))
  }

  lemma {:induction false} SpansMore(universe: Rows, more: Rows, s: Store, runs: seq<seq<Action>>)
    requires Spans(universe, s, runs) && Within(universe, more)
    ensures Spans(more, s, runs)
    decreases |runs|
  {
    if runs != [] { SpansMore(universe, more, Run(s, runs[0]), runs[1..]); }
  }

  lemma {:induction false} UniverseExists(s: Store, runs: seq<seq<Action>>) returns (universe: Rows)
    requires Deduped(s)
    ensures Spans(universe, s, runs)
    ensures forall id :: id in universe && id <= s.lastId ==> id in s.rows
    decreases |runs|
  {
    universe := s.rows;
    if runs != [] {
      var t := Run(s, runs[0]);
      RunIsLater(s, runs[0]);
      var rest := UniverseExists(t, runs[1..]);
      universe := rest + s.rows;
      assert Within(t.rows, rest);
      forall id | id in rest && id in s.rows ensures rest[id] == s.rows[id] { assert id in t.rows; }
      SpansMore(rest, universe, t, runs[1..]);
    }
  }

  /** `id` matches and lies below the cursor. */
  ghost predicate Below(universe: Rows, f: Filter, cursor: EventId, id: EventId) {
    id in universe && Matches(universe[id], f) && (cursor == 0 || (cursor in universe && Newer(universe, cursor, id)))
  }

  /** Whatever happens between the pages, and even when a cursor is lost, the walk descends. */
  lemma {:induction false} FollowDescends(universe: Rows, s: Store, f: Filter, cursor: EventId, runs: seq<seq<Action>>,
                         limits: seq<int>, pages: seq<Page>)
    requires Follow(s, f, cursor, runs, limits, pages) && Spans(universe, s, runs)
    ensures Descending(universe, Events(pages)) && OlderThan(universe, cursor, Events(pages))
    ensures forall id :: id in Events(pages) ==> Matches(universe[id], f)
    decreases |pages|
  {
    var page := pages[0];
    if CursorFound(s.rows, f, cursor) { PageInUniverse(universe, f, cursor, s.rows, limits[0], page); }
    if |pages| == 1 {
      assert Events(pages) == page.events + [] == page.events;
    } else {
      FollowDescends(universe, Run(s, runs[0]), f, page.nextCursor, runs[1..], limits[1..], pages[1..]);
      AppendDescending(universe, page.events, Events(pages[1..]));
    }
  }

  /** Without single batches a cursor row outlives every older row that survives. */
  lemma {:induction false} CursorOutlives(s: Store, actions: seq<Action>, cursor: EventId, id: EventId)
    requires Deduped(s) && forall i :: 0 <= i < |actions| ==> !actions[i].DoPruneBatch?
    requires cursor in s.rows && id in s.rows && Newer(s.rows, cursor, id) && id in Run(s, actions).rows
    ensures cursor in Run(s, actions).rows
    decreases |actions|
  {
    if actions != [] {
      var t := Step(s, actions[0]);
      RunIsLater(t, actions[1..]);
      CursorOutlives(t, actions[1..], cursor, id);
    }
  }

  ghost predicate WholePrunes(runs: seq<seq<Action>>) {
    forall i, j :: 0 <= i < |runs| && 0 <= j < |runs[i]| ==> !runs[i][j].DoPruneBatch?
  }

  /**
    With appends and whole prunes between its pages a finished walk has returned every matching event
    that was there throughout: cursors may be pruned, but none that still has such an event below it.
   */
  lemma {:induction false} StoreWalkComplete(universe: Rows, s: Store, f: Filter, cursor: EventId,
                                             runs: seq<seq<Action>>, limits: seq<int>, pages: seq<Page>, id: EventId)
    requires Follow(s, f, cursor, runs, limits, pages) && Finished(pages) && WholePrunes(runs)
    requires Deduped(s) && Spans(universe, s, runs) && CursorFound(s.rows, f, cursor)
    requires Throughout(s, runs, id) && Below(universe, f, cursor, id)
    ensures id in Events(pages)
    decreases |pages|
  {
    assert id in Candidates(s.rows, f, cursor);
    if id !in pages[0].events {
      LeftOut(universe, f, cursor, s.rows, limits[0], pages[0], id);
      var t, next := Run(s, runs[0]), pages[0].nextCursor;
      RunIsLater(s, runs[0]);
      LastIsLater(t, runs[1..]);
      forall j | 0 <= j < |runs[0]| ensures !runs[0][j].DoPruneBatch? { assert !runs[0][j].DoPruneBatch?; }
      CursorOutlives(s, runs[0], next, id);
      PageInUniverse(universe, f, cursor, s.rows, limits[0], pages[0]);
      assert next in pages[0].events && Matches(t.rows[next], f);
      forall i, j | 0 <= i < |runs[1..]| && 0 <= j < |runs[1..][i]| ensures !runs[1..][i][j].DoPruneBatch? {
        assert !runs[i + 1][j].DoPruneBatch?;
      }
      StoreWalkComplete(universe, t, f, next, runs[1..], limits[1..], pages[1..], id);
    }
  }

  // ---------------------------------------------------------------- lost cursors

  /**
    A completed prune that removes a cursor row leaves nothing below it, so the empty page that the
    cursor then gets is the right answer.
   */
  lemma CompletedPruneLosesNothing(rows: Rows, cutoff: Time, f: Filter, cursor: EventId, limit: int, page: Page)
    requires 0 !in rows && cursor in rows && cursor !in Unexpired(rows, cutoff)
    requires IsPage(Unexpired(rows, cutoff), f, cursor, limit, page)
    ensures page == Page([], 0)
    ensures forall id :: id in Unexpired(rows, cutoff) ==> !Newer(rows, cursor, id)
  {
  }

  function LastCursor(cursor: EventId, pages: seq<Page>): EventId {
    if |pages| <= 1 then cursor else pages[|pages| - 2].nextCursor
  }

  lemma {:induction false} EventsSnoc(pages: seq<Page>)
    requires pages != []
    ensures Events(pages) == Events(pages[..|pages| - 1]) + pages[|pages| - 1].events
    decreases |pages|
  {
    if |pages| > 1 {
      var n := |pages| - 1;
      EventsSnoc(pages[1..]);
      assert pages[1..][..n - 1] == pages[..n][1..];
      ConcatAssoc(pages[0].events, Events(pages[..n][1..]), pages[n].events);
    }
  }

  /**
    Whatever happens between the pages: an event that stays is listed before the last page or lies
    below its cursor.
   */
  lemma {:induction false} ListedOrBelow(universe: Rows, s: Store, f: Filter, cursor: EventId, runs: seq<seq<Action>>,
                        limits: seq<int>, pages: seq<Page>, id: EventId)
    requires Follow(s, f, cursor, runs, limits, pages) && Deduped(s) && Spans(universe, s, runs)
    requires Throughout(s, runs, id) && Below(universe, f, cursor, id)
    ensures id in Events(pages[..|pages| - 1]) || Below(universe, f, LastCursor(cursor, pages), id)
    decreases |pages|
  {
    if |pages| > 1 {
      var n := |pages| - 1;
      var t, next := Run(s, runs[0]), pages[0].nextCursor;
      assert pages[..n][1..] == pages[1..][..n - 1];
      if id !in pages[0].events {
        assert id in Candidates(s.rows, f, cursor);
        LeftOut(universe, f, cursor, s.rows, limits[0], pages[0], id);
        RunIsLater(s, runs[0]);
        LastIsLater(t, runs[1..]);
        ListedOrBelow(universe, t, f, next, runs[1..], limits[1..], pages[1..], id);
      }
    }
  }

  lemma LastTable(universe: Rows, s: Store, runs: seq<seq<Action>>)
    requires Spans(universe, s, runs)
    ensures Within(Last(s, runs).rows, universe)
    decreases |runs|
  {
    if runs != [] { LastTable(universe, Run(s, runs[0]), runs[1..]); }
  }

  lemma {:induction false} LastPage(s: Store, f: Filter, cursor: EventId, runs: seq<seq<Action>>, limits: seq<int>,
                                    pages: seq<Page>)
    requires Follow(s, f, cursor, runs, limits, pages)
    ensures IsPage(Last(s, runs).rows, f, LastCursor(cursor, pages), limits[|limits| - 1], pages[|pages| - 1])
    decreases |pages|
  {
    if |pages| > 1 {
      LastPage(Run(s, runs[0]), f, pages[0].nextCursor, runs[1..], limits[1..], pages[1..]);
    }
  }

  lemma EventsFront(pages: seq<Page>, n: nat)
    requires 0 < n <= |pages|
    ensures Events(pages[..n]) == pages[0].events + Events(pages[1..][..n - 1])
  {
    assert pages[..n][1..] == pages[1..][..n - 1];
  }

  /** The last cursor is the last event listed before the last page. */
  lemma {:induction false} LastCursorListed(universe: Rows, s: Store, f: Filter, cursor: EventId,
                                            runs: seq<seq<Action>>, limits: seq<int>, pages: seq<Page>)
    requires Follow(s, f, cursor, runs, limits, pages) && Spans(universe, s, runs) && |pages| > 1
    ensures var listed := Events(pages[..|pages| - 1]);
      listed != [] && listed[|listed| - 1] == LastCursor(cursor, pages)
    decreases |pages|
  {
    var n := |pages| - 1;
    EventsFront(pages, n);
    PageInUniverse(universe, f, cursor, s.rows, limits[0], pages[0]);
    if n == 1 {
      assert Events(pages[1..][..0]) == [];
    } else {
      LastCursorListed(universe, Run(s, runs[0]), f, pages[0].nextCursor, runs[1..], limits[1..], pages[1..]);
    }
  }

  /** What is listed before the last page is at or above the last cursor. */
  lemma ListedIsAbove(universe: Rows, s: Store, f: Filter, cursor: EventId, runs: seq<seq<Action>>, limits: seq<int>,
                      pages: seq<Page>, id: EventId)
    requires Follow(s, f, cursor, runs, limits, pages) && Spans(universe, s, runs) && |pages| > 1
    requires id in Events(pages[..|pages| - 1])
    ensures !Below(universe, f, LastCursor(cursor, pages), id)
  {
    var listed := Events(pages[..|pages| - 1]);
    EventsSnoc(pages);
    FollowDescends(universe, s, f, cursor, runs, limits, pages);
    LastCursorListed(universe, s, f, cursor, runs, limits, pages);
    var i :| 0 <= i < |listed| && listed[i] == id;
    assert Events(pages)[i] == id && Events(pages)[|listed| - 1] == LastCursor(cursor, pages);
  }

  /**
    Whatever happens between the pages, single batches of a prune included: a finished walk has
    returned every matching event that was there throughout if and only if its last cursor row was
    still found or no such event lies below that row.
   */
  lemma LostCursor(universe: Rows, s: Store, f: Filter, cursor: EventId, runs: seq<seq<Action>>, limits: seq<int>,
                   pages: seq<Page>)
    requires Follow(s, f, cursor, runs, limits, pages) && Finished(pages)
    requires Deduped(s) && Spans(universe, s, runs) && CursorFound(s.rows, f, cursor)
    ensures (forall id :: Throughout(s, runs, id) && Below(universe, f, cursor, id) ==> id in Events(pages))
       <==> (CursorFound(Last(s, runs).rows, f, LastCursor(cursor, pages))
             || !exists id :: Throughout(s, runs, id) && Below(universe, f, LastCursor(cursor, pages), id))
  {
    var table, last := Last(s, runs).rows, LastCursor(cursor, pages);
    LastTable(universe, s, runs);
    LastPage(s, f, cursor, runs, limits, pages);
    EventsSnoc(pages);
    if CursorFound(table, f, last) {
      forall id | Throughout(s, runs, id) && Below(universe, f, cursor, id) ensures id in Events(pages) {
        ListedOrBelow(universe, s, f, cursor, runs, limits, pages, id);
        FoundLists(universe, table, f, last, limits[|limits| - 1], pages[|pages| - 1], id);
      }
    } else {
      forall id | Throughout(s, runs, id) && Below(universe, f, last, id)
        ensures Below(universe, f, cursor, id) && id !in Events(pages)
      {
        LostIsUnlisted(universe, s, f, cursor, runs, limits, pages, id);
      }
      forall id | Throughout(s, runs, id) && Below(universe, f, cursor, id)
        ensures id in Events(pages) || Below(universe, f, last, id)
      {
        ListedOrBelow(universe, s, f, cursor, runs, limits, pages, id);
      }
    }
  }

  /** The last page of a walk whose cursor is found lists everything below it. */
  lemma FoundLists(universe: Rows, rows: Rows, f: Filter, cursor: EventId, limit: int, page: Page, id: EventId)
    requires Within(rows, universe) && CursorFound(rows, f, cursor) && IsPage(rows, f, cursor, limit, page)
    requires page.nextCursor == 0 && id in rows
    ensures Below(universe, f, cursor, id) ==> id in page.events
  {
    if Below(universe, f, cursor, id) && id !in page.events {
      assert id in Candidates(rows, f, cursor);
      LeftOut(universe, f, cursor, rows, limit, page, id);
    }
  }

  lemma LostIsUnlisted(universe: Rows, s: Store, f: Filter, cursor: EventId, runs: seq<seq<Action>>, limits: seq<int>,
                       pages: seq<Page>, id: EventId)
    requires Follow(s, f, cursor, runs, limits, pages) && Spans(universe, s, runs) && CursorFound(s.rows, f, cursor)
    requires !CursorFound(Last(s, runs).rows, f, LastCursor(cursor, pages))
    requires Below(universe, f, LastCursor(cursor, pages), id)
    ensures Below(universe, f, cursor, id) && id !in Events(pages)
  {
    var last := LastCursor(cursor, pages);
    LastPage(s, f, cursor, runs, limits, pages);
    EventsSnoc(pages);
    assert |pages| > 1;
    FollowDescends(universe, s, f, cursor, runs, limits, pages);
    LastCursorListed(universe, s, f, cursor, runs, limits, pages);
    assert last in Events(pages);
    if id in Events(pages[..|pages| - 1]) { ListedIsAbove(universe, s, f, cursor, runs, limits, pages, id); }
  }

  // ---------------------------------------------------------------- a row lost to a half-done prune

  const PLAIN: Event := Event("default", "c", VersionChanged, NoDetail, 0, None)

  /** A table of n equal events with the ids 1 to n. */
  function Plain(n: nat): Rows { map id | id in Ids(1, n) :: PLAIN }

  function Ids(low: nat, high: nat): (ids: set<EventId>)
    ensures forall id :: id in ids <==> low <= id <= high
    decreases high + 1 - low
  {
    if low > high then {} else {low} + Ids(low + 1, high)
  }

  function Appends(n: nat): seq<Action> { if n == 0 then [] else Appends(n - 1) + [DoAppend(PLAIN)] }

  lemma {:induction false} RunSnoc(s: Store, actions: seq<Action>, a: Action)
    ensures Run(s, actions + [a]) == Step(Run(s, actions), a)
    decreases |actions|
  {
    if actions == [] {
      assert [] + [a] == [a] && [a][1..] == [];
    } else {
      assert (actions + [a])[1..] == actions[1..] + [a];
      RunSnoc(Step(s, actions[0]), actions[1..], a);
    }
  }

  lemma {:induction false} PlainIsReached(n: nat)
    ensures Run(Store(map[], 0), Appends(n)) == Store(Plain(n), n)
  {
    if n == 0 {
      assert Plain(0) == map[];
    } else {
      PlainIsReached(n - 1);
      RunSnoc(Store(map[], 0), Appends(n - 1), DoAppend(PLAIN));
      assert Plain(n) == Plain(n - 1)[n := PLAIN];
    }
  }

  lemma {:induction false} IdsSize(low: nat, high: nat)
    requires low <= high + 1
    ensures |Ids(low, high)| == high + 1 - low
    decreases high + 1 - low
  {
    if low <= high {
      IdsSize(low + 1, high);
    }
  }

  const EVERYTHING: Filter := Filter("", "", None, None)

  lemma NewestPlain(n: nat)
    requires n > 1
    ensures IsPage(Plain(n), EVERYTHING, 0, 1, Page([n], n))
  {
    var candidates := Candidates(Plain(n), EVERYTHING, 0);
    assert candidates == Ids(1, n);
    IdsSize(1, n);
  }

  /** One batch takes all of n equal expired events but the oldest. */
  lemma BatchTakesNewest(n: nat)
    requires n == PRUNE_BATCH + 1
    ensures Run(Store(Plain(n), n), [DoPruneBatch(1, Ids(2, n))]) == Store(Plain(1), n)
  {
    var s, a := Store(Plain(n), n), DoPruneBatch(1, Ids(2, n));
    IdsSize(2, n);
    assert IsBatch(s.rows, OlderThanCutoff(1), Ids(2, n));
    assert Step(s, a).rows == Plain(1);
    assert [a][1..] == [];
  }

  lemma TwoPages(s: Store, t: Store, run: seq<Action>, n: nat)
    requires n > 1 && s == Store(Plain(n), n) && t == Store(Plain(1), n) && Run(s, run) == t
    ensures var runs, pages := [run], [Page([n], n), Page([], 0)];
      Follow(s, EVERYTHING, 0, runs, [1, 1], pages) && Last(s, runs) == t && Events(pages) == [n]
  {
    var runs, pages := [run], [Page([n], n), Page([], 0)];
    NewestPlain(n);
    assert runs[1..] == [] && pages[1..] == [Page([], 0)] && [1, 1][1..] == [1];
    assert Follow(t, EVERYTHING, n, [], [1], [Page([], 0)]);
    assert Events([Page([], 0)]) == [] + Events([]);
  }

  /**
    A reachable walk that misses a row: of one expired event more than a batch holds, the first batch
    takes all but the oldest, the cursor row among them, before the client asks for its second page.
   */
  lemma HalfDonePruneLosesRow(n: nat)
    requires n == PRUNE_BATCH + 1
    ensures var s := Run(Store(map[], 0), Appends(n));
      var runs, pages := [[DoPruneBatch(1, Ids(2, n))]], [Page([n], n), Page([], 0)];
      && Follow(s, EVERYTHING, 0, runs, [1, 1], pages) && Finished(pages)
      && Throughout(s, runs, 1) && Matches(s.rows[1], EVERYTHING)
      && 1 !in Events(pages)
  {
    PlainIsReached(n);
    BatchTakesNewest(n);
    TwoPages(Store(Plain(n), n), Store(Plain(1), n), [DoPruneBatch(1, Ids(2, n))], n);
  }

  // ---------------------------------------------------------------- the store's methods

  class EventStore {
    var rows: Rows
    var lastId: EventId

    ghost predicate Valid() reads this { Deduped(Store(rows, lastId)) }

    constructor ()
      ensures Valid() && rows == map[]
    {
      rows, lastId := map[], 0;
    }

    method AppendEvent(e: Event) returns (inserted: bool)
      requires Valid()
      modifies this
      ensures Valid()
      ensures (Store(rows, lastId), inserted) == Append(Store(old(rows), old(lastId)), e)
    {
      if Conflict(rows, e) { return false; }
      lastId := lastId + 1;
      rows := rows[lastId := e.(tenant := NormalizeTenant(e.tenant))];
      inserted := true;
    }

    /** The newest row of a non-empty set. */
    method Newest(candidates: set<EventId>) returns (newest: EventId)
      requires candidates != {} && candidates <= rows.Keys
      ensures newest in candidates
      ensures forall id :: id in candidates && id != newest ==> Newer(rows, newest, id)
    {
      newest :| newest in candidates;
      var rest := candidates - {newest};
      while rest != {}
        invariant newest in candidates && rest <= candidates
        invariant forall id :: id in candidates && id !in rest && id != newest ==> Newer(rows, newest, id)
        decreases rest
      {
        var id :| id in rest;
        rest := rest - {id};
        if Newer(rows, id, newest) { newest := id; }
      }
    }

    /** ORDER BY ... LIMIT: the newest rows of a set. */
    method TakeNewest(candidates: set<EventId>, limit: nat) returns (ids: seq<EventId>)
      requires candidates <= rows.Keys
      ensures NewestOf(rows, candidates, limit, ids)
    {
      ids := [];
      var rest := candidates;
      while rest != {} && |ids| < limit
        invariant Descending(rows, ids) && rest <= candidates && |ids| <= limit
        invariant forall id :: id in ids <==> id in candidates && id !in rest
        invariant |ids| + |rest| == |candidates|
        invariant forall id, d :: id in ids && id in rows && d in rest ==> Newer(rows, id, d)
        decreases rest
      {
        var id := Newest(rest);
        forall i | 0 <= i < |ids| ensures Newer(rows, ids[i], id) { assert ids[i] in ids; }
        rest := rest - {id};
        ids := ids + [id];
      }
    }

    method ListTimelineEvents(f: Filter, before: EventId, limit: int) returns (page: Page)
      requires Valid()
      ensures IsPage(rows, f, before, limit, page)
      ensures forall id :: id in page.events ==>
        && id in rows && (f.tenant == "" || rows[id].tenant == f.tenant)
        && (f.cluster == "" || rows[id].cluster == f.cluster)
        && (f.since == None || f.since.value <= rows[id].occurredAt)
        && (f.until == None || rows[id].occurredAt < f.until.value)
    {
      var n := EffectiveLimit(limit);
      if before > 0 {
        if before !in rows || (f.tenant != "" && rows[before].tenant != NormalizeTenant(f.tenant)) {
          return Page([], 0);
        }
      }
      var candidates := Candidates(rows, f, before);
      var events := TakeNewest(candidates, n + 1);
      var nextCursor: EventId := 0;
      if |events| > n {
        TruncateNewest(rows, candidates, n, events);
        events := events[..n];
        nextCursor := events[n - 1];
      } else {
        WholeNewest(rows, candidates, n, events);
      }
      page := Page(events, nextCursor);
    }

    /** Other requests append their events, one after the other. */
    method AppendAll(events: seq<Event>) returns (ghost trace: seq<Action>)
      requires Valid()
      modifies this
      ensures Valid() && Store(rows, lastId) == Run(Store(old(rows), old(lastId)), trace)
      ensures forall i :: 0 <= i < |trace| ==> trace[i].DoAppend?
      ensures |rows| - |old(rows)| == lastId - old(lastId)
    {
      trace := [];
      for i := 0 to |events|
        invariant Valid() && Store(rows, lastId) == Run(Store(old(rows), old(lastId)), trace)
        invariant forall i :: 0 <= i < |trace| ==> trace[i].DoAppend?
        invariant |rows| - |old(rows)| == lastId - old(lastId)
      {
        RunSnoc(Store(old(rows), old(lastId)), trace, DoAppend(events[i]));
        var _ := AppendEvent(events[i]);
        trace := trace + [DoAppend(events[i])];
      }
    }

    /** One DELETE of the pruning loop. */
    method DeleteBatch(cutoff: Time) returns (removed: nat, ghost batch: set<EventId>)
      requires Valid()
      modifies this`rows
      ensures Valid() && IsBatch(old(rows), OlderThanCutoff(cutoff), batch)
      ensures Store(rows, lastId) == Step(Store(old(rows), lastId), DoPruneBatch(cutoff, batch))
      ensures removed == |batch| == |old(rows)| - |rows|
      ensures removed < PRUNE_BATCH ==> forall id :: id in rows ==> rows[id].occurredAt >= cutoff
    {
      var picked := PickExpired(rows, OlderThanCutoff(cutoff));
      RemoveBatch(rows, rows, OlderThanCutoff(cutoff), picked);
      rows := rows - picked;
      removed, batch := |picked|, picked;
    }

    /**
      PruneEventsBefore. `fails` says which statements the database refuses, `others` what other
      requests append before each statement; the count is the number of rows removed also when a
      later batch fails.
     */
    method PruneEventsBefore(cutoff: Time, fails: nat -> bool, others: seq<seq<Event>>)
      returns (removed: nat, ok: bool, ghost trace: seq<Action>)
      requires Valid()
      modifies this
      ensures Valid() && Pruned(Store(old(rows), old(lastId)), Store(rows, lastId), trace, cutoff, removed)
      ensures ok ==> forall id :: id in rows ==> rows[id].occurredAt >= cutoff
      ensures (forall n: nat :: !fails(n)) ==> ok
      ensures fails(0) ==> !ok && removed == 0
    {
      removed, ok, trace := 0, false, [];
      ghost var start := Store(rows, lastId);
      var statement: nat := 0;
      while true
        invariant Valid() && Pruned(start, Store(rows, lastId), trace, cutoff, removed)
        invariant statement == 0 ==> removed == 0
        invariant statement > 0 ==> !fails(0)
        decreases if statement < |others| then |others| - statement else 0, |rows|
      {
        if statement < |others| {
          ghost var before := Store(rows, lastId);
          ghost var appends := AppendAll(others[statement]);
          PrunedMore(start, before, Store(rows, lastId), trace, appends, cutoff, removed, 0);
          trace := trace + appends;
        }
        if fails(statement) { break; }
        statement := statement + 1;
        ghost var before := Store(rows, lastId);
        var n;
        ghost var batch;
        n, batch := DeleteBatch(cutoff);
        RunSnoc(before, [], DoPruneBatch(cutoff, batch));
        PrunedMore(start, before, Store(rows, lastId), trace, [DoPruneBatch(cutoff, batch)], cutoff, removed, n);
        trace := trace + [DoPruneBatch(cutoff, batch)];
        removed := removed + n;
        if n < PRUNE_BATCH {
          ok := true;
          break;
        }
      }
    }
  }

  /** Appends, and batches of one prune. */
  ghost predicate PruningTrace(trace: seq<Action>, cutoff: Time) {
    forall i :: 0 <= i < |trace| ==> trace[i].DoAppend? || (trace[i].DoPruneBatch? && trace[i].cutoff == cutoff)
  }

  /** The trace leads from one store to the other, and so many rows were removed on the way. */
  ghost predicate Pruned(s: Store, t: Store, trace: seq<Action>, cutoff: Time, removed: int) {
    t == Run(s, trace) && PruningTrace(trace, cutoff) && removed == |s.rows| + (t.lastId - s.lastId) - |t.rows|
  }

  lemma PrunedMore(s: Store, t: Store, u: Store, trace: seq<Action>, more: seq<Action>, cutoff: Time, removed: int,
                   n: int)
    requires Pruned(s, t, trace, cutoff, removed) && PruningTrace(more, cutoff) && u == Run(t, more)
    requires n == |t.rows| + (u.lastId - t.lastId) - |u.rows|
    ensures Pruned(s, u, trace + more, cutoff, removed + n)
  {
    RunJoins(s, trace, more);
  }

  lemma {:induction false} RunJoins(s: Store, a: seq<Action>, b: seq<Action>)
    ensures Run(s, a + b) == Run(Run(s, a), b)
    decreases |a|
  {
    if a == [] {
      assert a + b == b;
    } else {
      assert (a + b)[1..] == a[1..] + b;
      RunJoins(Step(s, a[0]), a[1..], b);
    }
  }

  /** Appends and batches with one cutoff take away expired rows only. */
  lemma {:induction false} PruningRun(s: Store, trace: seq<Action>, cutoff: Time, id: EventId)
    requires Deduped(s) && id <= s.lastId
    requires PruningTrace(trace, cutoff)
    ensures id in s.rows && s.rows[id].occurredAt >= cutoff ==> id in Run(s, trace).rows
    ensures id in Run(s, trace).rows ==> id in s.rows && Run(s, trace).rows[id] == s.rows[id]
    decreases |trace|
  {
    RowsAreImmutable(s, trace, id);
    if trace != [] { PruningRun(Step(s, trace[0]), trace[1..], cutoff, id); }
  }

  /**
    What a successful PruneEventsBefore leaves: of the rows that were there when it began exactly the
    unexpired ones, whatever other requests appended in between.
   */
  lemma PruneLeavesUnexpired(s: Store, trace: seq<Action>, cutoff: Time)
    requires Deduped(s)
    requires PruningTrace(trace, cutoff)
    requires forall id :: id in Run(s, trace).rows ==> Run(s, trace).rows[id].occurredAt >= cutoff
    ensures forall id :: id <= s.lastId ==>
      (id in Run(s, trace).rows <==> id in Unexpired(s.rows, cutoff))
      && (id in Run(s, trace).rows ==> Run(s, trace).rows[id] == s.rows[id])
    ensures Run(s, trace).lastId == s.lastId ==> Run(s, trace).rows == Unexpired(s.rows, cutoff)
  {
    forall id: EventId | id <= s.lastId
      ensures (id in Run(s, trace).rows <==> id in Unexpired(s.rows, cutoff))
              && (id in Run(s, trace).rows ==> Run(s, trace).rows[id] == s.rows[id])
    {
      PruningRun(s, trace, cutoff, id);
    }
    RunIsLater(s, trace);
  }

  lemma TruncateNewest(rows: Rows, candidates: set<EventId>, n: nat, events: seq<EventId>)
    requires NewestOf(rows, candidates, n + 1, events) && |events| > n
    ensures NewestOf(rows, candidates, n, events[..n]) && |candidates| > n
  {
    forall id, d | id in events[..n] && id in rows && d in candidates && d !in events[..n] ensures Newer(rows, id, d) {
      if d in events {
        assert d == events[n];
      }
    }
  }

  lemma WholeNewest(rows: Rows, candidates: set<EventId>, n: nat, events: seq<EventId>)
    requires NewestOf(rows, candidates, n + 1, events) && |events| <= n
    ensures NewestOf(rows, candidates, n, events) && |candidates| <= n
  {
  }
}
