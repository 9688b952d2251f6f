/**
  What pruning leaves of the recorded histories: nothing broken after whole prunes, and exactly when a
  half-done prune leaves a gap. Sources: internal/server/events.go, internal/store/sqlite.go.
 */
module HistoryGaps {
  import opened Text
  import opened Fleet
  import opened Pruning
  import opened Timeline
  import opened HealthHistory

  // ---------------------------------------------------------------- whole prunes

  /** What is left of a history has no gap and ends at the present. */
  ghost predicate Continuous(view: View, h: seq<Event>, to: Mark) {
    && (h != [] ==> ToMark(view, h[|h| - 1]) == to)
    && forall i :: 0 <= i < |h| - 1 ==> ToMark(view, h[i]) == FromMark(view, h[i + 1])
  }

  /**
    Over every run at increasing times with whole prunes in between, what is left of the changes and
    of the outages of a cluster is unbroken and ends at its current health.
   */
  lemma PrunedRunHistories(steps: seq<Timed>, id: ClusterId, view: View)
    requires Serial(steps) && id in HealthHistory.Run(HealthHistory.Empty, steps).clusters
    ensures var f := HealthHistory.Run(HealthHistory.Empty, steps);
      Continuous(view, History(f.events.rows, f.events.lastId, view, id), MarkOf(view, f.clusters[id].health))
  {
    var f := HealthHistory.Run(HealthHistory.Empty, steps);
    HealthHistory.RunKeeps(steps, if steps == [] then 0 else steps[|steps| - 1].at + 1);
    assert Links(f, view, id);
    var from :| Tells(f, view, id, from);
    ChainedPairs(view, History(f.events.rows, f.events.lastId, view, id), from, MarkOf(view, f.clusters[id].health));
  }

  // ---------------------------------------------------------------- gaps

  function Kept(h: seq<Event>, keep: seq<bool>): seq<Event>
    requires |h| == |keep|
  {
    if h == [] then []
    else
      var n := |h| - 1;
      if keep[n] then Kept(h[..n], keep[..n]) + [h[n]] else Kept(h[..n], keep[..n])
  }

  /**
    The events p to q are gone, and they are all that is gone between two that are kept, or after
    the last one kept.
   */
  ghost predicate IsGap(keep: seq<bool>, p: nat, q: nat) {
    && 0 < p <= q < |keep| && keep[p - 1]
    && (forall i :: p <= i <= q ==> !keep[i])
    && (q + 1 < |keep| ==> keep[q + 1])
  }

  /** Every gap leads back to where it starts. */
  ghost predicate GapsClose(view: View, h: seq<Event>, keep: seq<bool>)
    requires |h| == |keep|
  {
    forall p: nat, q: nat :: IsGap(keep, p, q) ==> FromMark(view, h[p]) == ToMark(view, h[q])
  }

  lemma {:induction false} KeptNothing(h: seq<Event>, keep: seq<bool>, p: nat)
    requires |h| == |keep| && p <= |h| && forall i :: p <= i < |h| ==> !keep[i]
    ensures Kept(h, keep) == Kept(h[..p], keep[..p])
    decreases |h|
  {
    if p < |h| {
      var n := |h| - 1;
      KeptNothing(h[..n], keep[..n], p);
      assert h[..n][..p] == h[..p] && keep[..n][..p] == keep[..p];
    } else {
      assert h[..p] == h && keep[..p] == keep;
    }
  }

  /** Where the block of lost events at the end begins. */
  function Tail(keep: seq<bool>): (p: nat)
    ensures p <= |keep| && (forall i :: p <= i < |keep| ==> !keep[i]) && (p > 0 ==> keep[p - 1])
  {
    if keep == [] || keep[|keep| - 1] then |keep| else Tail(keep[..|keep| - 1])
  }

  lemma {:induction false} ChainedPrefix(view: View, h: seq<Event>, from: Mark, to: Mark, p: nat)
    requires Chained(view, h, from, to) && p <= |h|
    ensures Chained(view, h[..p], from, if p < |h| then FromMark(view, h[p]) else to)
    decreases |h|
  {
    var n := |h| - 1;
    if p == |h| {
      assert h[..p] == h;
    } else if p < n {
      ChainedPrefix(view, h[..n], from, FromMark(view, h[n]), p);
      assert h[..n][..p] == h[..p];
    }
  }

  lemma ContinuousSnoc(view: View, h: seq<Event>, e: Event, to: Mark)
    ensures Continuous(view, h + [e], to) <==> ToMark(view, e) == to && Continuous(view, h, FromMark(view, e))
  {
    var more := h + [e];
    if Continuous(view, more, to) {
      assert h != [] ==> ToMark(view, more[|h| - 1]) == FromMark(view, more[|h|]);
      forall i | 0 <= i < |h| - 1 ensures ToMark(view, h[i]) == FromMark(view, h[i + 1]) {
        assert ToMark(view, more[i]) == FromMark(view, more[i + 1]);
      }
    }
  }

  /** The gaps before the last event kept, and the one after it. */
  lemma GapsSplit(view: View, h: seq<Event>, keep: seq<bool>, p: nat)
    requires |h| == |keep| && 0 < p <= |h| && keep[p - 1] && forall i :: p <= i < |h| ==> !keep[i]
    ensures GapsClose(view, h, keep)
       <==> GapsClose(view, h[..p - 1], keep[..p - 1]) && (p < |h| ==> FromMark(view, h[p]) == ToMark(view, h[|h| - 1]))
  {
    var front := keep[..p - 1];
    forall a: nat, b: nat ensures IsGap(keep, a, b) <==> IsGap(front, a, b) || (p < |h| && a == p && b == |h| - 1) {
      if IsGap(keep, a, b) { assert keep[p - 1] && !(a <= p - 1 <= b); }
    }
    if p < |h| { assert IsGap(keep, p, |h| - 1); }
  }

  /**
    The exact condition: what is left of an unbroken history has no gap if and only if each block of
    lost events that an older event survives leads back to where it starts.
   */
  lemma {:induction false} GapsExactly(view: View, h: seq<Event>, keep: seq<bool>, from: Mark, to: Mark)
    requires |h| == |keep| && Chained(view, h, from, to)
    ensures Continuous(view, Kept(h, keep), to) <==> GapsClose(view, h, keep)
    decreases |h|
  {
    var p := Tail(keep);
    KeptNothing(h, keep, p);
    if p > 0 {
      var last := h[p - 1];
      assert h[..p][..p - 1] == h[..p - 1] && keep[..p][..p - 1] == keep[..p - 1];
      ContinuousSnoc(view, Kept(h[..p - 1], keep[..p - 1]), last, to);
      ChainedPrefix(view, h, from, to, p - 1);
      GapsExactly(view, h[..p - 1], keep[..p - 1], from, FromMark(view, last));
      GapsSplit(view, h, keep, p);
      ChainedPairs(view, h, from, to);
      assert p < |h| ==> ToMark(view, h[p - 1]) == FromMark(view, h[p - 1 + 1]);
    }
  }

  // ---------------------------------------------------------------- gaps of a half-done prune

  /** Which events of a history are kept when the rows of `gone` are deleted. */
  function Keeps(rows: Rows, gone: set<EventId>, n: EventId, view: View, id: ClusterId): (keep: seq<bool>)
    ensures |keep| == |History(rows, n, view, id)|
  {
    if n == 0 then []
    else
      var earlier := Keeps(rows, gone, n - 1, view, id);
      if n in rows && rows[n].cluster == id && Shows(view, rows[n].kind) then earlier + [n !in gone] else earlier
  }

  lemma {:induction false} KeptHistory(rows: Rows, gone: set<EventId>, n: EventId, view: View, id: ClusterId)
    ensures History(rows - gone, n, view, id) == Kept(History(rows, n, view, id), Keeps(rows, gone, n, view, id))
    decreases n
  {
    if n > 0 {
      KeptHistory(rows, gone, n - 1, view, id);
      if n in rows && rows[n].cluster == id && Shows(view, rows[n].kind) {
        var h, keep := History(rows, n - 1, view, id), Keeps(rows, gone, n - 1, view, id);
        assert (h + [rows[n]])[..|h|] == h && (keep + [n !in gone])[..|keep|] == keep;
      }
    }
  }

  /**
    After a run at increasing times without pruning: deleting any rows, such as one batch of a prune,
    leaves a history of a cluster without gaps if and only if every gap leads back to where it starts.
   */
  lemma HalfDonePruneExactly(steps: seq<Timed>, id: ClusterId, view: View, gone: set<EventId>)
    requires Serial(steps) && (forall i :: 0 <= i < |steps| ==> !steps[i].action.DoPrune?)
    requires id in HealthHistory.Run(HealthHistory.Empty, steps).clusters
    ensures var f := HealthHistory.Run(HealthHistory.Empty, steps);
      var rows, n := f.events.rows, f.events.lastId;
      Continuous(view, History(rows - gone, n, view, id), MarkOf(view, f.clusters[id].health))
      <==> GapsClose(view, History(rows, n, view, id), Keeps(rows, gone, n, view, id))
  {
    var f := HealthHistory.Run(HealthHistory.Empty, steps);
    var rows, n := f.events.rows, f.events.lastId;
    RunTells(steps, id, view);
    KeptHistory(rows, gone, n, view, id);
    GapsExactly(view, History(rows, n, view, id), Keeps(rows, gone, n, view, id), MarkOf(view, Unknown),
                MarkOf(view, f.clusters[id].health));
  }

  /** The rows deleted are older than every row of the cluster's history that is kept. */
  ghost predicate OldestFirst(rows: Rows, gone: set<EventId>, view: View, id: ClusterId) {
    forall j, k :: j in rows && k in rows && j < k && InHistory(rows[j], view, id) && InHistory(rows[k], view, id)
      && k in gone
      ==> j in gone
  }

  predicate InHistory(e: Event, view: View, id: ClusterId) { e.cluster == id && Shows(view, e.kind) }

  lemma {:induction false} KeepsOldestFirst(rows: Rows, gone: set<EventId>, n: EventId, view: View, id: ClusterId,
                                            i: nat)
    requires OldestFirst(rows, gone, view, id)
    requires i < |Keeps(rows, gone, n, view, id)| && Keeps(rows, gone, n, view, id)[i]
    ensures forall j :: i <= j < |Keeps(rows, gone, n, view, id)| ==> Keeps(rows, gone, n, view, id)[j]
    ensures exists k :: k in rows && k <= n && k !in gone && InHistory(rows[k], view, id)
    decreases n
  {
    var earlier := Keeps(rows, gone, n - 1, view, id);
    if i < |earlier| {
      KeepsOldestFirst(rows, gone, n - 1, view, id, i);
    } else {
      assert n in rows && InHistory(rows[n], view, id);
    }
  }

  /** Deleting the oldest events of a history leaves no gap, in either history. */
  lemma OldestFirstLeavesNoGap(rows: Rows, gone: set<EventId>, n: EventId, view: View, id: ClusterId)
    requires OldestFirst(rows, gone, view, id)
    ensures GapsClose(view, History(rows, n, view, id), Keeps(rows, gone, n, view, id))
  {
    var keep := Keeps(rows, gone, n, view, id);
    forall p: nat, q: nat ensures !IsGap(keep, p, q) {
      if 0 < p < |keep| && keep[p - 1] {
        KeepsOldestFirst(rows, gone, n, view, id, p - 1);
        assert keep[p];
      }
    }
  }

  /** But it is not the only way: events in the middle whose changes cancel may go as well. */
  lemma CancellingEventsLeaveNoGap(e: Event, away: Event, back: Event, next: Event, from: Mark, to: Mark)
    requires Chained(Changes, [e, away, back, next], from, to) && ToMark(Changes, back) == FromMark(Changes, away)
    ensures var keep := [true, false, false, true];
      !OldestKept(keep) && GapsClose(Changes, [e, away, back, next], keep)
  {
    var keep := [true, false, false, true];
    assert keep[0] && !keep[1];
    forall p: nat, q: nat | IsGap(keep, p, q) ensures p == 1 && q == 2 {
      assert keep[p - 1] && !keep[p] && !keep[q];
      assert p == 1 || p == 2;
    }
  }

  predicate OldestKept(keep: seq<bool>) { forall i, j :: 0 <= i < j < |keep| && keep[i] ==> keep[j] }

  // ---------------------------------------------------------------- a reachable gap

  /** The health after the i-th of a row of heartbeats, every second of which finds the node down. */
  function Beat(i: nat): Health { if i == 0 then Unknown else if i % 2 == 1 then Healthy else Degraded }

  function BeatEvent(i: nat): Event
    requires i > 0
  {
    TransitionEvent("default", "c", Beat(i - 1), Beat(i), i)
  }

  const REGISTERED: Event := Event("default", "c", ClusterRegistered, NoDetail, 0, Some(Literal("registered")))

  function Beats(n: nat): seq<Timed> {
    if n == 0 then [Timed(DoCreate("c", ""), 0)] else Beats(n - 1) + [Timed(DoHeartbeat("c", 1, n % 2), n)]
  }

  function BeatRows(n: nat): Rows {
    var ids := Ids(1, n + 1);
    map k | k in ids :: if k == 1 then REGISTERED else BeatEvent(k - 1)
  }

  function BeatHub(n: nat): Hub {
    Hub(map["c" := Cluster("default", Beat(n), if n == 0 then None else Some(n))], {"c"}, Store(BeatRows(n), n + 1))
  }

  lemma BeatAppends(n: nat)
    requires n > 0
    ensures Append(Store(BeatRows(n - 1), n), BeatEvent(n)).0 == Store(BeatRows(n), n + 1)
  {
    assert !Conflict(BeatRows(n - 1), BeatEvent(n));
    assert BeatRows(n - 1)[n + 1 := BeatEvent(n)] == BeatRows(n);
  }

  lemma BeatStep(n: nat)
    requires n > 0
    ensures HealthHistory.Step(BeatHub(n - 1), DoHeartbeat("c", 1, n % 2), n) == BeatHub(n)
  {
    BeatAppends(n);
    assert Beat(n - 1) != Beat(n) && HeartbeatHealth(1, n % 2) == Beat(n);
    assert BeatHub(n - 1).clusters["c" := BeatHub(n).clusters["c"]] == BeatHub(n).clusters;
  }

  lemma BeatStart()
    ensures HealthHistory.Run(HealthHistory.Empty, Beats(0)) == BeatHub(0)
  {
    assert Beats(0)[..0] == [];
    assert !Conflict(map[], REGISTERED);
    assert map[1 := REGISTERED] == BeatRows(0);
    assert HealthHistory.Step(HealthHistory.Empty, DoCreate("c", ""), 0) == BeatHub(0);
  }

  lemma {:induction false} BeatsReach(n: nat)
    ensures HealthHistory.Run(HealthHistory.Empty, Beats(n)) == BeatHub(n)
  {
    if n == 0 {
      BeatStart();
    } else {
      BeatsReach(n - 1);
      BeatStep(n);
      RunBeat(n);
    }
  }

  lemma RunBeat(n: nat)
    requires n > 0
    ensures HealthHistory.Run(HealthHistory.Empty, Beats(n))
         == HealthHistory.Step(HealthHistory.Run(HealthHistory.Empty, Beats(n - 1)), DoHeartbeat("c", 1, n % 2), n)
  {
    assert Beats(n)[..|Beats(n)| - 1] == Beats(n - 1);
  }

  lemma {:induction false} NoRows(rows: Rows, low: EventId, high: EventId, view: View, id: ClusterId)
    requires low <= high && forall k :: low < k <= high ==> k !in rows
    ensures History(rows, high, view, id) == History(rows, low, view, id)
    decreases high
  {
    if low < high { NoRows(rows, low, high - 1, view, id); }
  }

  /** A batch takes all expired events but the first change of health. */
  function MiddleBatch(n: nat): set<EventId> { Ids(1, n) - {2} }

  lemma MiddleBatchIsLegal(n: nat)
    requires n == PRUNE_BATCH + 1
    ensures IsBatch(BeatRows(n), OlderThanCutoff(n), MiddleBatch(n))
  {
    IdsSize(1, n);
    assert Ids(1, n) == MiddleBatch(n) + {2};
  }

  /**
    A reachable gap: of one expired event more than a batch holds, a batch leaves the first change of
    health, which the changes that are left do not go on from.
   */
  lemma HalfDonePruneLeavesGap(n: nat)
    requires n == PRUNE_BATCH + 1
    ensures var f := HealthHistory.Run(HealthHistory.Empty, Beats(n));
      var batch := MiddleBatch(n);
      && "c" in f.clusters && IsBatch(f.events.rows, OlderThanCutoff(n), batch)
      && !Continuous(Changes, History(f.events.rows - batch, f.events.lastId, Changes, "c"), Of(f.clusters["c"].health))
  {
    BeatsReach(n);
    MiddleBatchIsLegal(n);
    LeftOver(n);
  }

  lemma LeftOver(n: nat)
    requires n == PRUNE_BATCH + 1
    ensures var h := History(BeatRows(n) - MiddleBatch(n), n + 1, Changes, "c");
      h == [BeatEvent(1), BeatEvent(n)] && ToMark(Changes, h[0]) != FromMark(Changes, h[1])
  {
    TwoLeft(BeatRows(n) - MiddleBatch(n), n);
  }

  lemma TwoLeft(rows: Rows, n: nat)
    requires n > 2 && rows.Keys == {2, n + 1} && rows[2] == BeatEvent(1) && rows[n + 1] == BeatEvent(n)
    ensures History(rows, n + 1, Changes, "c") == [BeatEvent(1), BeatEvent(n)]
  {
    NoRows(rows, 0, 1, Changes, "c");
    NoRows(rows, 2, n, Changes, "c");
    assert History(rows, 2, Changes, "c") == [BeatEvent(1)];
  }
}
