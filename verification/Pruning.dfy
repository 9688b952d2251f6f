/**
  Deleting the expired rows of a table in bounded batches, the statement both retention loops issue.
  Source: internal/store/sqlite.go.
 */
module Pruning {

  const PRUNE_BATCH: nat := 500   // pruneBatchSize

  /** What one unbounded DELETE leaves. */
  function Kept<K, V>(rows: map<K, V>, expired: V -> bool): map<K, V> {
    map k | k in rows && !expired(rows[k]) :: rows[k]
  }

  /** Only expired rows are gone so far. */
  ghost predicate PartlyPruned<K, V>(before: map<K, V>, rows: map<K, V>, expired: V -> bool) {
    && (forall k :: k in rows ==> k in before && rows[k] == before[k])
    && (forall k :: k in before && k !in rows ==> expired(before[k]))
  }

  ghost predicate Expired<K, V>(rows: map<K, V>, expired: V -> bool, batch: set<K>) {
    forall k :: k in batch ==> k in rows && expired(rows[k])
  }

  /** What the inner SELECT ... LIMIT may return: expired rows, all of them when they are fewer than the limit. */
  ghost predicate IsBatch<K, V>(rows: map<K, V>, expired: V -> bool, batch: set<K>) {
    && Expired(rows, expired, batch) && |batch| <= PRUNE_BATCH
    && (|batch| < PRUNE_BATCH ==> forall k :: k in rows && k !in batch ==> !expired(rows[k]))
  }

  lemma RemoveBatch<K, V>(before: map<K, V>, rows: map<K, V>, expired: V -> bool, batch: set<K>)
    requires PartlyPruned(before, rows, expired) && Expired(rows, expired, batch)
    ensures PartlyPruned(before, rows - batch, expired)
    ensures |rows - batch| == |rows| - |batch|
  {
    assert (rows - batch).Keys == rows.Keys - batch;
    assert rows.Keys == (rows.Keys - batch) + batch;
  }

  lemma NothingExpired<K, V>(before: map<K, V>, rows: map<K, V>, expired: V -> bool)
    requires PartlyPruned(before, rows, expired) && forall k :: k in rows ==> !expired(rows[k])
    ensures rows == Kept(before, expired)
  {
  }

  method PickExpired<K, V>(rows: map<K, V>, expired: V -> bool) returns (batch: set<K>)
    ensures IsBatch(rows, expired, batch)
  {
    batch := {};
    var rest := set k | k in rows && expired(rows[k]);
    while rest != {} && |batch| < PRUNE_BATCH
      invariant Expired(rows, expired, batch) && Expired(rows, expired, rest)
      invariant batch !! rest && |batch| <= PRUNE_BATCH
      invariant forall k :: k in rows && expired(rows[k]) ==> k in batch || k in rest
      decreases rest
    {
      var k :| k in rest;
      rest := rest - {k};
      batch := batch + {k};
    }
  }

  /**
    The pruning loop: `fails` says which statements the database refuses. The count is the number of
    rows removed, also when a later batch fails.
   */
  method Prune<K, V>(table: map<K, V>, expired: V -> bool, fails: nat -> bool)
    returns (rows: map<K, V>, removed: nat, ok: bool)
    ensures PartlyPruned(table, rows, expired) && removed == |table| - |rows|
    ensures ok ==> rows == Kept(table, expired)
    ensures (forall n: nat :: !fails(n)) ==> ok
    ensures fails(0) ==> !ok && rows == table
  {
    rows, removed, ok := table, 0, false;
    var statement: nat := 0;
    while true
      invariant PartlyPruned(table, rows, expired) && removed == |table| - |rows|
      invariant statement == 0 ==> rows == table
      invariant statement > 0 ==> !fails(0)
      decreases |rows|
    {
      if fails(statement) { break; }
      statement := statement + 1;
      var batch := PickExpired(rows, expired);
      RemoveBatch(table, rows, expired, batch);
      rows := rows - batch;
      removed := removed + |batch|;
      if |batch| < PRUNE_BATCH {
        NothingExpired(table, rows, expired);
        ok := true;
        break;
      }
    }
  }

  // ---------------------------------------------------------------- with other statements in between

  /** A statement of the pruning loop, or one of another request. */
  datatype Statement<K, V> = DeleteBatch(batch: set<K>) | Put(key: K, row: V) | Remove(key: K)

  function Apply<K, V>(rows: map<K, V>, st: Statement<K, V>): map<K, V> {
    match st
    case DeleteBatch(batch) => rows - batch
    case Put(key, row) => rows[key := row]
    case Remove(key) => rows - {key}
  }

  function ApplyAll<K, V>(rows: map<K, V>, sts: seq<Statement<K, V>>): map<K, V> {
    if sts == [] then rows else Apply(ApplyAll(rows, sts[..|sts| - 1]), sts[|sts| - 1])
  }

  /** Every batch is one that the database may pick when its statement runs. */
  ghost predicate Legal<K, V>(rows: map<K, V>, sts: seq<Statement<K, V>>, expired: V -> bool) {
    forall i :: 0 <= i < |sts| && sts[i].DeleteBatch? ==> IsBatch(ApplyAll(rows, sts[..i]), expired, sts[i].batch)
  }

  predicate Touches<K(==), V>(sts: seq<Statement<K, V>>, key: K) {
    exists i :: 0 <= i < |sts| && !sts[i].DeleteBatch? && sts[i].key == key
  }

  /**
    A row that no other request touches is deleted by some batch or stays as it was; only an expired
    one is deleted.
   */
  lemma {:induction false} UntouchedRow<K, V>(rows: map<K, V>, sts: seq<Statement<K, V>>, expired: V -> bool, key: K)
    requires Legal(rows, sts, expired) && !Touches(sts, key)
    ensures var t := ApplyAll(rows, sts);
      && (key in t ==> key in rows && t[key] == rows[key])
      && (key in rows && key !in t ==> expired(rows[key]))
    decreases |sts|
  {
    if sts != [] {
      var n := |sts| - 1;
      forall i | 0 <= i < n ensures sts[..n][i] == sts[i] && sts[..n][..i] == sts[..i] {}
      UntouchedRow(rows, sts[..n], expired, key);
      assert sts[n].DeleteBatch? || sts[n].key != key;
    }
  }

  /**
    However other requests run between the batches: when the last batch comes back short, no expired
    row is left, and of the rows that nobody else touched exactly the unexpired ones are there.
   */
  lemma InterleavedPrune<K, V>(rows: map<K, V>, sts: seq<Statement<K, V>>, expired: V -> bool)
    requires Legal(rows, sts, expired) && sts != []
    requires sts[|sts| - 1].DeleteBatch? && |sts[|sts| - 1].batch| < PRUNE_BATCH
    ensures var t := ApplyAll(rows, sts);
      && (forall k :: k in t ==> !expired(t[k]))
      && (forall k :: !Touches(sts, k) ==> (k in t <==> k in rows && !expired(rows[k])) && (k in t ==> t[k] == rows[k]))
  {
    var n, t := |sts| - 1, ApplyAll(rows, sts);
    assert IsBatch(ApplyAll(rows, sts[..n]), expired, sts[n].batch);
    forall k | !Touches(sts, k) ensures (k in t <==> k in rows && !expired(rows[k])) && (k in t ==> t[k] == rows[k]) {
      UntouchedRow(rows, sts, expired, k);
    }
  }
}
