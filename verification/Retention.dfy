// The change-log janitor (backend/internal/cdc/retention.go) over the table its
// two DELETE statements act on.
module Retention {
  import opened Options
  import opened FeedModel

  // ---------- counting ----------

  function CountOld(rows: seq<Row>, before: int): nat {
    if rows == [] then 0
    else CountOld(rows[..|rows| - 1], before) + if rows[|rows| - 1].createdAt < before then 1 else 0
  }

  function CountNewer(rows: seq<Row>, x: nat): nat {
    if rows == [] then 0
    else CountNewer(rows[..|rows| - 1], x) + if rows[|rows| - 1].seqNo > x then 1 else 0
  }

  predicate Satisfied(rows: seq<Row>, before: int, maxRows: nat) {
    CountOld(rows, before) == 0 && |rows| <= maxRows
  }

  ghost predicate SubLog(rows: seq<Row>, rows': seq<Row>) {
    && Ascending(rows')
    && |rows'| <= |rows|
    && (forall r :: r in rows' ==> r in rows)
    && forall x :: CountNewer(rows', x) <= CountNewer(rows, x)
  }

  lemma {:induction false} CountOldCut(rows: seq<Row>, m: nat, before: int)
    requires m < |rows|
    ensures CountOld(rows[..m] + rows[m + 1..], before) + (if rows[m].createdAt < before then 1 else 0) == CountOld(rows, before)
  {
    var n := |rows| - 1;
    var cut := rows[..m] + rows[m + 1..];
    if m == n {
      assert cut == rows[..n];
    } else {
      CountOldCut(rows[..n], m, before);
      assert cut[..n - 1] == rows[..n][..m] + rows[..n][m + 1..];
      assert cut[n - 1] == rows[n];
    }
  }

  lemma {:induction false} CountNewerCut(rows: seq<Row>, m: nat, x: nat)
    requires m < |rows|
    ensures CountNewer(rows[..m] + rows[m + 1..], x) + (if rows[m].seqNo > x then 1 else 0) == CountNewer(rows, x)
  {
    var n := |rows| - 1;
    var cut := rows[..m] + rows[m + 1..];
    if m == n {
      assert cut == rows[..n];
    } else {
      CountNewerCut(rows[..n], m, x);
      assert cut[..n - 1] == rows[..n][..m] + rows[..n][m + 1..];
      assert cut[n - 1] == rows[n];
    }
  }

  lemma {:induction false} CountOldSome(rows: seq<Row>, before: int)
    ensures CountOld(rows, before) > 0 <==> exists i :: 0 <= i < |rows| && rows[i].createdAt < before
  {
    if rows != [] { CountOldSome(rows[..|rows| - 1], before); }
  }

  lemma {:induction false} CountNewerAll(rows: seq<Row>, x: nat)
    requires forall i :: 0 <= i < |rows| ==> rows[i].seqNo > x
    ensures CountNewer(rows, x) == |rows|
  {
    if rows != [] { CountNewerAll(rows[..|rows| - 1], x); }
  }

  function Cut(rows: seq<Row>, m: nat): seq<Row>
    requires m < |rows|
  {
    rows[..m] + rows[m + 1..]
  }

  lemma CutKeepsOrder(rows: seq<Row>, m: nat)
    requires Ascending(rows) && m < |rows|
    ensures Ascending(Cut(rows, m)) && |Cut(rows, m)| == |rows| - 1
    ensures forall r :: r in Cut(rows, m) ==> r in rows
  {}

  lemma CutIsSubLog(rows: seq<Row>, m: nat, before: int)
    requires Ascending(rows) && m < |rows|
    ensures SubLog(rows, Cut(rows, m)) && |Cut(rows, m)| == |rows| - 1
    ensures CountOld(Cut(rows, m), before) == CountOld(rows, before) - if rows[m].createdAt < before then 1 else 0
    ensures forall r :: r in rows && r !in Cut(rows, m) ==> r == rows[m]
  {
    CountOldCut(rows, m, before);
    CutKeepsOrder(rows, m);
    forall x ensures CountNewer(Cut(rows, m), x) <= CountNewer(rows, x) { CountNewerCut(rows, m, x); }
    forall i | 0 <= i < |rows| && i != m ensures rows[i] in Cut(rows, m) {
      if i < m { assert Cut(rows, m)[i] == rows[i]; } else { assert Cut(rows, m)[i - 1] == rows[i]; }
    }
  }

  lemma {:induction false} DropCounts(rows: seq<Row>, n: nat, before: int, x: nat)
    requires n <= |rows|
    ensures CountOld(rows[n..], before) <= CountOld(rows, before)
    ensures CountNewer(rows[n..], x) <= CountNewer(rows, x)
  {
    if n < |rows| {
      DropCounts(rows[..|rows| - 1], n, before, x);
      assert rows[n..][..|rows| - n - 1] == rows[..|rows| - 1][n..];
    }
  }

  lemma SubLogTransitive(a: seq<Row>, b: seq<Row>, c: seq<Row>)
    requires SubLog(a, b) && SubLog(b, c)
    ensures SubLog(a, c)
  {
    forall x ensures CountNewer(c, x) <= CountNewer(a, x) {
      assert CountNewer(c, x) <= CountNewer(b, x) && CountNewer(b, x) <= CountNewer(a, x);
    }
  }

  // Created earlier, or numbered earlier at the same time.
  predicate Before(a: Row, b: Row) {
    a.createdAt < b.createdAt || (a.createdAt == b.createdAt && a.seqNo <= b.seqNo)
  }

  // Only rows past the age bound went, and none of them is newer than one kept.
  ghost predicate OldestWent(a: seq<Row>, b: seq<Row>, before: int) {
    forall r :: r in a && r !in b ==>
      && r.createdAt < before
      && forall k :: k in b ==> r.createdAt < k.createdAt || (r.createdAt == k.createdAt && r.seqNo <= k.seqNo)
  }

  lemma OldestWentStep(a: seq<Row>, b: seq<Row>, m: nat, before: int)
    requires OldestWent(a, b, before) && SubLog(a, b) && m < |b|
    requires b[m].createdAt < before && forall i :: 0 <= i < |b| ==> Before(b[m], b[i])
    ensures SubLog(a, Cut(b, m)) && OldestWent(a, Cut(b, m), before)
  {
    CutIsSubLog(b, m, before);
    SubLogTransitive(a, b, Cut(b, m));
    forall r | r in a && r !in Cut(b, m)
      ensures r.createdAt < before
      ensures forall k :: k in Cut(b, m) ==> r.createdAt < k.createdAt || (r.createdAt == k.createdAt && r.seqNo <= k.seqNo)
    {
      if r in b {
        assert r == b[m];
        forall k | k in Cut(b, m) ensures Before(r, k) { assert k in b; }
      }
    }
  }

  // Every row that went is past the age bound, or the log as it was held at least
  // `maxRows` newer ones.
  ghost predicate AllRemovable(a: seq<Row>, b: seq<Row>, before: int, maxRows: nat) {
    forall r :: r in a && r !in b ==> r.createdAt < before || CountNewer(a, r.seqNo) >= maxRows
  }

  lemma RemovableStep(a: seq<Row>, b: seq<Row>, c: seq<Row>, before: int, maxRows: nat)
    requires SubLog(a, b) && SubLog(b, c) && AllRemovable(a, b, before, maxRows)
    requires AllRemovable(b, c, before, maxRows)
    ensures SubLog(a, c) && AllRemovable(a, c, before, maxRows)
  {
    SubLogTransitive(a, b, c);
    forall r | r in a && r !in c ensures r.createdAt < before || CountNewer(a, r.seqNo) >= maxRows {
      if r in b { assert CountNewer(b, r.seqNo) <= CountNewer(a, r.seqNo); }
    }
  }

  // ---------- the table ----------

  // `faults` counts the statements that failed; a failed one deletes nothing.
  class ChangeLog {
    var rows: seq<Row>
    ghost var faults: nat

    method Pass() returns (ok: bool)
      modifies this`faults
      ensures faults == old(faults) + if ok then 0 else 1
    {
      ok := *;
      faults := faults + if ok then 0 else 1;
    }

    // The position of the oldest row past the age bound, or |rows|.
    method FindOldest(before: int) returns (m: nat)
      ensures m <= |rows|
      ensures m == |rows| <==> CountOld(rows, before) == 0
      ensures m < |rows| ==> rows[m].createdAt < before && forall i :: 0 <= i < |rows| ==> Before(rows[m], rows[i])
    {
      m := |rows|;
      for i := 0 to |rows|
        invariant m == |rows| || m < i
        invariant m == |rows| ==> forall k :: 0 <= k < i ==> rows[k].createdAt >= before
        invariant m < |rows| ==> rows[m].createdAt < before && forall k :: 0 <= k < i ==> Before(rows[m], rows[k])
      {
        if rows[i].createdAt < before && (m == |rows| || !Before(rows[m], rows[i])) {
          m := i;
        }
      }
      CountOldSome(rows, before);
    }

    // PruneChangeLogBefore: delete up to `limit` of the rows past the age bound,
    // oldest first.
    method PruneBefore(before: int, limit: nat) returns (ok: bool, n: nat)
      requires Ascending(rows)
      modifies this
      ensures SubLog(old(rows), rows) && |rows| + n == |old(rows)|
      ensures CountOld(rows, before) + n == CountOld(old(rows), before)
      ensures ok ==> n == (if CountOld(old(rows), before) < limit then CountOld(old(rows), before) else limit)
      ensures !ok ==> n == 0
      ensures OldestWent(old(rows), rows, before)
      ensures faults == old(faults) + if ok then 0 else 1
    {
      n := 0;
      ok := Pass();
      if !ok { return; }
      while n < limit
        invariant n <= limit && SubLog(old(rows), rows) && |rows| + n == |old(rows)|
        invariant CountOld(rows, before) + n == CountOld(old(rows), before)
        invariant OldestWent(old(rows), rows, before)
        invariant faults == old(faults)
      {
        var m := FindOldest(before);
        if m == |rows| { return; }
        OldestWentStep(old(rows), rows, m, before);
        CutIsSubLog(rows, m, before);
        rows := Cut(rows, m);
        n := n + 1;
      }
    }

    // PruneChangeLogToMaxRows: delete up to `limit` of the lowest-numbered rows
    // above the row bound.
    method PruneToMaxRows(maxRows: nat, limit: nat) returns (ok: bool, n: nat)
      requires Ascending(rows)
      modifies this
      ensures SubLog(old(rows), rows) && n <= |old(rows)| && rows == old(rows)[n..]
      ensures forall before :: CountOld(rows, before) <= CountOld(old(rows), before)
      ensures ok ==> n == (if |old(rows)| <= maxRows then 0 else if |old(rows)| - maxRows < limit then |old(rows)| - maxRows else limit)
      ensures !ok ==> n == 0
      ensures forall r :: r in old(rows) && r !in rows ==> CountNewer(old(rows), r.seqNo) >= maxRows
      ensures faults == old(faults) + if ok then 0 else 1
    {
      ok := Pass();
      if !ok {
        DropLowest(rows, 0, maxRows);
        return false, 0;
      }
      var excess := if |rows| <= maxRows then 0 else |rows| - maxRows;
      n := if excess < limit then excess else limit;
      DropLowest(rows, n, maxRows);
      rows := rows[n..];
    }
  }

  lemma DropLowest(rows: seq<Row>, n: nat, maxRows: nat)
    requires Ascending(rows) && n <= |rows| && (n == 0 || |rows| - n >= maxRows)
    ensures SubLog(rows, rows[n..])
    ensures forall before :: CountOld(rows[n..], before) <= CountOld(rows, before)
    ensures forall r :: r in rows && r !in rows[n..] ==> CountNewer(rows, r.seqNo) >= maxRows
  {
    var kept := rows[n..];
    forall before ensures CountOld(kept, before) <= CountOld(rows, before) { DropCounts(rows, n, before, 0); }
    forall x ensures CountNewer(kept, x) <= CountNewer(rows, x) { DropCounts(rows, n, 0, x); }
    forall i | n <= i < |rows| ensures rows[i] in kept { assert kept[i - n] == rows[i]; }
    forall r | r in rows && r !in kept
      ensures CountNewer(rows, r.seqNo) >= maxRows
    {
      var i :| 0 <= i < |rows| && rows[i] == r;
      CountNewerAll(kept, r.seqNo);
      assert CountNewer(kept, r.seqNo) <= CountNewer(rows, r.seqNo);
    }
  }

  class RetentionJanitor {
    const store: ChangeLog
    const maxRows: nat
    const batch: nat
    const maxBatches: nat

    constructor (store: ChangeLog, maxRows: nat, batch: nat)
      ensures this.store == store
      ensures this.maxRows == (if maxRows == 0 then 100_000 else maxRows)
      ensures this.batch == (if batch == 0 then 10_000 else batch) && maxBatches == 8
    {
      this.store := store;
      this.maxRows := if maxRows == 0 then 100_000 else maxRows;
      this.batch := if batch == 0 then 10_000 else batch;
      this.maxBatches := 8;
    }

    // One round of the loop: both statements, the second only if the first
    // succeeded.
    method Round(before: int) returns (ok: bool, removed: nat)
      requires Ascending(store.rows) && batch > 0
      modifies store
      ensures removed == |old(store.rows)| - |store.rows| && SubLog(old(store.rows), store.rows)
      ensures removed <= 2 * batch && AllRemovable(old(store.rows), store.rows, before, maxRows)
      ensures ok <==> store.faults == old(store.faults)
      ensures ok ==> Satisfied(store.rows, before, maxRows) || removed >= batch
      ensures ok && Satisfied(old(store.rows), before, maxRows) ==> Satisfied(store.rows, before, maxRows)
    {
      var byAge, bySize := 0, 0;
      ghost var rows0 := store.rows;
      ok, byAge := store.PruneBefore(before, batch);
      if ok {
        ghost var rows1 := store.rows;
        ok, bySize := store.PruneToMaxRows(maxRows, batch);
        RemovableStep(rows0, rows1, store.rows, before, maxRows);
      }
      removed := byAge + bySize;
    }

    // Cleanup is bounded by two batches a round; it ends with both bounds met or
    // has removed a full batch for every round; it stops early only when both
    // bounds are met; and it never takes a row that both bounds let stay.
    method RunOnce(before: int) returns (ok: bool, early: bool, total: nat)
      requires Ascending(store.rows) && batch > 0
      modifies store
      ensures total == |old(store.rows)| - |store.rows| && SubLog(old(store.rows), store.rows)
      ensures total <= 2 * (batch * maxBatches)
      ensures ok ==> Satisfied(store.rows, before, maxRows) || total >= batch * maxBatches
      ensures early ==> ok && Satisfied(store.rows, before, maxRows)
      ensures AllRemovable(old(store.rows), store.rows, before, maxRows)
      ensures ok <==> store.faults == old(store.faults)
    {
      ok, early, total := true, false, 0;
      var i := 0;
      ghost var full := 0;
      while i < maxBatches
        invariant 0 <= i <= maxBatches && ok && !early && store.faults == old(store.faults)
        invariant full == batch * i <= batch * maxBatches
        invariant total == |old(store.rows)| - |store.rows| && SubLog(old(store.rows), store.rows)
        invariant total <= 2 * full
        invariant Satisfied(store.rows, before, maxRows) || total >= full
        invariant AllRemovable(old(store.rows), store.rows, before, maxRows)
      {
        RoundsGrow(batch, i, maxBatches);
        ghost var rows := store.rows;
        var removed;
        ok, removed := Round(before);
        RemovableStep(old(store.rows), rows, store.rows, before, maxRows);
        total := total + removed;
        if !ok { return; }
        if removed == 0 {
          early := true;
          break;
        }
        i, full := i + 1, full + batch;
      }
    }
  }

  lemma RoundsGrow(batch: nat, i: nat, n: nat)
    requires i < n
    ensures batch * (i + 1) == batch * i + batch && batch * (i + 1) <= batch * n
  {
    assert batch * n == batch * (i + 1) + batch * (n - i - 1);
  }
}
