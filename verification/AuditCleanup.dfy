/** The audit table and the two deletions that change it in place. */
module AuditCleanup {
  import opened AuditRetention
  import opened Lists
  import opened Numbers
  import opened Sorting

  predicate IsOld(r: AuditRow, cutoff: int) {
    r.Created() < cutoff
  }

  function Old(cutoff: int): AuditRow -> bool {
    r => IsOld(r, cutoff)
  }

  function OldRows(rows: seq<AuditRow>, cutoff: int): seq<AuditRow> {
    Filter(rows, Old(cutoff))
  }

  function RecentRows(rows: seq<AuditRow>, cutoff: int): seq<AuditRow> {
    Filter(rows, Not(Old(cutoff)))
  }

  function Clamp(batchSize: int): (r: int)
    ensures 1 <= r <= 5000
  {
    Max(1, Min(batchSize, 5000))
  }

  function RowId(): AuditRow -> int {
    (r: AuditRow) => r.Id()
  }

  /** The old rows with the smallest ids, at most a batch of them. */
  function Batch(rows: seq<AuditRow>, cutoff: int, size: int): seq<AuditRow>
    requires size >= 0
  {
    var old_ := Sort(OldRows(rows, cutoff), ByKey(RowId()));
    old_[..if size < |old_| then size else |old_|]
  }

  function OutsideIds(batch: seq<AuditRow>): AuditRow -> bool {
    (r: AuditRow) => forall b :: b in batch ==> b.Id() != r.Id()
  }

  /** Old are the rows created before the cutoff; every other one is recent. */
  lemma OldRowsAre(rows: seq<AuditRow>, cutoff: int, r: AuditRow)
    requires StoredRow(r)
    ensures r in OldRows(rows, cutoff) <==> r in rows && r.createdAt.value < cutoff
    ensures r in RecentRows(rows, cutoff) <==> r in rows && r.createdAt.value >= cutoff
  {
    FilterElements(rows, Old(cutoff));
    FilterElements(rows, Not(Old(cutoff)));
  }

  /** A batch size from 1 to 5000 is used; the nearest of them replaces any other. */
  lemma BatchSizeIsConfigured(batchSize: int)
    ensures 1 <= batchSize <= 5000 ==> Clamp(batchSize) == batchSize
    ensures batchSize < 1 ==> Clamp(batchSize) == 1
    ensures batchSize > 5000 ==> Clamp(batchSize) == 5000
  {
  }

  lemma BatchElements(rows: seq<AuditRow>, cutoff: int, size: int)
    requires NoDup(rows) && size >= 0
    ensures var batch := Batch(rows, cutoff, size);
            && NoDup(batch)
            && (forall r :: r in batch ==> r in rows && IsOld(r, cutoff))
            && |batch| == (if size < |OldRows(rows, cutoff)| then size else |OldRows(rows, cutoff)|)
  {
    FilterElements(rows, Old(cutoff));
    SortElements(OldRows(rows, cutoff), ByKey(RowId()));
    SortNoDup(OldRows(rows, cutoff), ByKey(RowId()));
    var q := Sort(OldRows(rows, cutoff), ByKey(RowId()));
    assert forall r :: r in Batch(rows, cutoff, size) ==> r in q;
  }

  /** The batch takes the old rows with the smallest ids. */
  lemma BatchIsOldest(rows: seq<AuditRow>, cutoff: int, size: int, r: AuditRow, s: AuditRow)
    requires size >= 0 && r in Batch(rows, cutoff, size)
    requires s in rows && IsOld(s, cutoff) && s !in Batch(rows, cutoff, size)
    ensures r.Id() <= s.Id()
  {
    FilterElements(rows, Old(cutoff));
    SortElements(OldRows(rows, cutoff), ByKey(RowId()));
    SortSorted(OldRows(rows, cutoff), ByKey(RowId()));
    var q := Sort(OldRows(rows, cutoff), ByKey(RowId()));
    PrefixIsSmallest(q, if size < |q| then size else |q|);
  }

  lemma PrefixIsSmallest(q: seq<AuditRow>, n: int)
    requires 0 <= n <= |q| && SortedBy(q, ByKey(RowId()))
    ensures forall r, s :: r in q[..n] && s in q && s !in q[..n] ==> r.Id() <= s.Id()
  {
  }

  lemma BatchCount(rows: seq<AuditRow>, batch: seq<AuditRow>)
    requires StoredRows(rows) && NoDup(batch) && forall r :: r in batch ==> r in rows
    ensures |Filter(rows, OutsideIds(batch))| + |batch| == |rows|
  {
    StoredNoDup(rows);
    var gone := Filter(rows, Not(OutsideIds(batch)));
    FilterElements(rows, Not(OutsideIds(batch)));
    assert (set r | r in gone) == (set r | r in batch);
    ElementCount(gone);
    ElementCount(batch);
    FilterSplit(rows, OutsideIds(batch));
  }

  lemma RecentSurvive(rows: seq<AuditRow>, cutoff: int, batch: seq<AuditRow>)
    requires StoredRows(rows) && forall r :: r in batch ==> r in rows && IsOld(r, cutoff)
    ensures RecentRows(Filter(rows, OutsideIds(batch)), cutoff) == RecentRows(rows, cutoff)
  {
    StoredNoDup(rows);
    FilterTwice(rows, OutsideIds(batch), Not(Old(cutoff)));
    FilterSame(rows, Both(OutsideIds(batch), Not(Old(cutoff))), Not(Old(cutoff)));
  }

  /** Deleting the batch by id removes its rows, as many as it has, and no recent row. */
  lemma DeletingBatch(rows: seq<AuditRow>, cutoff: int, size: int)
    requires StoredRows(rows) && size >= 0
    ensures var batch := Batch(rows, cutoff, size);
            var left := Filter(rows, OutsideIds(batch));
            && |left| + |batch| == |rows|
            && |OldRows(left, cutoff)| + |batch| == |OldRows(rows, cutoff)|
            && RecentRows(left, cutoff) == RecentRows(rows, cutoff)
  {
    var batch := Batch(rows, cutoff, size);
    StoredNoDup(rows);
    BatchElements(rows, cutoff, size);
    BatchCount(rows, batch);
    RecentSurvive(rows, cutoff, batch);
    FilterSplit(rows, Old(cutoff));
    FilterSplit(Filter(rows, OutsideIds(batch)), Old(cutoff));
  }

  function Arrived(arrivals: seq<seq<AuditRow>>): seq<AuditRow> {
    if arrivals == [] then [] else arrivals[0] + Arrived(arrivals[1..])
  }

  lemma ArrivedPrefix(arrivals: seq<seq<AuditRow>>, k: int)
    requires 0 <= k < |arrivals|
    ensures Arrived(arrivals[..k + 1]) == Arrived(arrivals[..k]) + arrivals[k]
    ensures Arrived(arrivals[k..]) == arrivals[k] + Arrived(arrivals[k + 1..])
  {
    assert arrivals[k..][1..] == arrivals[k + 1..];
    assert arrivals[..k + 1] == arrivals[..k] + [arrivals[k]];
    ArrivedSnoc(arrivals[..k], arrivals[k]);
  }

  lemma {:induction false} ArrivedSnoc(arrivals: seq<seq<AuditRow>>, more: seq<AuditRow>)
    ensures Arrived(arrivals + [more]) == Arrived(arrivals) + more
  {
    if arrivals == [] {
      assert Arrived([more]) == more + Arrived([more][1..]);
    } else {
      ArrivedSnoc(arrivals[1..], more);
      assert (arrivals + [more])[1..] == arrivals[1..] + [more];
      Associative(arrivals[0], Arrived(arrivals[1..]), more);
    }
  }

  lemma StoredShrinks(rows: seq<AuditRow>, fewer: seq<AuditRow>, others: seq<AuditRow>)
    requires StoredRows(rows + others) && NoDup(fewer) && forall r :: r in fewer ==> r in rows
    ensures StoredRows(fewer + others) && StoredRows(fewer)
  {
    StoredNoDup(rows + others);
    var all := fewer + others;
    assert forall r :: r in all ==> r in rows + others;
    forall i, j | 0 <= i < j < |all| ensures all[i].id != all[j].id {
      if j < |fewer| {
        assert fewer[i] in rows + others && fewer[j] in rows + others;
      } else if i < |fewer| {
        assert fewer[i] in rows;
        var k :| 0 <= k < |rows| && rows[k] == fewer[i];
        assert (rows + others)[k] == fewer[i] && (rows + others)[|rows| + j - |fewer|] == all[j];
      } else {
        assert (rows + others)[|rows| + i - |fewer|] == all[i] && (rows + others)[|rows| + j - |fewer|] == all[j];
      }
    }
    StoredFirst(fewer, others);
  }

  lemma StoredFirst(rows: seq<AuditRow>, others: seq<AuditRow>)
    requires StoredRows(rows + others)
    ensures StoredRows(rows)
  {
    assert forall r :: r in rows ==> r in rows + others;
    forall i, j | 0 <= i < j < |rows| ensures rows[i].id != rows[j].id {
      assert (rows + others)[i] == rows[i] && (rows + others)[j] == rows[j];
    }
  }

  /** A prune takes away its victims, as many as there are. */
  lemma VictimCount(rows: seq<AuditRow>, n: nat, excluded: set<string>)
    requires StoredRows(rows)
    ensures |rows| - |Pruned(rows, n, excluded)| == |set r | r in rows && Victim(rows, n, excluded, r)|
    ensures forall r :: r in Pruned(rows, n, excluded) <==> r in rows && !Victim(rows, n, excluded, r)
  {
    var survives := Survives(rows, n, excluded);
    StoredNoDup(rows);
    FilterElements(rows, survives);
    DroppedCount(rows, survives);
    assert (set r | r in rows && !survives(r)) == set r | r in rows && Victim(rows, n, excluded, r);
  }

  lemma DroppedCount(rows: seq<AuditRow>, keep: AuditRow -> bool)
    requires NoDup(rows)
    ensures |rows| - |Filter(rows, keep)| == |set r | r in rows && !keep(r)|
  {
    var gone := Filter(rows, Not(keep));
    FilterElements(rows, Not(keep));
    FilterSplit(rows, keep);
    ElementCount(gone);
    assert (set r | r in gone) == set r | r in rows && !keep(r);
  }

  class AuditLogs {
    var rows: seq<AuditRow>

    constructor (rows: seq<AuditRow>)
      ensures this.rows == rows
    {
      this.rows := rows;
    }

    method PruneKeepLastN(retentionCount: int, excludeActions: seq<string>, dryRun: bool)
      returns (deletedCount: nat, scannedUsers: nat)
      requires StoredRows(rows)
      modifies this
      ensures forall r :: r in rows <==>
                r in old(rows) &&
                (dryRun || !Victim(old(rows), Retained(retentionCount), ExcludedActions(excludeActions), r))
      ensures rows == if dryRun then old(rows)
                      else Pruned(old(rows), Retained(retentionCount), ExcludedActions(excludeActions))
      ensures deletedCount ==
              |set r | r in old(rows) &&
                         Victim(old(rows), Retained(retentionCount), ExcludedActions(excludeActions), r)|
      ensures scannedUsers == |set r | r in old(rows) && RankedBySql(r, ExcludedActions(excludeActions)) :: SqlKey(r)|
    {
      var excluded := ExcludedActions(excludeActions);
      var survivors := Pruned(rows, Retained(retentionCount), excluded);
      deletedCount := |rows| - |survivors|;
      VictimCount(rows, Retained(retentionCount), excluded);
      scannedUsers := |set r | r in rows && RankedBySql(r, excluded) :: SqlKey(r)|;
      if !dryRun {
        rows := survivors;
      }
    }

    method DeleteBatchOlderThan(cutoff: int, batchSize: int) returns (deleted: nat)
      requires StoredRows(rows)
      modifies this
      ensures rows == Filter(old(rows), OutsideIds(Batch(old(rows), cutoff, Clamp(batchSize))))
      ensures deleted == |Batch(old(rows), cutoff, Clamp(batchSize))|
    {
      var batch := Batch(rows, cutoff, Clamp(batchSize));
      if batch == [] {
        FilterAll(rows, OutsideIds(batch));
        return 0;
      }
      DeletingBatch(rows, cutoff, Clamp(batchSize));
      var left := Filter(rows, OutsideIds(batch));
      deleted := |rows| - |left|;
      rows := left;
    }

    /**
     * The nightly loop. Other writers may insert rows between two batches (`arrivals`); as long as none of
     * those is old, exactly the old rows of the start are deleted and counted, whatever the batch size.
     */
    method NightlyCleanup(cutoff: int, batchSize: int, arrivals: seq<seq<AuditRow>>)
        returns (total: nat, ghost rounds: nat)
      requires StoredRows(rows + Arrived(arrivals))
      requires forall r :: r in Arrived(arrivals) ==> !IsOld(r, cutoff)
      modifies this
      ensures total == |OldRows(old(rows), cutoff)|
      ensures rounds <= |arrivals| && rows == RecentRows(old(rows), cutoff) + Arrived(arrivals[..rounds])
    {
      total := 0;
      var k := 0;
      while true
        invariant Cleaning(old(rows), rows, cutoff, total, arrivals, k)
        decreases |OldRows(rows, cutoff)|
      {
        ghost var before := rows;
        StoredFirst(rows, Arrived(arrivals[k..]));
        var deleted := DeleteBatchOlderThan(cutoff, batchSize);
        AfterBatch(before, cutoff, Clamp(batchSize), Arrived(arrivals[k..]));
        if deleted == 0 {
          break;
        }
        total := total + deleted;
        if k < |arrivals| {
          AfterArrival(old(rows), rows, cutoff, total, arrivals, k);
          rows := rows + arrivals[k];
          k := k + 1;
        }
      }
      rounds := k;
    }
  }

  /** Old rows deleted so far and old rows left add up; the recent rows are the first ones and the arrivals. */
  ghost predicate Cleaning(start: seq<AuditRow>, rows: seq<AuditRow>, cutoff: int, total: nat,
                           arrivals: seq<seq<AuditRow>>, k: int)
  {
    && 0 <= k <= |arrivals|
    && StoredRows(rows + Arrived(arrivals[k..]))
    && total + |OldRows(rows, cutoff)| == |OldRows(start, cutoff)|
    && RecentRows(rows, cutoff) == RecentRows(start, cutoff) + Arrived(arrivals[..k])
  }

  lemma AfterBatch(rows: seq<AuditRow>, cutoff: int, size: int, others: seq<AuditRow>)
    requires StoredRows(rows + others) && StoredRows(rows) && size >= 1
    ensures var batch := Batch(rows, cutoff, size);
            var left := Filter(rows, OutsideIds(batch));
            && StoredRows(left + others)
            && |OldRows(left, cutoff)| + |batch| == |OldRows(rows, cutoff)|
            && RecentRows(left, cutoff) == RecentRows(rows, cutoff)
            && (batch == [] ==> OldRows(rows, cutoff) == [] && left == RecentRows(left, cutoff))
  {
    var batch := Batch(rows, cutoff, size);
    StoredNoDup(rows);
    FilterElements(rows, OutsideIds(batch));
    StoredShrinks(rows, Filter(rows, OutsideIds(batch)), others);
    DeletingBatch(rows, cutoff, size);
    BatchElements(rows, cutoff, size);
    if batch == [] {
      FilterElements(rows, Old(cutoff));
      var left := Filter(rows, OutsideIds(batch));
      forall r | r in left ensures Not(Old(cutoff))(r) {
        assert r in rows && r !in OldRows(rows, cutoff);
      }
      FilterAll(left, Not(Old(cutoff)));
    }
  }

  lemma AfterArrival(start: seq<AuditRow>, rows: seq<AuditRow>, cutoff: int, total: nat,
                     arrivals: seq<seq<AuditRow>>, k: int)
    requires Cleaning(start, rows, cutoff, total, arrivals, k) && k < |arrivals|
    requires forall r :: r in Arrived(arrivals) ==> !IsOld(r, cutoff)
    ensures Cleaning(start, rows + arrivals[k], cutoff, total, arrivals, k + 1)
    ensures OldRows(rows + arrivals[k], cutoff) == OldRows(rows, cutoff)
  {
    ArrivedPrefix(arrivals, k);
    Associative(rows, arrivals[k], Arrived(arrivals[k + 1..]));
    Associative(RecentRows(start, cutoff), Arrived(arrivals[..k]), arrivals[k]);
    ArrivalIsRecent(arrivals, k);
    RecentArrival(rows, arrivals[k], cutoff);
  }

  lemma RecentArrival(rows: seq<AuditRow>, more: seq<AuditRow>, cutoff: int)
    requires forall r :: r in more ==> !IsOld(r, cutoff)
    ensures OldRows(rows + more, cutoff) == OldRows(rows, cutoff)
    ensures RecentRows(rows + more, cutoff) == RecentRows(rows, cutoff) + more
  {
    FilterAppend(rows, more, Old(cutoff));
    FilterAppend(rows, more, Not(Old(cutoff)));
    FilterAll(more, Not(Old(cutoff)));
    FilterSplit(more, Old(cutoff));
    assert OldRows(rows, cutoff) + [] == OldRows(rows, cutoff);
  }

  lemma {:induction false} ArrivalIsRecent(arrivals: seq<seq<AuditRow>>, k: int)
    requires 0 <= k < |arrivals|
    ensures forall r :: r in arrivals[k] ==> r in Arrived(arrivals)
  {
    if k > 0 {
      ArrivalIsRecent(arrivals[1..], k - 1);
    }
  }
}
