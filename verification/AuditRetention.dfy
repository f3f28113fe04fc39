/** Retention of audit logs: the Python reference, the SQL window query, and the nightly batch delete. */
module AuditRetention {
  import opened Decimal
  import opened Lists
  import opened Options
  import opened Sorting
  import opened TextRuns

  datatype AuditRow = AuditRow(
    id: Option<int>, userId: Option<int>, telegramId: Option<string>, action: Option<string>, createdAt: Option<int>)
  {
    function Id(): int {
      if id.Some? then id.value else 0
    }

    function Created(): int {
      if createdAt.Some? then createdAt.value else 0
    }

    function Action(): string {
      if action.Some? then action.value else ""
    }

    function Telegram(): string {
      if telegramId.Some? then telegramId.value else ""
    }
  }

  /** A row as the table's schema allows it, key and required columns present. */
  predicate StoredRow(r: AuditRow) {
    r.id.Some? && r.telegramId.Some? && r.action.Some? && r.createdAt.Some?
  }

  ghost predicate StoredRows(rows: seq<AuditRow>) {
    && (forall r :: r in rows ==> StoredRow(r))
    && forall i, j :: 0 <= i < j < |rows| ==> rows[i].id != rows[j].id
  }

  // ---- Which rows are ranked, and in which group ----

  function ExcludedActions(names: seq<string>): set<string> {
    set name | name in names && Strip(name) != "" :: Strip(name)
  }

  predicate RankedByReference(r: AuditRow, excluded: set<string>) {
    Strip(r.Action()) !in excluded
  }

  /** `action <> ALL(excluded)`: a missing action compares as unknown unless the list is empty. */
  predicate RankedBySql(r: AuditRow, excluded: set<string>) {
    excluded == {} || (r.action.Some? && r.action.value !in excluded)
  }

  function ReferenceKey(r: AuditRow): string {
    Strip(if r.userId.Some? && r.userId.value != 0 then IntText(r.userId.value)
          else if r.Telegram() != "" then r.Telegram()
          else "anonymous")
  }

  /** `COALESCE(user_id::TEXT, NULLIF(telegram_id, ''), 'anonymous')` */
  function SqlKey(r: AuditRow): string {
    if r.userId.Some? then IntText(r.userId.value)
    else if r.Telegram() != "" then r.Telegram()
    else "anonymous"
  }

  /** The two keys of a row agree exactly in these cases. */
  predicate KeysComparable(r: AuditRow) {
    if r.userId.Some? then r.userId.value != 0 || (r.Telegram() != "" && Strip(r.Telegram()) == "0")
    else Strip(r.Telegram()) == r.Telegram()
  }

  lemma KeysAgreeExactlyWhen(r: AuditRow)
    ensures ReferenceKey(r) == SqlKey(r) <==> KeysComparable(r)
  {
    StripTrims("anonymous");
    assert Trimmed("anonymous");
    if r.userId.Some? {
      StripTrims(IntText(r.userId.value));
      ZeroText();
    } else {
      assert Strip("") == "";
    }
  }

  lemma ZeroText()
    ensures IntText(0) == "0" && "anonymous" != "0"
  {
  }

  lemma ExcludedAreTrimmed(names: seq<string>, action: string)
    requires action in ExcludedActions(names)
    ensures Trimmed(action) && Strip(action) == action
  {
    var name :| name in names && action == Strip(name);
    StripTrims(name);
    StripTrims(action);
  }

  /** Both queries rank a row or both do not, unless trimming alone makes its action an excluded one. */
  lemma RankingAgreesExactlyWhen(r: AuditRow, names: seq<string>)
    requires StoredRow(r)
    ensures (RankedByReference(r, ExcludedActions(names)) <==> RankedBySql(r, ExcludedActions(names)))
            <==> (Strip(r.Action()) in ExcludedActions(names) ==> Trimmed(r.Action()))
  {
    StripTrims(r.Action());
    if r.Action() in ExcludedActions(names) {
      ExcludedAreTrimmed(names, r.Action());
    }
  }

  // ---- The ranking ----

  /** `ORDER BY created_at DESC, id DESC` */
  predicate Newer(a: AuditRow, b: AuditRow) {
    a.Created() > b.Created() || (a.Created() == b.Created() && a.Id() > b.Id())
  }

  predicate NewestFirst(a: AuditRow, b: AuditRow) {
    !Newer(b, a)
  }

  lemma NewestFirstTotal()
    ensures TotalPreorder(NewestFirst)
  {
  }

  /** The rows of one group of the reference. */
  function InGroup(excluded: set<string>, key: string): AuditRow -> bool {
    r => RankedByReference(r, excluded) && ReferenceKey(r) == key
  }

  /** The rows of one partition of the window query. */
  function InPartition(excluded: set<string>, key: string): AuditRow -> bool {
    r => RankedBySql(r, excluded) && SqlKey(r) == key
  }

  function Group(rows: seq<AuditRow>, excluded: set<string>, key: string): seq<AuditRow> {
    Filter(rows, InGroup(excluded, key))
  }

  /** The rows of a group that come before `r` when the newest come first. */
  function AheadAmong(rows: seq<AuditRow>, mates: AuditRow -> bool, r: AuditRow): set<AuditRow> {
    set s | s in rows && mates(s) && Newer(s, r)
  }

  function Retained(retentionCount: int): nat {
    if retentionCount > 0 then retentionCount else 0
  }

  /** A positive count is used as it is; any other keeps nothing. */
  lemma RetentionIsConfigured(retentionCount: int)
    ensures retentionCount > 0 ==> Retained(retentionCount) == retentionCount
    ensures retentionCount <= 0 ==> Retained(retentionCount) == 0
  {
  }

  /** What the reference deletes: ids found behind the first `n` places of a sorted group. */
  ghost predicate InTail(rows: seq<AuditRow>, n: nat, excluded: set<string>, key: string, x: int) {
    exists k :: n <= k < |Group(rows, excluded, key)| && Sort(Group(rows, excluded, key), NewestFirst)[k].id == Some(x)
  }

  ghost predicate ReferenceDeletes(rows: seq<AuditRow>, n: nat, excluded: set<string>, x: int) {
    exists key :: InTail(rows, n, excluded, key, x)
  }

  // ---- The Python reference ----

  /** The ids found from place `n` on. */
  method TailIds(ordered: seq<AuditRow>, n: nat) returns (ids: set<int>)
    ensures forall x :: x in ids <==> exists k :: n <= k < |ordered| && ordered[k].id == Some(x)
  {
    ids := {};
    if n < |ordered| {
      for k := n to |ordered|
        invariant forall x :: x in ids <==> exists i :: n <= i < k && ordered[i].id == Some(x)
      {
        if ordered[k].id.Some? {
          ids := ids + {ordered[k].id.value};
        }
      }
    }
  }

  /** The dictionary holds the group of every key that has one. */
  ghost predicate Grouped(rows: seq<AuditRow>, excluded: set<string>, grouped: map<string, seq<AuditRow>>) {
    forall key :: if key in grouped then grouped[key] == Group(rows, excluded, key)
      else Group(rows, excluded, key) == []
  }

  method GroupByUser(rows: seq<AuditRow>, excluded: set<string>) returns (grouped: map<string, seq<AuditRow>>)
    ensures Grouped(rows, excluded, grouped)
  {
    grouped := map[];
    for i := 0 to |rows|
      invariant Grouped(rows[..i], excluded, grouped)
    {
      grouped := GroupRow(rows, i, excluded, grouped);
    }
    assert rows[..|rows|] == rows;
  }

  method GroupRow(rows: seq<AuditRow>, i: int, excluded: set<string>, grouped: map<string, seq<AuditRow>>)
      returns (r: map<string, seq<AuditRow>>)
    requires 0 <= i < |rows| && Grouped(rows[..i], excluded, grouped)
    ensures Grouped(rows[..i + 1], excluded, r)
  {
    var row := rows[i];
    r := grouped;
    if RankedByReference(row, excluded) {
      var userKey := ReferenceKey(row);
      var before := if userKey in grouped then grouped[userKey] else [];
      r := grouped[userKey := before + [row]];
    }
    forall key
      ensures if key in r then r[key] == Group(rows[..i + 1], excluded, key)
              else Group(rows[..i + 1], excluded, key) == []
    {
      GroupSnoc(rows, i, excluded, key);
    }
  }

  lemma GroupSnoc(rows: seq<AuditRow>, i: int, excluded: set<string>, key: string)
    requires 0 <= i < |rows|
    ensures Group(rows[..i + 1], excluded, key) ==
            if RankedByReference(rows[i], excluded) && ReferenceKey(rows[i]) == key
            then Group(rows[..i], excluded, key) + [rows[i]]
            else Group(rows[..i], excluded, key)
  {
    assert Group(rows[..i], excluded, key) + [] == Group(rows[..i], excluded, key);
    FilterPrefix(rows, i, InGroup(excluded, key));
  }

  method ComputeRetentionDeleteIds(rows: seq<AuditRow>, retentionCount: int, excludeActions: seq<string>)
    returns (deleteIds: set<int>)
    ensures forall x :: x in deleteIds <==>
            ReferenceDeletes(rows, Retained(retentionCount), ExcludedActions(excludeActions), x)
  {
    var retention := Retained(retentionCount);
    var excluded := ExcludedActions(excludeActions);
    var grouped := GroupByUser(rows, excluded);
    deleteIds := {};
    var todo := grouped.Keys;
    while todo != {}
      invariant todo <= grouped.Keys
      invariant forall x :: x in deleteIds <==>
                exists key :: key in grouped.Keys - todo && InTail(rows, retention, excluded, key, x)
      decreases todo
    {
      var userKey :| userKey in todo;
      var ordered := Sort(grouped[userKey], NewestFirst);
      var ids := TailIds(ordered, retention);
      assert forall x :: x in ids <==> InTail(rows, retention, excluded, userKey, x);
      deleteIds := deleteIds + ids;
      todo := todo - {userKey};
    }
    forall x, key | InTail(rows, retention, excluded, key, x) ensures x in deleteIds {
      assert key in grouped;
    }
  }

  // ---- The SQL window query ----

  /** The rows that `ROW_NUMBER` counts in front of `r` in its partition. */
  function Ahead(rows: seq<AuditRow>, excluded: set<string>, r: AuditRow): set<AuditRow> {
    AheadAmong(rows, InPartition(excluded, SqlKey(r)), r)
  }

  /** `rn > n` for the ranked row `r` */
  predicate Victim(rows: seq<AuditRow>, n: nat, excluded: set<string>, r: AuditRow) {
    RankedBySql(r, excluded) && 1 + |Ahead(rows, excluded, r)| > n
  }

  /** Both queries rank the same rows, and put two of them into one group or into two. */
  ghost predicate SamePartition(rows: seq<AuditRow>, excluded: set<string>) {
    && (forall r :: r in rows ==> RankedAlike(r, excluded))
    && forall r, s :: r in rows && s in rows ==> GroupedAlike(r, s, excluded)
  }

  predicate RankedAlike(r: AuditRow, excluded: set<string>) {
    RankedByReference(r, excluded) <==> RankedBySql(r, excluded)
  }

  predicate GroupedAlike(r: AuditRow, s: AuditRow, excluded: set<string>) {
    RankedBySql(r, excluded) && RankedBySql(s, excluded) ==>
      (ReferenceKey(r) == ReferenceKey(s) <==> SqlKey(r) == SqlKey(s))
  }

  /** Rows whose keys agree one by one are partitioned alike. */
  lemma EqualKeysPartitionAlike(rows: seq<AuditRow>, excluded: set<string>)
    requires forall r :: r in rows ==> KeysComparable(r) && RankedAlike(r, excluded)
    ensures SamePartition(rows, excluded)
  {
    forall r | r in rows ensures ReferenceKey(r) == SqlKey(r) {
      KeysAgreeExactlyWhen(r);
    }
  }

  lemma StoredNoDup(rows: seq<AuditRow>)
    requires StoredRows(rows)
    ensures NoDup(rows)
    ensures forall r, s :: r in rows && s in rows && r != s ==> r.Id() != s.Id()
  {
  }

  lemma PrefixIsNewer(q: seq<AuditRow>, k: int)
    requires NoDup(q) && SortedBy(q, NewestFirst) && 0 <= k < |q|
    requires forall i, j :: 0 <= i < j < |q| ==> q[i].Id() != q[j].Id()
    ensures forall s :: s in q[..k] <==> s in q && Newer(s, q[k])
  {
    forall s ensures s in q[..k] <==> s in q && Newer(s, q[k]) {
      if s in q {
        var i :| 0 <= i < |q| && q[i] == s;
        if i < k {
          assert NewestFirst(q[i], q[k]);
          assert q[..k][i] == s;
        } else if i > k {
          assert NewestFirst(q[k], q[i]);
        }
      }
    }
  }

  lemma SortedGroup(rows: seq<AuditRow>, mates: AuditRow -> bool)
    requires StoredRows(rows)
    ensures var q := Sort(Filter(rows, mates), NewestFirst);
            && NoDup(q) && SortedBy(q, NewestFirst)
            && (forall s :: s in q <==> s in rows && mates(s))
            && forall i, j :: 0 <= i < j < |q| ==> q[i].Id() != q[j].Id()
  {
    var g := Filter(rows, mates);
    var q := Sort(g, NewestFirst);
    StoredNoDup(rows);
    FilterElements(rows, mates);
    SortElements(g, NewestFirst);
    SortNoDup(g, NewestFirst);
    NewestFirstTotal();
    SortSorted(g, NewestFirst);
    forall i, j | 0 <= i < j < |q| ensures q[i].Id() != q[j].Id() {
      assert q[i] in q && q[j] in q;
    }
  }

  /** In a sorted group the place of a row is the number of rows of the group that come before it. */
  lemma PlaceIsRank(rows: seq<AuditRow>, mates: AuditRow -> bool, k: int)
    requires StoredRows(rows) && 0 <= k < |Filter(rows, mates)|
    ensures var r := Sort(Filter(rows, mates), NewestFirst)[k];
            r in rows && mates(r) && |AheadAmong(rows, mates, r)| == k
  {
    var q := Sort(Filter(rows, mates), NewestFirst);
    SortedGroup(rows, mates);
    PrefixIsNewer(q, k);
    assert q[k] in q;
    assert AheadAmong(rows, mates, q[k]) == set s | s in q[..k];
    ElementCount(q[..k]);
  }

  /** The rows of the same group in front of `r`, as the reference groups them. */
  function ReferenceAhead(rows: seq<AuditRow>, excluded: set<string>, r: AuditRow): set<AuditRow> {
    AheadAmong(rows, InGroup(excluded, ReferenceKey(r)), r)
  }

  ghost predicate ReferenceVictim(rows: seq<AuditRow>, n: nat, excluded: set<string>, r: AuditRow) {
    RankedByReference(r, excluded) && 1 + |ReferenceAhead(rows, excluded, r)| > n
  }

  lemma TailRowIsVictim(rows: seq<AuditRow>, n: nat, excluded: set<string>, key: string, r: AuditRow)
    requires StoredRows(rows) && r in rows && InTail(rows, n, excluded, key, r.Id())
    ensures ReferenceVictim(rows, n, excluded, r)
  {
    var g := Group(rows, excluded, key);
    var k :| n <= k < |g| && Sort(g, NewestFirst)[k].id == Some(r.Id());
    PlaceIsRank(rows, InGroup(excluded, key), k);
    StoredNoDup(rows);
  }

  lemma VictimIsInTail(rows: seq<AuditRow>, n: nat, excluded: set<string>, r: AuditRow)
    requires StoredRows(rows) && r in rows && ReferenceVictim(rows, n, excluded, r)
    ensures InTail(rows, n, excluded, ReferenceKey(r), r.Id())
  {
    var g := Group(rows, excluded, ReferenceKey(r));
    FilterElements(rows, InGroup(excluded, ReferenceKey(r)));
    SortElements(g, NewestFirst);
    var k :| 0 <= k < |g| && Sort(g, NewestFirst)[k] == r;
    PlaceIsRank(rows, InGroup(excluded, ReferenceKey(r)), k);
  }

  /** The reference deletes the rows with `n` or more rows of their group ahead of them. */
  lemma ReferenceDeletesByRank(rows: seq<AuditRow>, n: nat, excluded: set<string>, r: AuditRow)
    requires StoredRows(rows) && r in rows
    ensures ReferenceDeletes(rows, n, excluded, r.Id()) <==> ReferenceVictim(rows, n, excluded, r)
  {
    if key :| InTail(rows, n, excluded, key, r.Id()) {
      TailRowIsVictim(rows, n, excluded, key, r);
    }
    if ReferenceVictim(rows, n, excluded, r) {
      VictimIsInTail(rows, n, excluded, r);
    }
  }

  /** On stored rows that both queries partition alike, the reference deletes exactly the window query's victims. */
  lemma ReferenceRefinesSql(rows: seq<AuditRow>, n: nat, excluded: set<string>, r: AuditRow)
    requires StoredRows(rows) && SamePartition(rows, excluded) && r in rows
    ensures ReferenceDeletes(rows, n, excluded, r.Id()) <==> Victim(rows, n, excluded, r)
  {
    ReferenceDeletesByRank(rows, n, excluded, r);
    assert RankedAlike(r, excluded);
    if RankedBySql(r, excluded) {
      forall s ensures s in ReferenceAhead(rows, excluded, r) <==> s in Ahead(rows, excluded, r) {
        if s in rows {
          assert RankedAlike(s, excluded) && GroupedAlike(s, r, excluded);
        }
      }
      assert ReferenceAhead(rows, excluded, r) == Ahead(rows, excluded, r);
    }
  }

  // ---- And no weaker condition will do ----

  /** Both queries delete the same rows of every table made of these rows, whatever number is kept. */
  ghost predicate AgreeOnEveryTable(rows: seq<AuditRow>, excluded: set<string>) {
    forall table: seq<AuditRow>, n: nat, r: AuditRow ::
      StoredRows(table) && (forall s :: s in table ==> s in rows) && r in table ==>
        (ReferenceDeletes(table, n, excluded, r.Id()) <==> Victim(table, n, excluded, r))
  }

  /** A table of one row, of which none is kept, shows whether the row is ranked. */
  lemma LoneRow(r: AuditRow, excluded: set<string>)
    requires StoredRow(r)
    ensures ReferenceDeletes([r], 0, excluded, r.Id()) <==> RankedByReference(r, excluded)
    ensures Victim([r], 0, excluded, r) <==> RankedBySql(r, excluded)
  {
    ReferenceDeletesByRank([r], 0, excluded, r);
  }

  lemma AheadOfTwo(r: AuditRow, s: AuditRow, mates: AuditRow -> bool)
    requires Newer(s, r)
    ensures AheadAmong([r, s], mates, r) == if mates(s) then {s} else {}
  {
    assert forall x :: x in [r, s] <==> x == r || x == s;
  }

  /** A table of two ranked rows, of which one is kept, shows whether they share a group. */
  lemma TwoRows(r: AuditRow, s: AuditRow, excluded: set<string>)
    requires StoredRows([r, s]) && Newer(s, r)
    requires RankedByReference(r, excluded) && RankedByReference(s, excluded) && RankedBySql(r, excluded) &&
             RankedBySql(s, excluded)
    ensures ReferenceDeletes([r, s], 1, excluded, r.Id()) <==> ReferenceKey(s) == ReferenceKey(r)
    ensures Victim([r, s], 1, excluded, r) <==> SqlKey(s) == SqlKey(r)
  {
    AheadOfTwo(r, s, InGroup(excluded, ReferenceKey(r)));
    AheadOfTwo(r, s, InPartition(excluded, SqlKey(r)));
    assert r in [r, s];
    ReferenceDeletesByRank([r, s], 1, excluded, r);
  }

  lemma AgreementRanksAlike(rows: seq<AuditRow>, excluded: set<string>, r: AuditRow)
    requires StoredRows(rows) && AgreeOnEveryTable(rows, excluded) && r in rows
    ensures RankedAlike(r, excluded)
  {
    LoneRow(r, excluded);
    assert r in [r];
  }

  lemma AgreementGroupsNewer(rows: seq<AuditRow>, excluded: set<string>, r: AuditRow, s: AuditRow)
    requires StoredRows([r, s]) && AgreeOnEveryTable(rows, excluded) && r in rows && s in rows && Newer(s, r)
    requires RankedAlike(r, excluded) && RankedAlike(s, excluded)
    ensures GroupedAlike(r, s, excluded)
  {
    if RankedBySql(r, excluded) && RankedBySql(s, excluded) {
      TwoRows(r, s, excluded);
      assert r in [r, s];
    }
  }

  lemma AgreementGroupsAlike(rows: seq<AuditRow>, excluded: set<string>, r: AuditRow, s: AuditRow)
    requires StoredRows(rows) && AgreeOnEveryTable(rows, excluded) && r in rows && s in rows
    ensures GroupedAlike(r, s, excluded)
  {
    if r != s {
      AgreementRanksAlike(rows, excluded, r);
      AgreementRanksAlike(rows, excluded, s);
      if Newer(s, r) {
        AgreementGroupsNewer(rows, excluded, r, s);
      } else {
        AgreementGroupsNewer(rows, excluded, s, r);
      }
    }
  }

  /** The two queries agree on every table made of some stored rows exactly when they partition these rows alike. */
  lemma AgreeOnEveryTableExactlyWhen(rows: seq<AuditRow>, excluded: set<string>)
    requires StoredRows(rows)
    ensures AgreeOnEveryTable(rows, excluded) <==> SamePartition(rows, excluded)
  {
    if AgreeOnEveryTable(rows, excluded) {
      forall r | r in rows ensures RankedAlike(r, excluded) {
        AgreementRanksAlike(rows, excluded, r);
      }
      forall r, s | r in rows && s in rows ensures GroupedAlike(r, s, excluded) {
        AgreementGroupsAlike(rows, excluded, r, s);
      }
    }
    if SamePartition(rows, excluded) {
      forall table: seq<AuditRow>, n: nat, r: AuditRow
        | StoredRows(table) && (forall s :: s in table ==> s in rows) && r in table
        ensures ReferenceDeletes(table, n, excluded, r.Id()) <==> Victim(table, n, excluded, r)
      {
        ReferenceRefinesSql(table, n, excluded, r);
      }
    }
  }

  // ---- Pruning twice ----

  function Survives(rows: seq<AuditRow>, n: nat, excluded: set<string>): AuditRow -> bool {
    r => !Victim(rows, n, excluded, r)
  }

  /** The table after the delete statement. */
  function Pruned(rows: seq<AuditRow>, n: nat, excluded: set<string>): seq<AuditRow> {
    Filter(rows, Survives(rows, n, excluded))
  }

  /** Whatever is ahead of a row has strictly fewer rows ahead of it. */
  lemma AheadAmongIsFewer(rows: seq<AuditRow>, mates: AuditRow -> bool, r: AuditRow, s: AuditRow)
    requires s in AheadAmong(rows, mates, r)
    ensures |AheadAmong(rows, mates, s)| < |AheadAmong(rows, mates, r)|
  {
    var a, b := AheadAmong(rows, mates, s), AheadAmong(rows, mates, r);
    assert a <= b && s in b && s !in a;
    assert b == a + (b - a);
    assert |b - a| > 0;
  }

  /** Deleting victims does not change the place of a survivor. */
  lemma SurvivorKeepsPlace(rows: seq<AuditRow>, n: nat, excluded: set<string>, r: AuditRow)
    requires r in rows && RankedBySql(r, excluded) && !Victim(rows, n, excluded, r)
    ensures Ahead(Pruned(rows, n, excluded), excluded, r) == Ahead(rows, excluded, r)
  {
    FilterElements(rows, Survives(rows, n, excluded));
    forall s | s in Ahead(rows, excluded, r) ensures s in Pruned(rows, n, excluded) {
      AheadAmongIsFewer(rows, InPartition(excluded, SqlKey(r)), r, s);
    }
  }

  /**
   * Keeping the last `n` and then the last `m` keeps the last `min(n, m)`; with `m == n` the second run deletes
   * nothing.
   */
  lemma PruneTwice(rows: seq<AuditRow>, n: nat, m: nat, excluded: set<string>)
    ensures Pruned(Pruned(rows, n, excluded), m, excluded) == Pruned(rows, if n < m then n else m, excluded)
  {
    var once := Pruned(rows, n, excluded);
    var k := if n < m then n else m;
    FilterElements(rows, Survives(rows, n, excluded));
    forall r | r in rows
      ensures Both(Survives(rows, n, excluded), Survives(once, m, excluded))(r) == Survives(rows, k, excluded)(r)
    {
      if RankedBySql(r, excluded) && !Victim(rows, n, excluded, r) {
        SurvivorKeepsPlace(rows, n, excluded, r);
      }
    }
    FilterTwice(rows, Survives(rows, n, excluded), Survives(once, m, excluded));
    FilterSame(rows, Both(Survives(rows, n, excluded), Survives(once, m, excluded)), Survives(rows, k, excluded));
  }

  // ---- What is kept are the youngest rows ----

  /** Created later, or at the same time with a larger id. */
  predicate Younger(s: AuditRow, r: AuditRow)
    requires StoredRow(r) && StoredRow(s)
  {
    s.createdAt.value > r.createdAt.value || (s.createdAt.value == r.createdAt.value && s.id.value > r.id.value)
  }

  lemma LongerAheadIsOlder(rows: seq<AuditRow>, mates: AuditRow -> bool, r: AuditRow, s: AuditRow)
    requires StoredRows(rows) && r in rows && s in rows && mates(r) && mates(s)
    requires |AheadAmong(rows, mates, s)| < |AheadAmong(rows, mates, r)|
    ensures Younger(s, r)
  {
    StoredNoDup(rows);
    if Newer(r, s) {
      AheadAmongIsFewer(rows, mates, s, r);
    }
  }

  /** Of the rows of a partition, a deleted one is older than every one that is kept. */
  lemma VictimsAreOlder(rows: seq<AuditRow>, n: nat, excluded: set<string>, r: AuditRow, s: AuditRow)
    requires StoredRows(rows) && r in rows && s in rows && RankedBySql(s, excluded) && SqlKey(r) == SqlKey(s)
    requires Victim(rows, n, excluded, r) && !Victim(rows, n, excluded, s)
    ensures Younger(s, r)
  {
    LongerAheadIsOlder(rows, InPartition(excluded, SqlKey(r)), r, s);
  }

  /** And so it is in the reference. */
  lemma ReferenceDeletesOlder(rows: seq<AuditRow>, n: nat, excluded: set<string>, r: AuditRow, s: AuditRow)
    requires StoredRows(rows) && r in rows && s in rows && RankedByReference(s, excluded)
    requires ReferenceKey(r) == ReferenceKey(s)
    requires ReferenceDeletes(rows, n, excluded, r.Id()) && !ReferenceDeletes(rows, n, excluded, s.Id())
    ensures Younger(s, r)
  {
    ReferenceDeletesByRank(rows, n, excluded, r);
    ReferenceDeletesByRank(rows, n, excluded, s);
    LongerAheadIsOlder(rows, InGroup(excluded, ReferenceKey(r)), r, s);
  }

  lemma SortedPartition(rows: seq<AuditRow>, n: nat, excluded: set<string>, key: string, k: int)
    requires StoredRows(rows) && 0 <= k < |Filter(rows, InPartition(excluded, key))|
    ensures var r := Sort(Filter(rows, InPartition(excluded, key)), NewestFirst)[k];
            r in rows && InPartition(excluded, key)(r) && (Victim(rows, n, excluded, r) <==> k >= n)
  {
    PlaceIsRank(rows, InPartition(excluded, key), k);
  }

  lemma KeptOfPartition(rows: seq<AuditRow>, n: nat, excluded: set<string>, key: string)
    requires StoredRows(rows)
    ensures var kept := Filter(Pruned(rows, n, excluded), InPartition(excluded, key));
            && NoDup(kept)
            && forall r :: r in kept <==> r in rows && InPartition(excluded, key)(r) && !Victim(rows, n, excluded, r)
  {
    StoredNoDup(rows);
    FilterElements(rows, Survives(rows, n, excluded));
    FilterElements(Pruned(rows, n, excluded), InPartition(excluded, key));
  }

  /** Of every partition exactly `n` rows are kept, or all if there are fewer. */
  lemma KeepsExactly(rows: seq<AuditRow>, n: nat, excluded: set<string>, key: string)
    requires StoredRows(rows)
    ensures var size := |Filter(rows, InPartition(excluded, key))|;
            |Filter(Pruned(rows, n, excluded), InPartition(excluded, key))| == if n < size then n else size
  {
    var mates := InPartition(excluded, key);
    var q, kept := Sort(Filter(rows, mates), NewestFirst), Filter(Pruned(rows, n, excluded), mates);
    var m := if n < |q| then n else |q|;
    SortedGroup(rows, mates);
    KeptOfPartition(rows, n, excluded, key);
    forall k | 0 <= k < |q| ensures q[k] in kept <==> k < m {
      SortedPartition(rows, n, excluded, key, k);
    }
    FirstOnes(q, kept, m);
  }

  lemma FirstOnes(q: seq<AuditRow>, kept: seq<AuditRow>, m: int)
    requires NoDup(q) && NoDup(kept) && 0 <= m <= |q| && forall r :: r in kept ==> r in q
    requires forall k :: 0 <= k < |q| ==> (q[k] in kept <==> k < m)
    ensures |kept| == m
  {
    ElementCount(q[..m]);
    ElementCount(kept);
    assert (set r | r in kept) == (set r | r in q[..m]);
  }

  // ---- Which rows are spared ----

  /** The name, trimmed, is the action; an empty name excludes nothing. */
  predicate Names(name: string, action: string) {
    Strip(name) != "" && Strip(name) == action
  }

  /** Rows whose action a name in the list stands for are never deleted; where none is kept, all others are. */
  lemma ExcludedRowsAreSpared(rows: seq<AuditRow>, n: nat, names: seq<string>, r: AuditRow)
    requires StoredRows(rows) && r in rows
    ensures (exists name :: name in names && Names(name, r.action.value)) ==>
            !Victim(rows, n, ExcludedActions(names), r)
    ensures (forall name :: name in names ==> !Names(name, r.action.value)) ==>
              Victim(rows, 0, ExcludedActions(names), r)
  {
    NamedAreExcluded(names, r.action.value);
  }

  lemma NamedAreExcluded(names: seq<string>, action: string)
    ensures action in ExcludedActions(names) <==> exists name :: name in names && Names(name, action)
  {
  }

  /** In the reference it is the trimmed action that the list is about. */
  lemma ReferenceSparesExcluded(rows: seq<AuditRow>, n: nat, names: seq<string>, r: AuditRow)
    requires StoredRows(rows) && r in rows
    ensures (exists name :: name in names && Names(name, Strip(r.action.value))) ==>
              !ReferenceDeletes(rows, n, ExcludedActions(names), r.Id())
    ensures (forall name :: name in names ==> !Names(name, Strip(r.action.value))) ==>
              ReferenceDeletes(rows, 0, ExcludedActions(names), r.Id())
  {
    NamedAreExcluded(names, Strip(r.action.value));
    ReferenceDeletesByRank(rows, n, ExcludedActions(names), r);
    ReferenceDeletesByRank(rows, 0, ExcludedActions(names), r);
  }
}
