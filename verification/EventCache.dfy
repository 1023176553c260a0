/**
 * The incremental event view. Audit rows are append-only, but a rolled-back transaction takes its rows with it and the
 * next writes reuse their row numbers, so the cached view has to notice that its tail is gone. Row `n` of the table is
 * `table[n - 1]`; ids and times are compared the way their texts are.
 */
module EventCache {
  import opened Basics
  import Sorting

  datatype Snapshot = Snapshot(isEvent: bool, eventType: Option<string>, runId: Option<nat>, data: nat)
  datatype Payload = Absent | Undecodable | Decoded(snapshot: Snapshot)
  datatype AuditRow = AuditRow(id: nat, at: nat, ofRun: bool, entity: nat, newState: Option<string>, reason: string, payload: Payload)
  datatype Event = Event(id: nat, at: nat, runId: Option<nat>, kind: string, data: nat)
  datatype Tail = Tail(rid: nat, id: nat, at: nat)
  datatype Cache = Cache(events: seq<Event>, rowid: nat, tail: Option<Tail>)

  const EMPTY := Cache([], 0, None)

  // ---- What one row contributes ----

  predicate IsShown(row: AuditRow) {
    (row.payload.Decoded? && row.payload.snapshot.isEvent) || row.ofRun
  }

  function Project(row: AuditRow): Event
    requires !row.payload.Undecodable?
  {
    var fallback := if row.newState.Some? then row.newState.value else row.reason;
    var runOf := if row.ofRun then Some(row.entity) else None;
    match row.payload
    case Decoded(s) =>
      Event(row.id, row.at, if s.runId.Some? then s.runId else runOf, if s.eventType.Some? then s.eventType.value else fallback, s.data)
    case _ => Event(row.id, row.at, runOf, fallback, 0)
  }

  predicate Decodable(rows: seq<AuditRow>) {
    forall i :: 0 <= i < |rows| ==> !rows[i].payload.Undecodable?
  }

  function ProjectAll(rows: seq<AuditRow>): seq<Event>
    requires Decodable(rows)
  {
    if rows == [] then []
    else ProjectAll(rows[..|rows| - 1]) + if IsShown(rows[|rows| - 1]) then [Project(rows[|rows| - 1])] else []
  }

  function FirstBad(rows: seq<AuditRow>): (bad: Option<nat>)
    ensures bad.None? <==> Decodable(rows)
    ensures bad.Some? ==> bad.value < |rows| && rows[bad.value].payload.Undecodable? && Decodable(rows[..bad.value])
  {
    if rows == [] then None
    else
      var n := |rows| - 1;
      var front := FirstBad(rows[..n]);
      assert forall i :: 0 <= i < n ==> rows[..n][i] == rows[i];
      if front.Some? then (assert rows[..n][..front.value] == rows[..front.value]; front)
      else if rows[n].payload.Undecodable? then Some(n) else None
  }

  // ---- Order ----

  predicate Before(a: Event, b: Event) {
    a.at < b.at || (a.at == b.at && a.id <= b.id)
  }

  predicate Sorted(s: seq<Event>) {
    Sorting.SortedBy(s, Before)
  }

  function SortEvents(s: seq<Event>): seq<Event> {
    Sorting.Sort(s, Before)
  }

  lemma SortedCons(x: Event, s: seq<Event>)
    requires Sorted(s) && (s == [] || Before(x, s[0]))
    ensures Sorted([x] + s)
  {
    Sorting.SortedCons(x, s, Before);
  }

  lemma SortKeeps(s: seq<Event>)
    ensures Sorted(SortEvents(s)) && multiset(SortEvents(s)) == multiset(s)
  {
    Sorting.SortKeeps(s, Before);
  }

  function Merge(a: seq<Event>, b: seq<Event>): seq<Event> {
    if a == [] then b
    else if b == [] then a
    else if Before(a[0], b[0]) then [a[0]] + Merge(a[1..], b)
    else [b[0]] + Merge(a, b[1..])
  }

  /** Where a merge stands after `i` events of one side and `j` of the other. */
  lemma MergeAt(a: seq<Event>, b: seq<Event>, i: nat, j: nat)
    requires i <= |a| && j <= |b|
    ensures i == |a| || j == |b| ==> Merge(a[i..], b[j..]) == a[i..] + b[j..]
    ensures i < |a| && j < |b| && Before(a[i], b[j]) ==> Merge(a[i..], b[j..]) == [a[i]] + Merge(a[i + 1..], b[j..])
    ensures i < |a| && j < |b| && !Before(a[i], b[j]) ==> Merge(a[i..], b[j..]) == [b[j]] + Merge(a[i..], b[j + 1..])
  {
    if i < |a| && j < |b| {
      assert a[i..][1..] == a[i + 1..] && b[j..][1..] == b[j + 1..];
    }
  }

  lemma Regroup(a: seq<Event>, x: Event, b: seq<Event>)
    ensures a + ([x] + b) == a + [x] + b
  {
  }

  lemma MergeHead(a: seq<Event>, b: seq<Event>)
    requires a != [] || b != []
    ensures Merge(a, b) != [] && Merge(a, b)[0] == if b == [] || (a != [] && Before(a[0], b[0])) then a[0] else b[0]
  {
  }

  lemma {:induction false} MergeSorted(a: seq<Event>, b: seq<Event>)
    requires Sorted(a) && Sorted(b)
    ensures Sorted(Merge(a, b))
    decreases |a| + |b|
  {
    if a != [] && b != [] {
      if Before(a[0], b[0]) {
        MergeSorted(a[1..], b);
        MergeHead(a[1..], b);
        SortedCons(a[0], Merge(a[1..], b));
      } else {
        MergeSorted(a, b[1..]);
        MergeHead(a, b[1..]);
        SortedCons(b[0], Merge(a, b[1..]));
      }
    }
  }

  lemma {:induction false} MergeContents(a: seq<Event>, b: seq<Event>)
    ensures multiset(Merge(a, b)) == multiset(a) + multiset(b)
    decreases |a| + |b|
  {
    if a != [] && b != [] {
      if Before(a[0], b[0]) {
        assert a == [a[0]] + a[1..];
        MergeContents(a[1..], b);
      } else {
        assert b == [b[0]] + b[1..];
        MergeContents(a, b[1..]);
      }
    }
  }

  /** Merging two sorted views keeps every event of both, in order. */
  lemma MergeKeeps(a: seq<Event>, b: seq<Event>)
    requires Sorted(a) && Sorted(b)
    ensures Sorted(Merge(a, b)) && multiset(Merge(a, b)) == multiset(a) + multiset(b)
  {
    MergeSorted(a, b);
    MergeContents(a, b);
  }

  /** The fast path of the refresh: a batch that starts after the cache ends is simply appended. */
  lemma {:induction false} AppendIsMerge(a: seq<Event>, b: seq<Event>)
    requires Sorted(a) && b != [] && (a == [] || Before(a[|a| - 1], b[0]))
    ensures Merge(a, b) == a + b
  {
    if a == [] {
      assert a + b == b;
    } else {
      assert Before(a[0], b[0]);
      AppendIsMerge(a[1..], b);
      assert a == [a[0]] + a[1..];
    }
  }

  predicate IdsIdentify(s: seq<Event>) {
    forall x, y :: x in s && y in s && x.id == y.id ==> x == y
  }

  /** With identifying ids there is only one sorted order of the same events. */
  lemma {:induction false} SortedUnique(a: seq<Event>, b: seq<Event>)
    requires Sorted(a) && Sorted(b) && multiset(a) == multiset(b) && IdsIdentify(a)
    ensures a == b
  {
    assert |multiset(a)| == |multiset(b)|;
    if a != [] {
      SameHead(a, b);
      assert a == [a[0]] + a[1..] && b == [b[0]] + b[1..];
      assert multiset(a[1..]) == multiset(a) - multiset{a[0]};
      assert multiset(b[1..]) == multiset(b) - multiset{b[0]};
      SortedUnique(a[1..], b[1..]);
    }
  }

  lemma SameHead(a: seq<Event>, b: seq<Event>)
    requires Sorted(a) && Sorted(b) && multiset(a) == multiset(b) && IdsIdentify(a) && a != [] && b != []
    ensures a[0] == b[0]
  {
    assert a[0] in multiset(a) && b[0] in multiset(b);
    assert a[0] in b && b[0] in a;
    assert Before(a[0], b[0]) && Before(b[0], a[0]);
  }

  // ---- One refresh ----

  predicate TailStands(t: Tail, table: seq<AuditRow>) {
    1 <= t.rid <= |table| && table[t.rid - 1].id == t.id && table[t.rid - 1].at == t.at
  }

  function Checked(c: Cache, table: seq<AuditRow>): Cache {
    if c.tail.Some? && !TailStands(c.tail.value, table) then EMPTY else c
  }

  function Newer(c: Cache, table: seq<AuditRow>): seq<AuditRow> {
    if c.rowid <= |table| then table[c.rowid..] else []
  }

  function TailOf(rows: seq<AuditRow>, start: nat, i: nat): Tail
    requires i < |rows|
  {
    Tail(start + i + 1, rows[i].id, rows[i].at)
  }

  datatype Reading = Reading(cache: Cache, events: Result<seq<Event>>)

  /** The cached read. A row that cannot be decoded throws after the cursor has already moved past it. */
  function Refresh(c: Cache, table: seq<AuditRow>): Reading {
    var base := Checked(c, table);
    var rows := Newer(base, table);
    if rows == [] then Reading(base, Ok(base.events))
    else
      match FirstBad(rows)
      case Some(j) => Reading(Cache(base.events, base.rowid + j + 1, Some(TailOf(rows, base.rowid, j))), Err("UNDECODABLE"))
      case None =>
        var events := Merge(base.events, SortEvents(ProjectAll(rows)));
        Reading(Cache(events, base.rowid + |rows|, Some(TailOf(rows, base.rowid, |rows| - 1))), Ok(events))
  }

  /** The read it must agree with: decode, filter and sort the whole table. */
  function FromScratch(table: seq<AuditRow>): Result<seq<Event>> {
    if Decodable(table) then Ok(SortEvents(ProjectAll(table))) else Err("UNDECODABLE")
  }

  // ---- The cache follows a table it has seen ----

  /**
   * `seen` are the rows up to the cursor. If all of them can be decoded the view is their sorted projection; if a read
   * threw over one of them, nothing is promised about the view.
   */
  ghost predicate Follows(c: Cache, seen: seq<AuditRow>) {
    && (Decodable(seen) ==> c.events == SortEvents(ProjectAll(seen)))
    && c.rowid == |seen|
    && c.tail == if seen == [] then None else Some(TailOf(seen, 0, |seen| - 1))
  }

  ghost predicate UniqueIds(table: seq<AuditRow>) {
    forall i, j :: 0 <= i < j < |table| ==> table[i].id != table[j].id
  }

  lemma {:induction false} ProjectAllSplit(a: seq<AuditRow>, b: seq<AuditRow>)
    requires Decodable(a) && Decodable(b)
    ensures Decodable(a + b) && ProjectAll(a + b) == ProjectAll(a) + ProjectAll(b)
    decreases |b|
  {
    if b == [] {
      assert a + b == a;
    } else {
      var n := |b| - 1;
      ProjectAllSplit(a, b[..n]);
      assert (a + b)[..|a + b| - 1] == a + b[..n];
    }
  }

  lemma {:induction false} ProjectedFrom(rows: seq<AuditRow>, e: Event) returns (i: nat)
    requires Decodable(rows) && e in ProjectAll(rows)
    ensures i < |rows| && e == Project(rows[i])
  {
    var n := |rows| - 1;
    if IsShown(rows[n]) && e == Project(rows[n]) {
      i := n;
    } else {
      i := ProjectedFrom(rows[..n], e);
    }
  }

  lemma ProjectedIdentify(rows: seq<AuditRow>)
    requires Decodable(rows) && UniqueIds(rows)
    ensures IdsIdentify(ProjectAll(rows))
  {
    forall x, y | x in ProjectAll(rows) && y in ProjectAll(rows) && x.id == y.id ensures x == y {
      var i := ProjectedFrom(rows, x);
      var j := ProjectedFrom(rows, y);
    }
  }

  /** Merging the sorted new batch into the sorted old view sorts the whole. */
  lemma MergeIsSort(a: seq<AuditRow>, b: seq<AuditRow>)
    requires Decodable(a) && Decodable(b) && UniqueIds(a + b)
    ensures Decodable(a + b)
    ensures Merge(SortEvents(ProjectAll(a)), SortEvents(ProjectAll(b))) == SortEvents(ProjectAll(a + b))
  {
    ProjectAllSplit(a, b);
    var merged := Merge(SortEvents(ProjectAll(a)), SortEvents(ProjectAll(b)));
    SortKeeps(ProjectAll(a));
    SortKeeps(ProjectAll(b));
    SortKeeps(ProjectAll(a + b));
    MergeKeeps(SortEvents(ProjectAll(a)), SortEvents(ProjectAll(b)));
    ProjectedIdentify(a + b);
    forall x, y | x in merged && y in merged && x.id == y.id ensures x == y {
      assert x in multiset(merged) && y in multiset(merged);
      assert x in ProjectAll(a + b) && y in ProjectAll(a + b);
    }
    SortedUnique(merged, SortEvents(ProjectAll(a + b)));
  }

  /** If the tail row is still in place, everything before it is too. */
  ghost predicate TailHonest(seen: seq<AuditRow>, table: seq<AuditRow>) {
    seen != [] && TailStands(TailOf(seen, 0, |seen| - 1), table) ==> seen <= table
  }

  /** After the tail check the cache follows a prefix of the table, possibly the empty one. */
  lemma CheckedFollows(c: Cache, seen: seq<AuditRow>, table: seq<AuditRow>) returns (kept: seq<AuditRow>)
    requires Follows(c, seen) && TailHonest(seen, table)
    ensures Follows(Checked(c, table), kept) && kept <= table
  {
    kept := if Checked(c, table) == c then seen else [];
  }

  /** Decodable rows on both sides of the cursor: the view is completed. */
  lemma RefreshCompletes(base: Cache, kept: seq<AuditRow>, table: seq<AuditRow>)
    requires Follows(base, kept) && kept <= table && UniqueIds(table) && Decodable(table)
    ensures Newer(base, table) == table[|kept|..] && Decodable(Newer(base, table))
    ensures table == kept ==> base.events == SortEvents(ProjectAll(table))
    ensures Merge(base.events, SortEvents(ProjectAll(Newer(base, table)))) == SortEvents(ProjectAll(table))
  {
    var rows := table[|kept|..];
    assert table == kept + rows;
    assert Decodable(kept) by { assert forall i :: 0 <= i < |kept| ==> kept[i] == table[i]; }
    MergeIsSort(kept, rows);
  }

  lemma DecodableSplit(a: seq<AuditRow>, b: seq<AuditRow>)
    ensures Decodable(a + b) <==> Decodable(a) && Decodable(b)
  {
    var all := a + b;
    if Decodable(all) {
      forall i | 0 <= i < |a| ensures !a[i].payload.Undecodable? { assert all[i] == a[i]; }
      forall i | 0 <= i < |b| ensures !b[i].payload.Undecodable? { assert all[|a| + i] == b[i]; }
    }
  }

  lemma AgreesOnDecodable(base: Cache, kept: seq<AuditRow>, table: seq<AuditRow>)
    requires Follows(base, kept) && kept <= table && UniqueIds(table) && Checked(base, table) == base && Decodable(table)
    ensures Refresh(base, table).events == FromScratch(table) && Follows(Refresh(base, table).cache, table)
  {
    RefreshCompletes(base, kept, table);
    EndsAtTable(base, kept, table);
  }

  /** A refresh from a checked cache, cut at the cursor `|kept|`. */
  lemma RefreshFrom(base: Cache, kept: seq<AuditRow>, table: seq<AuditRow>)
    requires Follows(base, kept) && kept <= table && UniqueIds(table) && Checked(base, table) == base
    ensures Refresh(base, table).events == FromScratch(table) <==> Decodable(kept) || !Decodable(table[|kept|..])
    ensures var cache := Refresh(base, table).cache;
            cache.rowid <= |table| && Follows(cache, table[..cache.rowid])
  {
    var rows := table[|kept|..];
    assert table == kept + rows;
    DecodableSplit(kept, rows);
    if !Decodable(rows) {
      ThrowsAhead(base, kept, table);
    } else {
      EndsAtTable(base, kept, table);
      if Decodable(kept) { AgreesOnDecodable(base, kept, table); }
    }
  }

  /** A read that meets no undecodable row ends with its cursor at the end of the table. */
  lemma EndsAtTable(base: Cache, kept: seq<AuditRow>, table: seq<AuditRow>)
    requires Follows(base, kept) && kept <= table && Checked(base, table) == base && Decodable(table[|kept|..])
    ensures var cache := Refresh(base, table).cache;
            && Refresh(base, table).events.Ok?
            && cache.rowid == |table| && table[..cache.rowid] == table
            && cache.tail == if table == [] then None else Some(TailOf(table, 0, |table| - 1))
  {
    var rows := table[|kept|..];
    assert Newer(base, table) == rows;
    if rows == [] {
      assert kept == table;
    } else {
      assert rows[|rows| - 1] == table[|table| - 1];
    }
  }

  /** A read that meets an undecodable row throws with its cursor just past that row. */
  lemma ThrowsAhead(base: Cache, kept: seq<AuditRow>, table: seq<AuditRow>)
    requires Follows(base, kept) && kept <= table && Checked(base, table) == base && !Decodable(table[|kept|..])
    ensures Refresh(base, table).events == Err("UNDECODABLE") == FromScratch(table)
    ensures var cache := Refresh(base, table).cache;
            && |kept| < cache.rowid <= |table| && table[cache.rowid - 1].payload.Undecodable? && Follows(cache, table[..cache.rowid])
  {
    var rows := table[|kept|..];
    assert Newer(base, table) == rows;
    var j := FirstBad(rows).value;
    assert rows[j] == table[|kept| + j];
    var seen := table[..|kept| + j + 1];
    assert seen[|kept| + j] == table[|kept| + j];
  }

  /**
   * The exact condition for one read. With the cursor at `r` after the tail check, the cached read agrees with a read
   * from scratch if and only if all rows before `r` can be decoded, or some row from `r` on cannot.
   */
  lemma RefreshExactly(c: Cache, seen: seq<AuditRow>, table: seq<AuditRow>)
    requires Follows(c, seen) && TailHonest(seen, table) && UniqueIds(table)
    ensures var r := Checked(c, table).rowid;
            r <= |table| && (Refresh(c, table).events == FromScratch(table) <==> Decodable(table[..r]) || !Decodable(table[r..]))
    ensures var cache := Refresh(c, table).cache;
            cache.rowid <= |table| && Follows(cache, table[..cache.rowid])
  {
    var base := Checked(c, table);
    var kept := CheckedFollows(c, seen, table);
    assert table[..|kept|] == kept;
    RefreshFrom(base, kept, table);
  }

  // ---- Histories of appends, rollbacks and reads ----

  /** `used` are all ids ever inserted, kept or rolled back; `seen` are the rows the cursor has passed. */
  datatype State = State(table: seq<AuditRow>, used: set<nat>, cache: Cache, seen: seq<AuditRow>)
  datatype Op = Append(row: AuditRow) | RollbackTo(length: nat) | Read

  const START := State([], {}, EMPTY, [])

  predicate Possible(s: State, op: Op) {
    match op
    case Append(row) => row.id !in s.used
    case RollbackTo(length) => length <= |s.table|
    case Read => true
  }

  function Apply(s: State, op: Op): State
    requires Possible(s, op)
  {
    match op
    case Append(row) => s.(table := s.table + [row], used := s.used + {row.id})
    case RollbackTo(length) => s.(table := s.table[..length])
    case Read =>
      var cache := Refresh(s.cache, s.table).cache;
      s.(cache := cache, seen := if cache.rowid <= |s.table| then s.table[..cache.rowid] else s.table)
  }

  predicate PossibleAll(s: State, ops: seq<Op>)
    decreases |ops|
  {
    ops == [] || (Possible(s, ops[0]) && PossibleAll(Apply(s, ops[0]), ops[1..]))
  }

  function Run(s: State, ops: seq<Op>): State
    requires PossibleAll(s, ops)
    decreases |ops|
  {
    if ops == [] then s else Run(Apply(s, ops[0]), ops[1..])
  }

  ghost predicate Consistent(s: State) {
    && Follows(s.cache, s.seen) && TailHonest(s.seen, s.table)
    && UniqueIds(s.table)
    && (forall i :: 0 <= i < |s.table| ==> s.table[i].id in s.used)
    && (forall i :: 0 <= i < |s.seen| ==> s.seen[i].id in s.used)
  }

  lemma OpKeepsConsistent(s: State, op: Op)
    requires Consistent(s) && Possible(s, op)
    ensures Consistent(Apply(s, op))
  {
    if op.Read? {
      RefreshExactly(s.cache, s.seen, s.table);
    }
  }

  lemma {:induction false} RunKeepsConsistent(s: State, ops: seq<Op>)
    requires Consistent(s) && PossibleAll(s, ops)
    ensures Consistent(Run(s, ops))
    decreases |ops|
  {
    if ops != [] {
      OpKeepsConsistent(s, ops[0]);
      RunKeepsConsistent(Apply(s, ops[0]), ops[1..]);
    }
  }

  /**
   * After any sequence of appends, rollbacks that reuse row numbers, and reads, those that threw included: the cached
   * read agrees with a read from scratch if and only if no row the surviving cursor has passed is undecodable, or
   * another one lies ahead of it.
   */
  lemma CachedReadExactly(ops: seq<Op>)
    requires PossibleAll(START, ops)
    ensures var s := Run(START, ops);
            var r := Checked(s.cache, s.table).rowid;
            r <= |s.table| && (Refresh(s.cache, s.table).events == FromScratch(s.table) <==> Decodable(s.table[..r]) || !Decodable(s.table[r..]))
  {
    RunKeepsConsistent(START, ops);
    var s := Run(START, ops);
    RefreshExactly(s.cache, s.seen, s.table);
  }

  // ---- What a read shows, on the fields of the rows ----

  /**
   * What one more row shows: nothing, unless it is of a run or its snapshot is an event; then its own id and time, the run of
   * its snapshot before its own, the type of its snapshot before its new state before its reason, and its data.
   */
  lemma ShownLaw(rows: seq<AuditRow>, row: AuditRow)
    requires Decodable(rows) && !row.payload.Undecodable?
    ensures ProjectAll([]) == [] && Decodable(rows + [row])
    ensures var snap := if row.payload.Decoded? then row.payload.snapshot else Snapshot(false, None, None, 0);
            var shown := ProjectAll(rows + [row]);
            if snap.isEvent || row.ofRun then
              && |shown| == |ProjectAll(rows)| + 1 && shown[..|ProjectAll(rows)|] == ProjectAll(rows)
              && var e := shown[|ProjectAll(rows)|];
                 && e.id == row.id && e.at == row.at && e.data == snap.data
                 && (snap.runId.Some? ==> e.runId == snap.runId)
                 && (snap.runId.None? ==> e.runId == if row.ofRun then Some(row.entity) else None)
                 && (snap.eventType.Some? ==> e.kind == snap.eventType.value)
                 && (snap.eventType.None? ==> e.kind == if row.newState.Some? then row.newState.value else row.reason)
            else shown == ProjectAll(rows)
  {
    assert (rows + [row])[..|rows|] == rows;
  }

  /** In order of time, and of id within the same time. */
  ghost predicate InOrder(events: seq<Event>) {
    forall i, j :: 0 <= i < j < |events| ==> events[i].at < events[j].at || (events[i].at == events[j].at && events[i].id <= events[j].id)
  }

  /** A read from scratch succeeds exactly on decodable tables, and then holds exactly what the rows show, each event as often, in order. */
  lemma ScratchExactly(table: seq<AuditRow>)
    ensures FromScratch(table).Ok? <==> Decodable(table)
    ensures Decodable(table) ==> InOrder(FromScratch(table).value) && multiset(FromScratch(table).value) == multiset(ProjectAll(table))
  {
    if Decodable(table) {
      SortKeeps(ProjectAll(table));
      var events := SortEvents(ProjectAll(table));
      forall i, j | 0 <= i < j < |events|
        ensures events[i].at < events[j].at || (events[i].at == events[j].at && events[i].id <= events[j].id)
      {
        assert Before(events[i], events[j]);
      }
    }
  }

  /**
   * In particular, whenever every row of the current table can be decoded, whatever was rolled back or thrown over before, the
   * cached read returns exactly the filtered events of the table in (time, id) order.
   */
  lemma CachedReadIsExact(ops: seq<Op>)
    requires PossibleAll(START, ops) && Decodable(Run(START, ops).table)
    ensures var s := Run(START, ops); Refresh(s.cache, s.table).events == FromScratch(s.table)
  {
    CachedReadExactly(ops);
  }

  // ---- Undecodable rows ----

  /** A read that threw over the only undecodable row left is followed by reads that silently lack the rows it passed. */
  lemma SilentAfterThrow(base: Cache, kept: seq<AuditRow>, table: seq<AuditRow>)
    requires Follows(base, kept) && kept <= table && UniqueIds(table) && Checked(base, table) == base && !Decodable(table[|kept|..])
    ensures var first := Refresh(base, table).cache;
            && first.rowid <= |table|
            && (Decodable(table[first.rowid..]) ==> Refresh(first, table).events.Ok? && FromScratch(table).Err?)
            && (!Decodable(table[first.rowid..]) ==> Refresh(first, table).events == FromScratch(table))
  {
    ThrowsAhead(base, kept, table);
    var first := Refresh(base, table).cache;
    var seen := table[..first.rowid];
    assert Checked(first, table) == first;
    assert seen[first.rowid - 1] == table[first.rowid - 1];
    if Decodable(table[first.rowid..]) {
      EndsAtTable(first, seen, table);
    } else {
      ThrowsAhead(first, seen, table);
    }
  }

  const BAD_ONE := AuditRow(1, 0, false, 0, None, "", Undecodable)
  const BAD_TWO := AuditRow(2, 0, false, 0, None, "", Undecodable)

  /**
   * The failing case: one undecodable row. The first read throws, the second returns an empty view without an error.
   * With two such rows the third read is the one that does.
   */
  lemma ReadsStepOver()
    ensures var table := [BAD_ONE];
            var second := Refresh(Refresh(EMPTY, table).cache, table);
            && Refresh(EMPTY, table).events.Err? && second.events == Ok([]) && FromScratch(table).Err?
    ensures var table := [BAD_ONE, BAD_TWO];
            var second := Refresh(Refresh(EMPTY, table).cache, table);
            var third := Refresh(second.cache, table);
            && Refresh(EMPTY, table).events.Err? && second.events.Err? && third.events == Ok([]) && FromScratch(table).Err?
  {
    StepsOverOne();
    StepsOverTwo();
  }

  lemma StepsOverOne()
    ensures var table := [BAD_ONE];
            && Refresh(EMPTY, table) == Reading(Cache([], 1, Some(Tail(1, 1, 0))), Err("UNDECODABLE"))
            && Refresh(Cache([], 1, Some(Tail(1, 1, 0))), table).events == Ok([]) && FromScratch(table).Err?
  {
    var table := [BAD_ONE];
    assert table[0..] == table && table[1..] == [];
    assert table[0].payload.Undecodable?;
    FirstBadAt(table, 0);
  }

  lemma StepsOverTwo()
    ensures var table := [BAD_ONE, BAD_TWO];
            && Refresh(EMPTY, table) == Reading(Cache([], 1, Some(Tail(1, 1, 0))), Err("UNDECODABLE"))
            && Refresh(Cache([], 1, Some(Tail(1, 1, 0))), table) == Reading(Cache([], 2, Some(Tail(2, 2, 0))), Err("UNDECODABLE"))
            && Refresh(Cache([], 2, Some(Tail(2, 2, 0))), table).events == Ok([]) && FromScratch(table).Err?
  {
    var table := [BAD_ONE, BAD_TWO];
    assert table[0..] == table && table[1..] == [BAD_TWO] && table[2..] == [];
    assert table[0].payload.Undecodable?;
    FirstBadAt(table, 0);
    FirstBadAt([BAD_TWO], 0);
  }

  lemma FirstBadAt(table: seq<AuditRow>, j: nat)
    requires j < |table| && table[j].payload.Undecodable? && forall i :: 0 <= i < j ==> !table[i].payload.Undecodable?
    ensures FirstBad(table) == Some(j)
  {
    var k := FirstBad(table).value;
    assert k <= j by {
      assert forall i :: 0 <= i < k ==> table[..k][i] == table[i];
    }
  }

  // ---- The refresh as the store runs it ----

  class EventView {
    var events: seq<Event>
    var rowid: nat
    var tail: Option<Tail>

    function Value(): Cache
      reads this
    {
      Cache(events, rowid, tail)
    }

    constructor ()
      ensures Value() == EMPTY
    {
      events, rowid, tail := [], 0, None;
    }

    /** Merges a sorted batch into the sorted view, index by index. */
    method MergeBatch(batch: seq<Event>) returns (merged: seq<Event>)
      ensures merged == Merge(events, batch)
    {
      merged := [];
      var i, j := 0, 0;
      assert events[0..] == events && batch[0..] == batch;
      while i < |events| && j < |batch|
        invariant 0 <= i <= |events| && 0 <= j <= |batch|
        invariant merged + Merge(events[i..], batch[j..]) == Merge(events, batch)
        decreases |events| - i + |batch| - j
      {
        MergeAt(events, batch, i, j);
        if Before(events[i], batch[j]) {
          Regroup(merged, events[i], Merge(events[i + 1..], batch[j..]));
          merged := merged + [events[i]];
          i := i + 1;
        } else {
          Regroup(merged, batch[j], Merge(events[i..], batch[j + 1..]));
          merged := merged + [batch[j]];
          j := j + 1;
        }
      }
      MergeAt(events, batch, i, j);
      assert merged + (events[i..] + batch[j..]) == merged + events[i..] + batch[j..];
      merged := merged + events[i..] + batch[j..];
    }

    /** Scans the new rows, moving the cursor row by row; stops at the first one that cannot be decoded. */
    method Scan(rows: seq<AuditRow>) returns (batch: seq<Event>, thrown: bool)
      modifies this`rowid, this`tail
      ensures thrown == !Decodable(rows)
      ensures rows == [] ==> rowid == old(rowid) && tail == old(tail)
      ensures thrown ==> rowid == old(rowid) + FirstBad(rows).value + 1 && tail == Some(TailOf(rows, old(rowid), FirstBad(rows).value))
      ensures !thrown ==> batch == ProjectAll(rows)
      ensures !thrown && rows != [] ==> rowid == old(rowid) + |rows| && tail == Some(TailOf(rows, old(rowid), |rows| - 1))
    {
      batch := [];
      var i := 0;
      ghost var start := rowid;
      while i < |rows|
        invariant 0 <= i <= |rows| && Decodable(rows[..i])
        invariant rowid == start + i
        invariant tail == if i == 0 then old(tail) else Some(TailOf(rows, start, i - 1))
        invariant batch == ProjectAll(rows[..i])
      {
        var row := rows[i];
        assert rows[..i + 1][..i] == rows[..i];
        rowid := rowid + 1;
        tail := Some(Tail(rowid, row.id, row.at));
        if row.payload.Undecodable? {
          forall k | 0 <= k < i ensures !rows[k].payload.Undecodable? { assert rows[..i][k] == rows[k]; }
          FirstBadAt(rows, i);
          return batch, true;
        }
        if IsShown(row) {
          batch := batch + [Project(row)];
        }
        i := i + 1;
      }
      assert rows[..i] == rows;
      thrown := false;
    }

    /** Starts over when the last row the view has seen is no longer in place. */
    method CheckTail(table: seq<AuditRow>)
      requires Sorted(events)
      modifies this
      ensures Value() == Checked(old(Value()), table) && Sorted(events)
    {
      if tail.Some? && !TailStands(tail.value, table) {
        events, rowid, tail := [], 0, None;
      }
    }

    /** The cached read. The view stays sorted whatever the read meets. */
    method ReadEvents(table: seq<AuditRow>) returns (result: Result<seq<Event>>)
      requires Sorted(events)
      modifies this
      ensures Sorted(events)
      ensures Reading(Value(), result) == Refresh(old(Value()), table)
    {
      CheckTail(table);
      var rows := if rowid <= |table| then table[rowid..] else [];
      if rows == [] {
        return Ok(events);
      }
      var batch, thrown := Scan(rows);
      if thrown {
        return Err("UNDECODABLE");
      }
      SortKeeps(batch);
      Absorb(SortEvents(batch));
      return Ok(events);
    }

    /** Takes in a sorted batch, by appending when nothing interleaves and by merging otherwise. */
    method Absorb(batch: seq<Event>)
      requires Sorted(events) && Sorted(batch)
      modifies this`events
      ensures events == Merge(old(events), batch) && Sorted(events)
    {
      MergeKeeps(events, batch);
      if |batch| > 0 {
        if |events| == 0 || Before(events[|events| - 1], batch[0]) {
          AppendIsMerge(events, batch);
          events := events + batch;
        } else {
          events := MergeBatch(batch);
        }
      }
    }
  }
}
