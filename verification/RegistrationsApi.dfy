// createBatch and cancelBatch of the API, statement by statement, proved to be
// the SubmitCreate and SubmitCancel steps of the protocol.
module RegistrationsApi {
  import opened Prelude
  import opened Tables
  import opened Timetable
  import opened Pairing
  import opened Admission
  import opened Worker
  import opened Protocol
  import opened RedisLedger

  // ServerError: the insert or the publish threw. `totalItems` counts the rows of
  // the batch.
  datatype Reply = Rejected(reason: Rejection) | ServerError | Accepted(batch: BatchId, totalItems: nat)

  // What batch.create returns for each new item.
  datatype CreatedRow = CreatedRow(id: ItemId, section: SectionId)

  // ---- Reservation and rollback ----

  // Undoing a reservation restores the counters exactly when every key was
  // there; a missing key comes back as 0.
  lemma RollbackNetZero(redis: map<SectionId, int>, ids: seq<SectionId>, delta: int)
    ensures Bump(Bump(redis, ids, delta), ids, -delta) == redis <==> forall s :: s in ids ==> s in redis
    ensures forall s :: s in ids && s !in redis ==> s in Bump(Bump(redis, ids, delta), ids, -delta)
                                                    && Bump(Bump(redis, ids, delta), ids, -delta)[s] == 0
  {
    var back := Bump(Bump(redis, ids, delta), ids, -delta);
    if s :| s in ids && s !in redis {
      assert s in back;
    } else {
      assert back.Keys == redis.Keys;
    }
  }

  // ---- The answer of batch.create ----

  function CreatedRows(rows: seq<SectionId>, itemIds: seq<ItemId>): seq<CreatedRow>
    requires |rows| == |itemIds|
  {
    seq(|rows|, k requires 0 <= k < |rows| => CreatedRow(itemIds[k], rows[k]))
  }

  // The new rows, in whatever order the database lists them.
  ghost predicate CreatedAnswer(created: seq<CreatedRow>, rows: seq<SectionId>, itemIds: seq<ItemId>) {
    |rows| == |itemIds| && multiset(created) == multiset(CreatedRows(rows, itemIds))
  }

  ghost predicate DistinctRows(rows: seq<SectionId>) { forall i, j :: 0 <= i < j < |rows| ==> rows[i] != rows[j] }

  // The map from section to new item.
  method ItemIdBySection(created: seq<CreatedRow>) returns (m: map<SectionId, ItemId>)
    ensures forall c :: c in created ==> c.section in m
    ensures forall s :: s in m ==> CreatedRow(m[s], s) in created
  {
    m := map[];
    for n := 0 to |created|
      invariant forall c :: c in created[..n] ==> c.section in m
      invariant forall s :: s in m ==> CreatedRow(m[s], s) in created[..n]
    {
      m := m[created[n].section := created[n].id];
      assert created[..n + 1] == created[..n] + [created[n]];
    }
    assert created[..|created|] == created;
  }

  // With distinct rows the map gives every row its own item, so the order of
  // the answer does not matter.
  lemma OwnItem(created: seq<CreatedRow>, rows: seq<SectionId>, itemIds: seq<ItemId>, m: map<SectionId, ItemId>, k: nat)
    requires CreatedAnswer(created, rows, itemIds) && DistinctRows(rows) && k < |rows|
    requires forall c :: c in created ==> c.section in m
    requires forall s :: s in m ==> CreatedRow(m[s], s) in created
    ensures rows[k] in m && m[rows[k]] == itemIds[k]
  {
    var all := CreatedRows(rows, itemIds);
    assert all[k] in multiset(all);
    assert all[k] in multiset(created);
    assert all[k] in created;
    var mine := CreatedRow(m[rows[k]], rows[k]);
    assert mine in multiset(created);
    assert mine in multiset(all);
    var j :| 0 <= j < |all| && all[j] == mine;
    assert rows[j] == rows[k];
    assert j == k;
  }

  // The map from section to registered item.
  method SourceItemMap(tables: RegistrationTables, active: seq<ItemId>) returns (m: map<SectionId, ItemId>)
    requires forall k :: 0 <= k < |active| ==> active[k] in tables.items
    ensures forall s :: SourceOf(tables.View(), active, s) == if s in m then Some(m[s]) else None
  {
    m := map[];
    for n := 0 to |active|
      invariant forall s :: SourceOf(tables.View(), active[..n], s) == if s in m then Some(m[s]) else None
    {
      var section := tables.items[active[n]].section;
      assert active[..n + 1][..n] == active[..n];
      m := m[section := active[n]];
    }
    assert active[..|active|] == active;
  }

  method BuildCreatePayload(rows: seq<SectionId>, created: seq<CreatedRow>, ghost itemIds: seq<ItemId>)
    returns (payload: seq<JobItem>)
    requires CreatedAnswer(created, rows, itemIds) && DistinctRows(rows)
    ensures payload == CreatePayload(rows, itemIds)
  {
    var itemIdBySectionId := ItemIdBySection(created);
    payload := [];
    for k := 0 to |rows|
      invariant payload == CreatePayload(rows, itemIds)[..k]
    {
      OwnItem(created, rows, itemIds, itemIdBySectionId, k);
      payload := payload + [JobItem(itemIdBySectionId[rows[k]], Some(rows[k]), None)];
    }
  }

  method BuildCancelPayload(tables: RegistrationTables, active: seq<ItemId>, rows: seq<SectionId>,
                            created: seq<CreatedRow>,
                            ghost itemIds: seq<ItemId>)
    returns (payload: seq<JobItem>)
    requires forall k :: 0 <= k < |active| ==> active[k] in tables.items
    requires CreatedAnswer(created, rows, itemIds) && DistinctRows(rows)
    ensures payload == CancelPayload(tables.View(), active, rows, itemIds)
  {
    var sourceItemMap := SourceItemMap(tables, active);
    var cancelItemIdBySectionId := ItemIdBySection(created);
    payload := [];
    for k := 0 to |rows|
      invariant payload == CancelPayload(tables.View(), active, rows, itemIds)[..k]
    {
      OwnItem(created, rows, itemIds, cancelItemIdBySectionId, k);
      var source := if rows[k] in sourceItemMap then Some(sourceItemMap[rows[k]]) else None;
      payload := payload + [JobItem(cancelItemIdBySectionId[rows[k]], Some(rows[k]), source)];
    }
  }

  // ---- Queries ----

  // `found` lists the rows findMany returned: exactly the registered items asked for.
  ghost predicate Found(db: Db, user: UserId, semester: string, sections: Option<set<SectionId>>, found: seq<ItemId>) {
    forall i :: i in found <==>
      ActiveItem(db, user, semester, i) && (sections.Some? ==> db.items[i].section in sections.value)
  }

  // The first listed item of every section, in listing order.
  function Latest(db: Db, found: seq<ItemId>): (r: seq<ItemId>)
    requires forall i :: i in found ==> i in db.items
    ensures forall i :: i in r ==> i in found
    ensures forall i :: i in found ==> db.items[i].section in SectionsOf(db, r)
    ensures DistinctRows(SectionsOf(db, r))
  {
    if found == [] then []
    else
      var last := found[|found| - 1];
      assert found == found[..|found| - 1] + [last];
      var rest := Latest(db, found[..|found| - 1]);
      LatestMore(db, rest, last);
      if db.items[last].section in SectionsOf(db, rest) then rest else rest + [last]
  }

  lemma LatestMore(db: Db, rest: seq<ItemId>, last: ItemId)
    requires last in db.items && forall i :: i in rest ==> i in db.items
    ensures SectionsOf(db, rest + [last]) == SectionsOf(db, rest) + [db.items[last].section]
  {
  }

  // Nothing listed before position `j` has its section.
  ghost predicate FirstOfSection(db: Db, found: seq<ItemId>, j: nat)
    requires forall i :: i in found ==> i in db.items
  {
    j < |found| && forall l :: 0 <= l < j ==> db.items[found[l]].section != db.items[found[j]].section
  }

  lemma LastIsFirst(db: Db, found: seq<ItemId>)
    requires found != [] && forall i :: i in found ==> i in db.items
    requires |Latest(db, found)| > |Latest(db, found[..|found| - 1])|
    ensures FirstOfSection(db, found, |found| - 1)
  {
    var before := found[..|found| - 1];
    forall l | 0 <= l < |before| ensures db.items[found[l]].section != db.items[found[|found| - 1]].section {
      assert before[l] in before;
    }
  }

  // Every kept item is the first listed of its section.
  lemma {:induction false} LatestIsFirst(db: Db, found: seq<ItemId>, k: nat) returns (j: nat)
    requires forall i :: i in found ==> i in db.items
    requires k < |Latest(db, found)|
    ensures FirstOfSection(db, found, j) && found[j] == Latest(db, found)[k]
  {
    var before := found[..|found| - 1];
    if k < |Latest(db, before)| {
      j := LatestIsFirst(db, before, k);
      assert forall l :: 0 <= l <= j ==> found[l] == before[l];
    } else {
      j := |found| - 1;
      LastIsFirst(db, found);
    }
  }

  // findActiveRegistrationItems: a map keyed by section keeps the first listed item.
  method FindActiveRegistrationItems(tables: RegistrationTables, user: UserId, semester: string,
                                     sections: Option<set<SectionId>>, found: seq<ItemId>)
    returns (active: seq<ItemId>)
    requires Found(tables.View(), user, semester, sections, found)
    ensures (forall i :: i in found ==> i in tables.items) && active == Latest(tables.View(), found)
    ensures ActiveAnswer(tables.View(), user, semester, sections, active)
  {
    FoundListed(tables.View(), user, semester, sections, found);
    var latestBySection: set<SectionId> := {};
    active := [];
    for n := 0 to |found|
      invariant active == Latest(tables.View(), found[..n])
      invariant latestBySection == set s | s in SectionsOf(tables.View(), active)
    {
      assert found[..n + 1][..n] == found[..n];
      LatestMore(tables.View(), active, found[n]);
      var section := tables.items[found[n]].section;
      if section !in latestBySection {
        latestBySection := latestBySection + {section};
        active := active + [found[n]];
      }
    }
    assert found[..|found|] == found;
    LatestAnswers(tables.View(), user, semester, sections, found);
  }

  lemma FoundListed(db: Db, user: UserId, semester: string, sections: Option<set<SectionId>>, found: seq<ItemId>)
    requires Found(db, user, semester, sections, found)
    ensures forall i :: i in found ==> i in db.items
  {
    forall i | i in found ensures i in db.items { assert ActiveItem(db, user, semester, i); }
  }

  lemma LatestAnswers(db: Db, user: UserId, semester: string, sections: Option<set<SectionId>>, found: seq<ItemId>)
    requires Found(db, user, semester, sections, found) && forall i :: i in found ==> i in db.items
    ensures ActiveAnswer(db, user, semester, sections, Latest(db, found))
  {
    var active := Latest(db, found);
    forall k | 0 <= k < |active| ensures active[k] in found { assert active[k] in active; }
    forall i | i in found ensures AnsweredBy(db, active, i) {
      var k :| 0 <= k < |active| && SectionsOf(db, active)[k] == db.items[i].section;
      assert active[k] in active;
    }
    forall j, k | 0 <= j < k < |active| ensures db.items[active[j]].section != db.items[active[k]].section {
      assert SectionsOf(db, active)[j] != SectionsOf(db, active)[k];
    }
  }

  predicate PendingOf(db: Db, user: UserId, semester: string, kind: Option<BatchKind>, b: BatchId) {
    WaitingBatch(db, user, semester, b) && (kind.Some? ==> db.batches[b].kind == kind.value)
  }

  ghost predicate SomePending(db: Db, user: UserId, semester: string, kind: Option<BatchKind>) {
    exists b :: PendingOf(db, user, semester, kind, b)
  }

  // assertNoPendingBatch, for one kind of batch or for any.
  method FindPendingBatch(tables: RegistrationTables, user: UserId, semester: string, kind: Option<BatchKind>)
    returns (existing: bool)
    ensures existing <==> SomePending(tables.View(), user, semester, kind)
  {
    existing := exists b | b in tables.batches :: PendingOf(tables.View(), user, semester, kind, b);
  }

  lemma PendingKinds(db: Db, user: UserId, semester: string)
    ensures SomePending(db, user, semester, None) <==> exists b :: WaitingBatch(db, user, semester, b)
    ensures SomePending(db, user, semester, Some(CANCEL)) <==> PendingCancel(db, user, semester)
  {
    if b :| WaitingBatch(db, user, semester, b) { assert PendingOf(db, user, semester, None, b); }
    if b :| WaitingBatch(db, user, semester, b) && db.batches[b].kind == CANCEL {
      assert PendingOf(db, user, semester, Some(CANCEL), b);
    }
  }

  // The credit sum the database computes over distinct courses.
  method SumCredits(cat: Catalog, courses: set<CourseId>) returns (sum: int)
    requires forall c :: c in courses ==> c in cat.credits
    ensures sum == Credits(cat, courses)
  {
    sum := 0;
    var rest := courses;
    ghost var credit := (c: CourseId) => if c in cat.credits then cat.credits[c] else 0;
    while rest != {}
      invariant rest <= courses
      invariant sum + SumBy(rest, credit) == SumBy(courses, credit)
      decreases |rest|
    {
      var c :| c in rest;
      SumPick(rest, credit, c);
      sum := sum + cat.credits[c];
      rest := rest - {c};
    }
  }

  // computeCreditsFromDb reads every registered item, not one per section.
  method ComputeCreditsFromDb(cat: Catalog, tables: RegistrationTables, user: UserId, semester: string,
                              found: seq<ItemId>)
    returns (sum: int)
    requires CatalogWf(cat) && Found(tables.View(), user, semester, None, found)
    requires forall i :: i in found ==> tables.items[i].section in cat.rows
    ensures sum == Credits(cat, FoundCourses(cat, tables.View(), found))
  {
    sum := SumCredits(cat, FoundCourses(cat, tables.View(), found));
  }

  function FoundCourses(cat: Catalog, db: Db, found: seq<ItemId>): set<CourseId>
    requires forall i :: i in found ==> i in db.items && db.items[i].section in cat.rows
  {
    set i | i in found :: cat.rows[db.items[i].section].course
  }

  // Both readings of the student's registrations name the same courses.
  lemma SameCourses(cat: Catalog, db: Db, found: seq<ItemId>)
    requires forall i :: i in found ==> i in db.items && db.items[i].section in cat.rows
    ensures FoundCourses(cat, db, found) == CoursesOf(RowsAt(cat, SectionsOf(db, Latest(db, found))))
  {
    var active := Latest(db, found);
    var sections := SectionsOf(db, active);
    forall i | i in found ensures cat.rows[db.items[i].section].course in CoursesOf(RowsAt(cat, sections)) {
      CourseListed(cat, sections, db.items[i].section);
    }
    var rows := RowsAt(cat, sections);
    forall r | r in rows ensures r.course in FoundCourses(cat, db, found) {
      var k :| 0 <= k < |rows| && rows[k] == r;
      assert active[k] in active;
    }
  }

  lemma CourseListed(cat: Catalog, sections: seq<SectionId>, s: SectionId)
    requires s in sections && forall k :: 0 <= k < |sections| ==> sections[k] in cat.rows
    ensures s in cat.rows && cat.rows[s].course in CoursesOf(RowsAt(cat, sections))
  {
    var k :| 0 <= k < |sections| && sections[k] == s;
    assert RowsAt(cat, sections)[k] in RowsAt(cat, sections);
  }

  // ---- Counters ----

  // The ids with repetitions dropped.
  method Unique(ids: seq<SectionId>) returns (u: seq<SectionId>)
    ensures DistinctRows(u) && forall s :: s in u <==> s in ids
  {
    u := [];
    for n := 0 to |ids|
      invariant DistinctRows(u) && forall s :: s in u <==> s in ids[..n]
    {
      assert ids[..n + 1] == ids[..n] + [ids[n]];
      if ids[n] !in u { u := u + [ids[n]]; }
    }
    assert ids[..|ids|] == ids;
  }

  lemma NewToPrefix(u: seq<SectionId>, n: nat)
    requires DistinctRows(u) && n < |u|
    ensures u[n] !in u[..n]
  {
  }

  lemma RefillMore(db: Db, redis: map<SectionId, int>, ids: seq<SectionId>, s: SectionId)
    requires s !in redis
    ensures Refill(db, redis, ids + [s])
            == if s in db.seats then Refill(db, redis, ids)[s := FreeSeats(db, s)] else Refill(db, redis, ids)
  {
    var more := Refill(db, redis, ids + [s]);
    if s in db.seats {
      assert more == Refill(db, redis, ids)[s := FreeSeats(db, s)];
    } else {
      assert more == Refill(db, redis, ids);
    }
  }

  // Keys that were there are read, the others are filled: together that is every section.
  lemma RefillOnlyMissed(db: Db, redis: map<SectionId, int>, sections: seq<SectionId>, missed: seq<SectionId>)
    requires forall s :: s in missed <==> s in sections && s !in redis
    ensures Refill(db, redis, missed) == Refill(db, redis, sections)
    ensures FullIds(redis, sections) + FullIds(Refill(db, redis, missed), missed) ==
            FullIds(Refill(db, redis, sections), sections)
  {
  }

  lemma BumpSameIds(redis: map<SectionId, int>, a: seq<SectionId>, b: seq<SectionId>, delta: int)
    requires forall s :: s in a <==> s in b
    ensures Bump(redis, a, delta) == Bump(redis, b, delta)
  {
    assert Bump(redis, a, delta) == Bump(redis, b, delta);
  }

  // One INCRBY after the other.
  function BumpEach(redis: map<SectionId, int>, ids: seq<SectionId>, delta: int): map<SectionId, int> {
    if ids == [] then redis
    else
      var rest := BumpEach(redis, ids[..|ids| - 1], delta);
      var s := ids[|ids| - 1];
      rest[s := (if s in rest then rest[s] else 0) + delta]
  }

  lemma {:induction false} BumpEachAt(redis: map<SectionId, int>, ids: seq<SectionId>, delta: int, x: SectionId)
    requires DistinctRows(ids)
    ensures x in BumpEach(redis, ids, delta) <==> x in redis || x in ids
    ensures x in BumpEach(redis, ids, delta) ==>
      BumpEach(redis, ids, delta)[x] == (if x in redis then redis[x] else 0) + if x in ids then delta else 0
  {
    if ids != [] {
      var n := |ids| - 1;
      BumpEachAt(redis, ids[..n], delta, x);
      NewToPrefix(ids, n);
      assert ids == ids[..n] + [ids[n]];
    }
  }

  lemma BumpEachIsBump(redis: map<SectionId, int>, ids: seq<SectionId>, delta: int)
    requires DistinctRows(ids)
    ensures BumpEach(redis, ids, delta) == Bump(redis, ids, delta)
  {
    var each, all := BumpEach(redis, ids, delta), Bump(redis, ids, delta);
    forall x ensures x in each <==> x in all { BumpEachAt(redis, ids, delta, x); }
    forall x | x in each ensures each[x] == all[x] { BumpEachAt(redis, ids, delta, x); }
    assert each == all;
  }

  // ---- Resolving section codes ----

  // The rows of the codes whose lookup entry is missing or has expired.
  ghost function MissedRows(cat: Catalog, semester: string, codes: seq<string>, missed: set<string>): set<SectionId> {
    RowsUnder(cat, semester, set c | c in codes && c in missed)
  }

  ghost function RowsUnder(cat: Catalog, semester: string, codes: set<string>): set<SectionId> {
    set c, s | c in codes && (semester, c) in cat.lookup && s in cat.lookup[(semester, c)] :: s
  }

  // The counters after resolveSectionCodes: every row of a missed code is SET to
  // its free seats, whether it had a counter or not.
  ghost function Resolved(cat: Catalog, db: Db, redis: map<SectionId, int>, semester: string, codes: seq<string>,
                          missed: set<string>)
    : map<SectionId, int>
  {
    Reconciled(db, redis, MissedRows(cat, semester, codes, missed))
  }

  // Only codes with rows have a lookup entry.
  predicate EntriesOk(cat: Catalog, semester: string, codes: seq<string>, missed: set<string>) {
    forall c :: c in codes && c !in missed ==> (semester, c) in cat.lookup
  }

  lemma ReconciledTwice(db: Db, redis: map<SectionId, int>, a: set<SectionId>, b: set<SectionId>)
    ensures Reconciled(db, Reconciled(db, redis, a), b) == Reconciled(db, redis, a + b)
  {
    assert Reconciled(db, Reconciled(db, redis, a), b) == Reconciled(db, redis, a + b);
  }

  lemma ReconciledOne(db: Db, redis: map<SectionId, int>, s: SectionId)
    ensures Reconciled(db, redis, {s}) == if s in db.seats then redis[s := FreeSeats(db, s)] else redis
  {
    assert Reconciled(db, redis, {s}) == if s in db.seats then redis[s := FreeSeats(db, s)] else redis;
  }

  lemma RowsUnderMore(cat: Catalog, semester: string, codes: set<string>, c: string)
    ensures RowsUnder(cat, semester, codes + {c}) ==
            RowsUnder(cat, semester, codes)
            + (if (semester, c) in cat.lookup then IdSet(cat.lookup[(semester, c)]) else {})
  {
  }

  // One more missed code.
  lemma ReconciledMore(cat: Catalog, db: Db, redis: map<SectionId, int>, semester: string, done: set<string>, c: string)
    ensures var filled := Reconciled(db, redis, RowsUnder(cat, semester, done));
            Reconciled(db, redis, RowsUnder(cat, semester, done + {c})) ==
            if (semester, c) in cat.lookup then Reconciled(db, filled, IdSet(cat.lookup[(semester, c)])) else filled
  {
    RowsUnderMore(cat, semester, done, c);
    if (semester, c) in cat.lookup {
      ReconciledTwice(db, redis, RowsUnder(cat, semester, done), IdSet(cat.lookup[(semester, c)]));
    } else {
      assert RowsUnder(cat, semester, done) + {} == RowsUnder(cat, semester, done);
    }
  }

  // A lookup miss on a section with reservations still to be served erases them:
  // the counter goes back to the free seats of the tables.
  lemma LookupMissErases(cat: Catalog, db: Db, redis: map<SectionId, int>, semester: string, codes: seq<string>,
                         missed: set<string>, s: SectionId, reserved: int)
    requires s in MissedRows(cat, semester, codes, missed) && s in db.seats && s in redis
    requires redis[s] == FreeSeats(db, s) - reserved && reserved != 0
    ensures var after := Resolved(cat, db, redis, semester, codes, missed);
            s in after && after[s] == redis[s] + reserved && after[s] != redis[s]
  {
  }

  predicate KeepsCounters(before: map<SectionId, int>, after: map<SectionId, int>) {
    forall s :: s in before ==> s in after && after[s] == before[s]
  }

  // A request leaves the counters that are there alone exactly when every missed
  // row that has a counter has the right one; filling missing counters changes none.
  lemma CountersKeptExactly(cat: Catalog, db: Db, redis: map<SectionId, int>, semester: string, codes: seq<string>,
                            missed: set<string>, ids: seq<SectionId>)
    ensures var looked := Resolved(cat, db, redis, semester, codes, missed);
            var right := forall s :: s in MissedRows(cat, semester, codes, missed) && s in redis && s in db.seats ==>
                           redis[s] == FreeSeats(db, s);
            (KeepsCounters(redis, looked) <==> right) && (KeepsCounters(redis, Refill(db, looked, ids)) <==> right)
  {
    var looked := Resolved(cat, db, redis, semester, codes, missed);
    var filled := Refill(db, looked, ids);
    if s :|
      s in MissedRows(cat, semester, codes, missed) && s in redis && s in db.seats && redis[s] != FreeSeats(db, s)
    {
      assert looked[s] != redis[s] && filled[s] == looked[s];
    }
  }

  // ---- Checks ----

  ghost predicate ItemsInCatalog(cat: Catalog, db: Db, items: seq<ItemId>) {
    forall i :: i in items ==> i in db.items && db.items[i].section in cat.rows
  }

  ghost predicate ItemsStored(db: Db, items: seq<ItemId>) { forall i :: i in items ==> i in db.items }

  lemma LatestInCatalog(cat: Catalog, db: Db, found: seq<ItemId>)
    requires ItemsInCatalog(cat, db, found)
    ensures ItemsInCatalog(cat, db, Latest(db, found))
  {
  }

  // Rejections of createBatch that come before the codes are resolved, and those
  // that come before the capacity check.
  predicate BeforeLookup(r: Rejection) { r.SessionClosed? || r.PendingBatch? }

  predicate BeforeCapacity(r: Rejection) { BeforeLookup(r) || r.UnknownCode? || r.ClosedSection? }

  // The counters after the checks of createBatch.
  function AfterChecks(rejection: Option<Rejection>, db: Db, before: map<SectionId, int>, looked: map<SectionId, int>,
                       rows: seq<SectionId>)
    : map<SectionId, int>
  {
    if rejection.Some? && BeforeLookup(rejection.value) then before
    else if rejection.Some? && BeforeCapacity(rejection.value) then looked
    else Refill(db, looked, rows)
  }

  function KnownRows(cat: Catalog, semester: string, codes: seq<string>): seq<SectionId> {
    if Known(cat, semester, codes) then AllRows(cat, semester, codes) else []
  }

  lemma CreateRejectionParts(cat: Catalog, settings: Settings, db: Db, redis: map<SectionId, int>,
                             user: UserId, semester: string, codes: seq<string>, now: int, active: seq<ItemId>)
    requires CatalogWf(cat) && ItemsInCatalog(cat, db, active)
    ensures var early := EarlyRejection(cat, settings, db, user, semester, codes, now);
            var all := CreateRejection(cat, settings, db, redis, user, semester, codes, now, active);
            && (early.Some? ==> all == early && BeforeCapacity(early.value))
            && (early.None? ==>
                  Known(cat, semester, codes) && KnownRows(cat, semester, codes) == AllRows(cat, semester, codes))
            && (early.None? && all.Some? ==> !BeforeCapacity(all.value))
  {
  }

  lemma CoursesHaveCredits(cat: Catalog, rows: seq<SectionRow>, semester: string, codes: seq<string>)
    requires CatalogWf(cat) && Known(cat, semester, codes) && rows == Representatives(cat, semester, codes)
    ensures forall c :: c in CoursesOf(rows) ==> c in cat.credits
  {
    forall r | r in rows ensures r.course in cat.credits {
      var i :| 0 <= i < |rows| && rows[i] == r;
      assert EntryOk(cat, codes[i], cat.lookup[(semester, codes[i])]);
    }
  }

  // ---- The service ----

  class RegistrationsService {
    const cfg: Config
    const tables: RegistrationTables
    const redis: SlotCounters
    var mail: map<Tag, Delivery>
    ghost var starts: map<BatchId, nat>
    ghost var lost: set<BatchId>

    constructor (cfg: Config, tables: RegistrationTables, redis: SlotCounters, mail: map<Tag, Delivery>,
                 ghost starts: map<BatchId, nat>, ghost lost: set<BatchId>)
      ensures this.cfg == cfg && this.tables == tables && this.redis == redis
      ensures View() == State(tables.View(), redis.slots, mail, starts, lost)
    {
      this.cfg, this.tables, this.redis, this.mail, this.starts, this.lost := cfg, tables, redis, mail, starts, lost;
    }

    ghost function View(): State
      reads this, tables, redis
    {
      State(tables.View(), redis.slots, mail, starts, lost)
    }

    // Fast rejection of full sections: read all counters, then fill the missing ones from the database.
    method AssertSectionsHaveCapacityRedisFirst(sections: seq<SectionId>) returns (full: bool)
      modifies redis
      ensures redis.slots == Refill(tables.View(), old(redis.slots), sections)
      ensures full <==> FullIds(redis.slots, sections) != {}
    {
      ghost var before := redis.slots;
      var uniqueSections := Unique(sections);
      var fullSections, missedSections := {}, [];
      for n := 0 to |uniqueSections|
        invariant redis.slots == before
        invariant fullSections == FullIds(before, uniqueSections[..n])
        invariant forall s :: s in missedSections <==> s in uniqueSections[..n] && s !in before
      {
        var s := uniqueSections[n];
        assert uniqueSections[..n + 1] == uniqueSections[..n] + [s];
        if s !in redis.slots {
          missedSections := missedSections + [s];
        } else if redis.slots[s] <= 0 {
          fullSections := fullSections + {s};
        }
      }
      assert uniqueSections[..|uniqueSections|] == uniqueSections;
      var missedFull := RefillMissed(missedSections);
      RefillOnlyMissed(tables.View(), before, sections, missedSections);
      full := fullSections + missedFull != {};
    }

    method RefillMissed(missedSections: seq<SectionId>) returns (fullSections: set<SectionId>)
      requires forall s :: s in missedSections ==> s !in redis.slots
      modifies redis
      ensures redis.slots == Refill(tables.View(), old(redis.slots), missedSections)
      ensures fullSections == FullIds(redis.slots, missedSections)
    {
      ghost var before := redis.slots;
      fullSections := {};
      for n := 0 to |missedSections|
        invariant redis.slots == Refill(tables.View(), before, missedSections[..n])
        invariant fullSections == FullIds(redis.slots, missedSections[..n])
      {
        var s := missedSections[n];
        assert missedSections[..n + 1] == missedSections[..n] + [s];
        RefillMore(tables.View(), before, missedSections[..n], s);
        if s in tables.seats {
          var free := tables.seats[s].slMax - tables.seats[s].slDk;
          var remaining := if free > 0 then free else 0;
          if remaining <= 0 { fullSections := fullSections + {s}; }
          redis.Set(s, remaining);
        }
      }
      assert missedSections[..|missedSections|] == missedSections;
    }

    // The reservation pipelines: every distinct row once.
    method AdjustSlots(sections: seq<SectionId>, delta: int)
      modifies redis
      ensures redis.slots == Bump(old(redis.slots), sections, delta)
    {
      ghost var before := redis.slots;
      var uniqueIds := Unique(sections);
      for n := 0 to |uniqueIds|
        invariant redis.slots == BumpEach(before, uniqueIds[..n], delta)
      {
        assert uniqueIds[..n + 1][..n] == uniqueIds[..n];
        redis.IncrBy(uniqueIds[n], delta);
      }
      assert uniqueIds[..|uniqueIds|] == uniqueIds;
      BumpEachIsBump(before, uniqueIds, delta);
      BumpSameIds(before, uniqueIds, sections, delta);
    }

    // batch.create with its rows; `batch.payload` is the payload that will be
    // published, kept with the row as history.
    method CreateBatchRows(b: BatchId, batch: Batch)
      requires forall j :: 0 <= j < |batch.payload| ==> batch.payload[j].sectionId.Some?
      modifies tables
      ensures tables.View() == InsertBatch(old(tables.View()), b, batch)
    {
      ghost var before := tables.items;
      for k := 0 to |batch.payload|
        invariant tables.seats == old(tables.seats) && tables.batches == old(tables.batches)
        invariant InsertItems(tables.items, b, batch.kind, batch.payload, k) ==
                  InsertItems(before, b, batch.kind, batch.payload, 0)
      {
        var row := Item(b, batch.kind, batch.payload[k].sectionId.value, Pending, None, k, batch.payload[k].source, 0);
        tables.items := tables.items[batch.payload[k].itemId := row];
      }
      tables.batches := tables.batches[b := batch];
    }

    method PublishToQueue(b: BatchId, tag: Tag, published: bool)
      modifies this
      ensures mail == if published then old(mail)[tag := Delivery(b, 0, None, Queued)] else old(mail)
      ensures starts == old(starts)[b := 0] && lost == if published then old(lost) else old(lost) + {b}
    {
      if published { mail := mail[tag := Delivery(b, 0, None, Queued)]; } else { lost := lost + {b}; }
      starts := starts[b := 0];
    }

    // The checks of createBatch after the capacity check.
    method CheckChoice(user: UserId, semester: string, codes: seq<string>, found: seq<ItemId>)
      returns (rejection: Option<Rejection>, active: seq<ItemId>)
      requires CatalogWf(cfg.catalog) && Known(cfg.catalog, semester, codes)
      requires Found(tables.View(), user, semester, None, found) && ItemsInCatalog(cfg.catalog, tables.View(), found)
      ensures ActiveAnswer(tables.View(), user, semester, None, active) && active == Latest(tables.View(), found)
      ensures ItemsInCatalog(cfg.catalog, tables.View(), active)
      ensures rejection ==
              ChoiceRejection(cfg.catalog, cfg.settings, semester, codes,
                RowsAt(cfg.catalog, SectionsOf(tables.View(), active)))
    {
      var cat := cfg.catalog;
      RowsInCatalog(cat, semester, codes);
      var representativeSections := Representatives(cat, semester, codes);
      active := FindActiveRegistrationItems(tables, user, semester, None, found);
      LatestInCatalog(cat, tables.View(), found);
      var existing := RowsAt(cat, SectionsOf(tables.View(), active));
      var existingCourseIds := CoursesOf(existing);
      if exists r :: r in representativeSections && r.course in existingCourseIds {
        return Some(DuplicateCourse), active;
      }
      var pairing := AssertLabPairing(representativeSections + existing);
      if pairing.Some? { return Some(PairingViolated), active; }
      var validator := new ConflictValidator();
      var clash := validator.AssertNoScheduleConflict(RowsAt(cat, AllRows(cat, semester, codes)) + existing);
      if clash.Some? { return Some(ScheduleConflict), active; }
      var existingCredits := ComputeCreditsFromDb(cat, tables, user, semester, found);
      SameCourses(cat, tables.View(), found);
      CoursesHaveCredits(cat, representativeSections, semester, codes);
      var newCredits := SumCredits(cat, CoursesOf(representativeSections));
      if existingCredits + newCredits > cfg.settings.maxCredits { return Some(CreditLimit), active; }
      return None, active;
    }

    // SET key remaining for every row of one code.
    method FillRows(rows: seq<SectionId>)
      modifies redis
      ensures redis.slots == Reconciled(tables.View(), old(redis.slots), IdSet(rows))
    {
      ghost var before := redis.slots;
      for n := 0 to |rows|
        invariant redis.slots == Reconciled(tables.View(), before, IdSet(rows[..n]))
      {
        ReconciledTwice(tables.View(), before, IdSet(rows[..n]), {rows[n]});
        ReconciledOne(tables.View(), redis.slots, rows[n]);
        assert IdSet(rows[..n + 1]) == IdSet(rows[..n]) + {rows[n]};
        if rows[n] in tables.seats {
          var free := tables.seats[rows[n]].slMax - tables.seats[rows[n]].slDk;
          redis.Set(rows[n], if free > 0 then free else 0);
        }
      }
      assert rows[..|rows|] == rows;
    }

    // resolveSectionCodes: read the lookup entries, then load the missed codes
    // and write their entries and their seat counters.
    method ResolveSectionCodes(semester: string, codes: seq<string>, missed: set<string>) returns (known: bool)
      requires EntriesOk(cfg.catalog, semester, codes, missed)
      modifies redis
      ensures known <==> Known(cfg.catalog, semester, codes)
      ensures redis.slots == Resolved(cfg.catalog, tables.View(), old(redis.slots), semester, codes, missed)
    {
      var missedCodes := [];
      for n := 0 to |codes|
        invariant forall c :: c in missedCodes <==> c in codes[..n] && c in missed
      {
        assert codes[..n + 1] == codes[..n] + [codes[n]];
        if codes[n] in missed { missedCodes := missedCodes + [codes[n]]; }
      }
      assert codes[..|codes|] == codes;
      known := WriteSectionLookupCaches(semester, missedCodes);
      assert (set c | c in codes && c in missed) == set c | c in missedCodes;
      forall n | 0 <= n < |codes| ensures codes[n] in codes {}
    }

    method WriteSectionLookupCaches(semester: string, missedCodes: seq<string>) returns (known: bool)
      modifies redis
      ensures known <==> forall c :: c in missedCodes ==> (semester, c) in cfg.catalog.lookup
      ensures redis.slots ==
              Reconciled(tables.View(), old(redis.slots), RowsUnder(cfg.catalog, semester, set c | c in missedCodes))
    {
      ghost var before := redis.slots;
      known := true;
      ghost var done: set<string> := {};
      for n := 0 to |missedCodes|
        invariant done == set c | c in missedCodes[..n]
        invariant known <==> forall c :: c in done ==> (semester, c) in cfg.catalog.lookup
        invariant redis.slots == Reconciled(tables.View(), before, RowsUnder(cfg.catalog, semester, done))
      {
        var code := missedCodes[n];
        assert missedCodes[..n + 1] == missedCodes[..n] + [code];
        ReconciledMore(cfg.catalog, tables.View(), before, semester, done, code);
        if (semester, code) in cfg.catalog.lookup {
          FillRows(cfg.catalog.lookup[(semester, code)]);
        } else {
          known := false;
        }
        done := done + {code};
      }
      assert missedCodes[..|missedCodes|] == missedCodes;
    }

    // The first two checks of createBatch; they read no counter.
    method CheckStudent(user: UserId, semester: string, codes: seq<string>, now: int)
      returns (rejection: Option<Rejection>)
      requires CatalogWf(cfg.catalog)
      ensures var early := EarlyRejection(cfg.catalog, cfg.settings, tables.View(), user, semester, codes, now);
              if rejection.Some? then early == rejection && BeforeLookup(rejection.value)
              else early.None? || !BeforeLookup(early.value)
    {
      if !SessionOpen(cfg.settings, semester, now) { return Some(SessionClosed); }
      var pending := FindPendingBatch(tables, user, semester, None);
      PendingKinds(tables.View(), user, semester);
      if pending { return Some(PendingBatch); }
      return None;
    }

    // The next two, once the codes are resolved.
    method CheckSections(user: UserId, semester: string, codes: seq<string>, now: int, known: bool)
      returns (rejection: Option<Rejection>)
      requires CatalogWf(cfg.catalog) && (known <==> Known(cfg.catalog, semester, codes))
      requires var early := EarlyRejection(cfg.catalog, cfg.settings, tables.View(), user, semester, codes, now);
               early.None? || !BeforeLookup(early.value)
      ensures rejection == EarlyRejection(cfg.catalog, cfg.settings, tables.View(), user, semester, codes, now)
    {
      if !known { return Some(UnknownCode); }
      var representativeSections := Representatives(cfg.catalog, semester, codes);
      if exists r :: r in representativeSections && Closed(r) { return Some(ClosedSection); }
      return None;
    }

    // All checks of createBatch, in order, against the counters as resolving the
    // codes leaves them.
    method CheckCreate(user: UserId, semester: string, codes: seq<string>, now: int, missed: set<string>,
                       found: seq<ItemId>)
      returns (rejection: Option<Rejection>, active: seq<ItemId>)
      requires CatalogWf(cfg.catalog) && EntriesOk(cfg.catalog, semester, codes, missed)
      requires Found(tables.View(), user, semester, None, found) && ItemsInCatalog(cfg.catalog, tables.View(), found)
      modifies redis
      ensures ItemsInCatalog(cfg.catalog, tables.View(), Latest(tables.View(), found))
      ensures var looked := Resolved(cfg.catalog, tables.View(), old(redis.slots), semester, codes, missed);
              && rejection == CreateRejection(cfg.catalog, cfg.settings, tables.View(), looked, user, semester, codes,
                    now,
                                              Latest(tables.View(), found))
              && redis.slots == AfterChecks(rejection, tables.View(), old(redis.slots), looked,
                    KnownRows(cfg.catalog, semester, codes))
      ensures rejection.None? ==>
                active == Latest(tables.View(), found) && ActiveAnswer(tables.View(), user, semester, None, active)
    {
      active := [];
      LatestInCatalog(cfg.catalog, tables.View(), found);
      ghost var looked := Resolved(cfg.catalog, tables.View(), redis.slots, semester, codes, missed);
      CreateRejectionParts(cfg.catalog, cfg.settings, tables.View(), looked, user, semester, codes, now,
        Latest(tables.View(), found));
      rejection := CheckStudent(user, semester, codes, now);
      if rejection.Some? { return; }
      var known := ResolveSectionCodes(semester, codes, missed);
      rejection := CheckSections(user, semester, codes, now, known);
      if rejection.Some? { return; }
      rejection, active := CheckSeatsAndChoice(user, semester, codes, found);
    }

    method CheckSeatsAndChoice(user: UserId, semester: string, codes: seq<string>, found: seq<ItemId>)
      returns (rejection: Option<Rejection>, active: seq<ItemId>)
      requires CatalogWf(cfg.catalog) && Known(cfg.catalog, semester, codes)
      requires Found(tables.View(), user, semester, None, found) && ItemsInCatalog(cfg.catalog, tables.View(), found)
      modifies redis
      ensures ItemsInCatalog(cfg.catalog, tables.View(), Latest(tables.View(), found))
      ensures var (rows, existing) := (AllRows(cfg.catalog, semester, codes),
                                       RowsAt(cfg.catalog, SectionsOf(tables.View(), Latest(tables.View(), found))));
              && redis.slots == Refill(tables.View(), old(redis.slots), rows)
              && rejection == if FullIds(redis.slots, rows) != {} then Some(FullSection)
                              else ChoiceRejection(cfg.catalog, cfg.settings, semester, codes, existing)
      ensures rejection.None? ==>
                active == Latest(tables.View(), found) && ActiveAnswer(tables.View(), user, semester, None, active)
    {
      active := [];
      LatestInCatalog(cfg.catalog, tables.View(), found);
      var full := AssertSectionsHaveCapacityRedisFirst(AllRows(cfg.catalog, semester, codes));
      if full { return Some(FullSection), active; }
      rejection, active := CheckChoice(user, semester, codes, found);
    }

    // Insert the batch with its rows and publish its message.
    method Store(sub: Submission, batch: Batch)
      requires forall j :: 0 <= j < |batch.payload| ==> batch.payload[j].sectionId.Some?
      modifies this, tables
      ensures View() == Publish(old(View()), InsertBatch(old(tables.View()), sub.batch, batch), old(redis.slots), sub)
    {
      CreateBatchRows(sub.batch, batch);
      PublishToQueue(sub.batch, sub.tag, sub.published);
    }

    // Move the counters, insert and publish; an insert that throws has the
    // counters moved back.
    method ReserveAndStore(sub: Submission, rows: seq<SectionId>, delta: int, batch: Batch, dbFault: bool)
      returns (stored: bool)
      requires forall j :: 0 <= j < |batch.payload| ==> batch.payload[j].sectionId.Some?
      modifies this, tables, redis
      ensures stored == !dbFault
      ensures var moved := Bump(old(redis.slots), rows, delta);
              View() == if dbFault then old(View()).(redis := Bump(moved, rows, -delta))
                        else Publish(old(View()), InsertBatch(old(tables.View()), sub.batch, batch), moved, sub)
    {
      AdjustSlots(rows, delta);
      if dbFault {
        AdjustSlots(rows, -delta);
        return false;
      }
      Store(sub, batch);
      return true;
    }

    // What a request may rely on: the registered items the query lists, and,
    // when its codes resolve, fresh ids and the insert's answer for their rows.
    ghost predicate Supplied(sub: Submission, missed: set<string>, created: seq<CreatedRow>)
      reads this, tables, redis
    {
      && EntriesOk(cfg.catalog, sub.semester, Distinct(sub.codes), missed)
      && CatalogWf(cfg.catalog) && cfg.catalog.rows.Keys <= tables.seats.Keys
      && (Known(cfg.catalog, sub.semester, Distinct(sub.codes)) ==>
            FreshIds(View(), sub, |Rows(cfg, sub)|) && CreatedAnswer(created, Rows(cfg, sub), sub.itemIds))
    }

    // createBatch. `missed` are the codes without a lookup entry and `dbFault`
    // says that the insert throws. Resolving the codes fills the counters of the
    // missed ones like a reconcile would. Apart from that a rejected request only
    // fills missing counters, a failed insert leaves the counters as the capacity
    // check left them, and an admitted request is the protocol's CacheFill and
    // SubmitCreate steps, with the stored payload as the message body. It is
    // answered with an error all the same when the publish is not `confirmed`:
    // the batch is stored then, and its message may be in the queue or not.
    method CreateBatch(sub: Submission, missed: set<string>, found: seq<ItemId>, created: seq<CreatedRow>,
                       dbFault: bool, confirmed: bool)
      returns (reply: Reply, body: Option<Job>)
      requires Supplied(sub, missed, created) && (confirmed ==> sub.published)
      requires Found(tables.View(), sub.user, sub.semester, None, found)
               && ItemsInCatalog(cfg.catalog, tables.View(), found)
      modifies this, tables, redis
      ensures ItemsInCatalog(cfg.catalog, old(tables.View()), Latest(old(tables.View()), found))
      ensures var done := sub.(active := Latest(old(tables.View()), found));
              var codes := Distinct(sub.codes);
              var looked := Resolved(cfg.catalog, old(tables.View()), old(redis.slots), sub.semester, codes, missed);
              var rejection := CreateRejection(cfg.catalog, cfg.settings, old(tables.View()), looked, sub.user,
                                               sub.semester, codes, sub.now, done.active);
              var rows := KnownRows(cfg.catalog, sub.semester, codes);
              var filled := Apply(cfg, old(View()), CacheFill(looked));
              if rejection.Some? then
                reply == Rejected(rejection.value) && body == None
                && View() == old(View()).(redis :=
                      AfterChecks(rejection, old(tables.View()), old(redis.slots), looked, rows))
              else if dbFault then
                reply == ServerError && body == None
                && View() == old(View()).(redis := Refill(old(tables.View()), looked, rows))
              else
                reply == (if confirmed then Accepted(sub.batch, |rows|) else ServerError)
                && Enabled(cfg, filled, SubmitCreate(done)) && View() == Apply(cfg, filled, SubmitCreate(done))
                && sub.batch in tables.batches && body == Some(JobOf(tables.View(), sub.batch))
    {
      ghost var looked := Resolved(cfg.catalog, tables.View(), redis.slots, sub.semester, Distinct(sub.codes), missed);
      ghost var filled := View().(redis := looked);
      var sectionCodes := Distinct(sub.codes);
      var rejection, active := CheckCreate(sub.user, sub.semester, sectionCodes, sub.now, missed, found);
      if rejection.Some? { return Rejected(rejection.value), None; }
      var done := sub.(active := active);
      AcceptedCreate(cfg, filled, done);
      reply, body := SaveCreate(done, created, dbFault, confirmed);
    }

    // An admitted request: reserve, insert, publish.
    method SaveCreate(done: Submission, created: seq<CreatedRow>, dbFault: bool, confirmed: bool)
      returns (reply: Reply, body: Option<Job>)
      requires CatalogWf(cfg.catalog) && Known(cfg.catalog, done.semester, Distinct(done.codes))
      requires forall s :: s in Rows(cfg, done) ==> s in redis.slots
      requires |done.itemIds| == |Rows(cfg, done)| && CreatedAnswer(created, Rows(cfg, done), done.itemIds)
      modifies this, tables, redis
      ensures if dbFault then reply == ServerError && body == None && View() == old(View())
              else
                reply == (if confirmed then Accepted(done.batch, |Rows(cfg, done)|) else ServerError)
                && View() == CreateInserted(cfg, old(View()), done)
                && done.batch in tables.batches && body == Some(JobOf(tables.View(), done.batch))
    {
      var allRows := AllRows(cfg.catalog, done.semester, Distinct(done.codes));
      AllRowsDistinct(cfg.catalog, done.semester, Distinct(done.codes));
      var payload := BuildCreatePayload(allRows, created, done.itemIds);
      RollbackNetZero(redis.slots, allRows, -1);
      var stored := ReserveAndStore(done, allRows, -1, CreateBatchOf(cfg, done), dbFault);
      if !stored { return ServerError, None; }
      body := Some(Job(done.batch, CREATE, payload));
      if !confirmed { return ServerError, body; }
      return Accepted(done.batch, |allRows|), body;
    }

    // All checks of cancelBatch after its codes are resolved, in order.
    method CheckCancel(user: UserId, semester: string, codes: seq<string>, now: int, known: bool, found: seq<ItemId>)
      returns (rejection: Option<Rejection>, active: seq<ItemId>)
      requires CatalogWf(cfg.catalog) && (known <==> Known(cfg.catalog, semester, codes))
      requires Found(tables.View(), user, semester, Some(IdSet(KnownRows(cfg.catalog, semester, codes))), found)
      ensures ItemsStored(tables.View(), found) && ItemsStored(tables.View(), Latest(tables.View(), found))
      ensures rejection ==
              CancelRejection(cfg.catalog, cfg.settings, tables.View(), user, semester, codes, now,
                Latest(tables.View(), found))
      ensures rejection.None? ==>
        && active == Latest(tables.View(), found)
        && ActiveAnswer(tables.View(), user, semester, Some(IdSet(KnownRows(cfg.catalog, semester, codes))), active)
    {
      FoundListed(tables.View(), user, semester, Some(IdSet(KnownRows(cfg.catalog, semester, codes))), found);
      active := [];
      if !known { return Some(UnknownCode), active; }
      var representativeSections := Representatives(cfg.catalog, semester, codes);
      if !SessionOpen(cfg.settings, semester, now) { return Some(SessionClosed), active; }
      active := FindActiveRegistrationItems(tables, user, semester, Some(IdSet(AllRows(cfg.catalog, semester, codes))),
        found);
      var activeClassSectionIds := SectionsOf(tables.View(), active);
      if exists r :: r in representativeSections && r.id !in activeClassSectionIds {
        return Some(NotRegistered), active;
      }
      var pending := FindPendingBatch(tables, user, semester, Some(CANCEL));
      PendingKinds(tables.View(), user, semester);
      if pending { return Some(PendingBatch), active; }
      return None, active;
    }

    // cancelBatch. Its codes are resolved first, on rejected requests too. A
    // failed insert undoes the increment, which restores the counters exactly
    // when every row had one (RollbackNetZero).
    method CancelBatch(sub: Submission, missed: set<string>, found: seq<ItemId>, created: seq<CreatedRow>,
                       dbFault: bool, confirmed: bool)
      returns (reply: Reply, body: Option<Job>)
      requires Supplied(sub, missed, created) && (confirmed ==> sub.published)
      requires Found(tables.View(), sub.user, sub.semester,
               Some(IdSet(KnownRows(cfg.catalog, sub.semester, Distinct(sub.codes)))), found)
      modifies this, tables, redis
      ensures ItemsStored(old(tables.View()), found)
              && ItemsStored(old(tables.View()), Latest(old(tables.View()), found))
      ensures var done := sub.(active := Latest(old(tables.View()), found));
              var codes := Distinct(sub.codes);
              var looked := Resolved(cfg.catalog, old(tables.View()), old(redis.slots), sub.semester, codes, missed);
              var rejection := CancelRejection(cfg.catalog, cfg.settings, old(tables.View()), sub.user, sub.semester,
                                               codes, sub.now, done.active);
              var rows := KnownRows(cfg.catalog, sub.semester, codes);
              var filled := Apply(cfg, old(View()), CacheFill(looked));
              if rejection.Some? then
                reply == Rejected(rejection.value) && body == None && View() == filled
              else if dbFault then
                reply == ServerError && body == None
                && View() == filled.(redis := Bump(Bump(looked, rows, 1), rows, -1))
              else
                reply == (if confirmed then Accepted(sub.batch, |rows|) else ServerError)
                && Enabled(cfg, filled, SubmitCancel(done)) && View() == Apply(cfg, filled, SubmitCancel(done))
                && sub.batch in tables.batches && body == Some(JobOf(tables.View(), sub.batch))
    {
      var sectionCodes := Distinct(sub.codes);
      var known := ResolveSectionCodes(sub.semester, sectionCodes, missed);
      ghost var filled := View();
      var rejection, active := CheckCancel(sub.user, sub.semester, sectionCodes, sub.now, known, found);
      if rejection.Some? { return Rejected(rejection.value), None; }
      var done := sub.(active := active);
      AcceptedCancel(cfg, filled, done);
      reply, body := SaveCancel(done, created, dbFault, confirmed);
    }

    // An admitted cancel: give back, insert, publish.
    method SaveCancel(done: Submission, created: seq<CreatedRow>, dbFault: bool, confirmed: bool)
      returns (reply: Reply, body: Option<Job>)
      requires CatalogWf(cfg.catalog) && Known(cfg.catalog, done.semester, Distinct(done.codes))
      requires ItemsStored(tables.View(), done.active)
      requires ActiveAnswer(tables.View(), done.user, done.semester, Some(IdSet(Rows(cfg, done))), done.active)
      requires |done.itemIds| == |Rows(cfg, done)| && CreatedAnswer(created, Rows(cfg, done), done.itemIds)
      modifies this, tables, redis
      ensures var rows := Rows(cfg, done);
              if dbFault then
                reply == ServerError && body == None
                && View() == old(View()).(redis := Bump(Bump(old(redis.slots), rows, 1), rows, -1))
              else
                reply == (if confirmed then Accepted(done.batch, |rows|) else ServerError)
                && View() == CancelInserted(cfg, old(View()), done)
                && done.batch in tables.batches && body == Some(JobOf(tables.View(), done.batch))
    {
      var allRows := AllRows(cfg.catalog, done.semester, Distinct(done.codes));
      AllRowsDistinct(cfg.catalog, done.semester, Distinct(done.codes));
      var payload := BuildCancelPayload(tables, done.active, allRows, created, done.itemIds);
      var stored := ReserveAndStore(done, allRows, 1, CancelBatchOf(cfg, tables.View(), done), dbFault);
      if !stored { return ServerError, None; }
      body := Some(Job(done.batch, CANCEL, payload));
      if !confirmed { return ServerError, body; }
      return Accepted(done.batch, |allRows|), body;
    }
  }

  // The capacity check leaves a counter for every row.
  lemma RowsCounted(cat: Catalog, db: Db, redis: map<SectionId, int>, semester: string, codes: seq<string>)
    requires CatalogWf(cat) && Known(cat, semester, codes) && cat.rows.Keys <= db.seats.Keys
    ensures forall s :: s in AllRows(cat, semester, codes) ==> s in Refill(db, redis, AllRows(cat, semester, codes))
  {
    RowsInCatalog(cat, semester, codes);
  }

  // The state after an admitted CREATE request whose rows all have counters.
  function CreateInserted(cfg: Config, s: State, sub: Submission): State
    requires Known(cfg.catalog, sub.semester, Distinct(sub.codes)) && |sub.itemIds| == |Rows(cfg, sub)|
  {
    Publish(s, InsertBatch(s.db, sub.batch, CreateBatchOf(cfg, sub)), Bump(s.redis, Rows(cfg, sub), -1), sub)
  }

  // The state after an admitted CANCEL request.
  function CancelInserted(cfg: Config, s: State, sub: Submission): State
    requires Known(cfg.catalog, sub.semester, Distinct(sub.codes)) && |sub.itemIds| == |Rows(cfg, sub)|
    requires ItemsStored(s.db, sub.active)
  {
    Publish(s, InsertBatch(s.db, sub.batch, CancelBatchOf(cfg, s.db, sub)), Bump(s.redis, Rows(cfg, sub), 1), sub)
  }

  lemma AcceptedCreate(cfg: Config, s: State, done: Submission)
    requires CatalogWf(cfg.catalog) && ItemsInCatalog(cfg.catalog, s.db, done.active)
    requires cfg.catalog.rows.Keys <= s.db.seats.Keys
    requires ActiveAnswer(s.db, done.user, done.semester, None, done.active)
    requires CreateRejection(cfg.catalog, cfg.settings, s.db, s.redis, done.user, done.semester, Distinct(done.codes),
                             done.now, done.active).None?
    requires Known(cfg.catalog, done.semester, Distinct(done.codes)) ==> FreshIds(s, done, |Rows(cfg, done)|)
    ensures FreshIds(s, done, |Rows(cfg, done)|) && Enabled(cfg, s, SubmitCreate(done))
    ensures forall x :: x in Rows(cfg, done) ==> x in Refill(s.db, s.redis, Rows(cfg, done))
    ensures Apply(cfg, s, SubmitCreate(done)) ==
            CreateInserted(cfg, s.(redis := Refill(s.db, s.redis, Rows(cfg, done))), done)
  {
    assert CreateAdmitted(cfg, s, done);
    RowsCounted(cfg.catalog, s.db, s.redis, done.semester, Distinct(done.codes));
  }

  lemma AcceptedCancel(cfg: Config, s: State, done: Submission)
    requires CatalogWf(cfg.catalog) && ItemsStored(s.db, done.active)
    requires Known(cfg.catalog, done.semester, Distinct(done.codes))
    requires ActiveAnswer(s.db, done.user, done.semester, Some(IdSet(Rows(cfg, done))), done.active)
    requires CancelRejection(cfg.catalog, cfg.settings, s.db, done.user, done.semester, Distinct(done.codes), done.now,
             done.active).None?
    requires FreshIds(s, done, |Rows(cfg, done)|)
    ensures Enabled(cfg, s, SubmitCancel(done))
    ensures Apply(cfg, s, SubmitCancel(done)) == CancelInserted(cfg, s, done)
  {
    assert CancelAdmitted(cfg, s, done);
  }
}
