// What the API checks before it accepts a CREATE or CANCEL batch, and what a
// student's registrations satisfy when those checks pass.
module Admission {
  import opened Prelude
  import opened Tables
  import opened Timetable
  import opened Pairing

  // `lookup` lists the rows of a section code in one semester; `credits` is
  // the credit column of courses.
  datatype Catalog = Catalog(rows: map<SectionId, SectionRow>, lookup: map<(string, string), seq<SectionId>>,
                             credits: map<CourseId, nat>)

  datatype Settings = Settings(currentSemester: string, openAt: int, closeAt: int, maxCredits: int)

  // ---- Assumptions about the catalog ----

  // Rows sharing a section code agree on course, type and linked code.
  predicate SameClass(a: SectionRow, b: SectionRow) {
    a.code == b.code && a.course == b.course && a.sectionType == b.sectionType && a.linkedCode == b.linkedCode
  }

  ghost predicate EntryOk(cat: Catalog, code: string, ids: seq<SectionId>) {
    && ids != []
    && (forall i :: 0 <= i < |ids| ==> ids[i] in cat.rows && cat.rows[ids[i]].code == code)
    && (forall i :: 0 <= i < |ids| ==> SameClass(cat.rows[ids[0]], cat.rows[ids[i]]))
    && (forall i, j :: 0 <= i < j < |ids| ==> ids[i] != ids[j])
  }

  ghost predicate CatalogWf(cat: Catalog) {
    && (forall s :: s in cat.rows ==> cat.rows[s].id == s && cat.rows[s].course in cat.credits)
    && (forall key :: key in cat.lookup ==> EntryOk(cat, key.1, cat.lookup[key]))
  }

  // ---- Resolving section codes ----

  // The codes with repetitions dropped, in the order of their first mention.
  function Distinct(codes: seq<string>): (r: seq<string>)
    ensures forall c :: c in r <==> c in codes
    ensures forall i, j :: 0 <= i < j < |r| ==> r[i] != r[j]
  {
    if codes == [] then []
    else
      var last := codes[|codes| - 1];
      var rest := Distinct(codes[..|codes| - 1]);
      assert codes == codes[..|codes| - 1] + [last];
      if last in rest then rest else rest + [last]
  }

  predicate Known(cat: Catalog, semester: string, codes: seq<string>) {
    forall i :: 0 <= i < |codes| ==> (semester, codes[i]) in cat.lookup
  }

  // allRows: every row of every code.
  function AllRows(cat: Catalog, semester: string, codes: seq<string>): seq<SectionId>
    requires Known(cat, semester, codes)
  {
    if codes == [] then [] else cat.lookup[(semester, codes[0])] + AllRows(cat, semester, codes[1..])
  }

  // representativeSections: the first row of every code.
  function Representatives(cat: Catalog, semester: string, codes: seq<string>): (r: seq<SectionRow>)
    requires CatalogWf(cat) && Known(cat, semester, codes)
    ensures |r| == |codes|
  {
    seq(|codes|, i requires 0 <= i < |codes| => Representative(cat, semester, codes[i]))
  }

  function Representative(cat: Catalog, semester: string, code: string): SectionRow
    requires CatalogWf(cat) && (semester, code) in cat.lookup
  {
    assert EntryOk(cat, code, cat.lookup[(semester, code)]);
    cat.rows[cat.lookup[(semester, code)][0]]
  }

  // A row of the batch is a row of one of its codes.
  lemma {:induction false} RowsOfCodes(cat: Catalog, semester: string, codes: seq<string>, k: nat)
    requires CatalogWf(cat) && Known(cat, semester, codes)
    requires k < |AllRows(cat, semester, codes)|
    ensures var s := AllRows(cat, semester, codes)[k];
            s in cat.rows && cat.rows[s].code in codes
            && (semester, cat.rows[s].code) in cat.lookup
            && SameClass(Representative(cat, semester, cat.rows[s].code), cat.rows[s])
  {
    var head := cat.lookup[(semester, codes[0])];
    assert EntryOk(cat, codes[0], head);
    if k >= |head| {
      RowsOfCodes(cat, semester, codes[1..], k - |head|);
    }
  }

  lemma {:induction false} AllRowsDistinct(cat: Catalog, semester: string, codes: seq<string>)
    requires CatalogWf(cat) && Known(cat, semester, codes)
    requires forall i, j :: 0 <= i < j < |codes| ==> codes[i] != codes[j]
    ensures forall i, j :: 0 <= i < j < |AllRows(cat, semester, codes)| ==>
      AllRows(cat, semester, codes)[i] != AllRows(cat, semester, codes)[j]
  {
    if codes != [] {
      var head, rest := cat.lookup[(semester, codes[0])], AllRows(cat, semester, codes[1..]);
      assert EntryOk(cat, codes[0], head);
      AllRowsDistinct(cat, semester, codes[1..]);
      forall j | 0 <= j < |rest| ensures rest[j] in cat.rows && cat.rows[rest[j]].code != codes[0] {
        RowsOfCodes(cat, semester, codes[1..], j);
      }
    }
  }

  // ---- Reading the student's registrations ----

  predicate ActiveItem(db: Db, user: UserId, semester: string, i: ItemId) {
    && i in db.items && db.items[i].kind == CREATE && db.items[i].status == Success
    && db.items[i].batch in db.batches
    && db.batches[db.items[i].batch].user == user && db.batches[db.items[i].batch].semester == semester
  }

  // The answer keeps an item of this item's section.
  ghost predicate AnsweredBy(db: Db, answer: seq<ItemId>, i: ItemId) {
    i in db.items
    && exists k :: 0 <= k < |answer| && answer[k] in db.items && db.items[answer[k]].section == db.items[i].section
  }

  // An answer of findActiveRegistrationItems: one registered item for each
  // registered section among `sections` (all sections when absent). Which item
  // it keeps when a section has several is left open.
  ghost predicate ActiveAnswer(db: Db, user: UserId, semester: string, sections: Option<set<SectionId>>,
                               answer: seq<ItemId>) {
    && (forall k :: 0 <= k < |answer| ==> ActiveItem(db, user, semester, answer[k])
                                          && (sections.Some? ==> db.items[answer[k]].section in sections.value))
    && (forall j, k :: 0 <= j < k < |answer| ==> db.items[answer[j]].section != db.items[answer[k]].section)
    && (forall i {:trigger AnsweredBy(db, answer, i)} ::
          ActiveItem(db, user, semester, i) && (sections.Some? ==> db.items[i].section in sections.value) ==>
            AnsweredBy(db, answer, i))
  }

  predicate WaitingBatch(db: Db, user: UserId, semester: string, b: BatchId) {
    b in db.batches && db.batches[b].user == user && db.batches[b].semester == semester
    && db.batches[b].status == Waiting
  }

  function IdSet(ids: seq<SectionId>): set<SectionId> { set s | s in ids }

  function SectionsOf(db: Db, answer: seq<ItemId>): seq<SectionId>
    requires forall k :: 0 <= k < |answer| ==> answer[k] in db.items
  {
    seq(|answer|, k requires 0 <= k < |answer| => db.items[answer[k]].section)
  }

  function RowsAt(cat: Catalog, ids: seq<SectionId>): (r: seq<SectionRow>)
    requires forall k :: 0 <= k < |ids| ==> ids[k] in cat.rows
    ensures |r| == |ids|
  {
    seq(|ids|, k requires 0 <= k < |ids| => cat.rows[ids[k]])
  }

  function CoursesOf(rows: seq<SectionRow>): set<CourseId> { set r | r in rows :: r.course }

  ghost function Credits(cat: Catalog, courses: set<CourseId>): int {
    SumBy(courses, (c: CourseId) => if c in cat.credits then cat.credits[c] else 0)
  }

  // ---- Free seats as Redis sees them ----

  function FreeSeats(db: Db, s: SectionId): int
    requires s in db.seats
  {
    if db.seats[s].slMax - db.seats[s].slDk > 0 then db.seats[s].slMax - db.seats[s].slDk else 0
  }

  // The counter after assertSectionsHaveCapacityRedisFirst filled the missing keys from the tables.
  function Refill(db: Db, redis: map<SectionId, int>, ids: seq<SectionId>): map<SectionId, int> {
    redis + map s | s in ids && s !in redis && s in db.seats :: FreeSeats(db, s)
  }

  // DECRBY / INCRBY 1, a missing key counting as 0.
  function Bump(redis: map<SectionId, int>, ids: seq<SectionId>, delta: int): map<SectionId, int> {
    redis + map s | s in ids :: (if s in redis then redis[s] else 0) + delta
  }

  // ---- The checks ----

  datatype Rejection =
    | SessionClosed | PendingBatch | UnknownCode | ClosedSection | FullSection
    | DuplicateCourse | PairingViolated | ScheduleConflict | CreditLimit | NotRegistered

  predicate SessionOpen(settings: Settings, semester: string, now: int) {
    semester == settings.currentSemester && settings.openAt <= now <= settings.closeAt
  }

  predicate Closed(r: SectionRow) { r.status == Some(SectionStatus.CANCELLED) || r.status == Some(REGISTRATION_CLOSED) }

  // The checks of createBatch before the capacity check.
  ghost function EarlyRejection(cat: Catalog, settings: Settings, db: Db, user: UserId, semester: string,
                                codes: seq<string>, now: int): Option<Rejection>
    requires CatalogWf(cat)
  {
    if !SessionOpen(settings, semester, now) then Some(SessionClosed)
    else if exists b :: WaitingBatch(db, user, semester, b) then Some(PendingBatch)
    else if !Known(cat, semester, codes) then Some(UnknownCode)
    else if exists r :: r in Representatives(cat, semester, codes) && Closed(r) then Some(ClosedSection)
    else None
  }

  // The checks after the capacity check, against the rows already registered.
  ghost function ChoiceRejection(cat: Catalog, settings: Settings, semester: string, codes: seq<string>,
                                 existing: seq<SectionRow>): Option<Rejection>
    requires CatalogWf(cat) && Known(cat, semester, codes)
  {
    var reps := Representatives(cat, semester, codes);
    RowsInCatalog(cat, semester, codes);
    if exists r :: r in reps && r.course in CoursesOf(existing) then Some(DuplicateCourse)
    else if !PairingOk(reps + existing) then Some(PairingViolated)
    else if !ConflictFree(RowSet(RowsAt(cat, AllRows(cat, semester, codes)) + existing)) then Some(ScheduleConflict)
    else if Credits(cat, CoursesOf(existing)) + Credits(cat, CoursesOf(reps)) > settings.maxCredits then
      Some(CreditLimit)
    else None
  }

  // The listed sections whose counter leaves no seat.
  function FullIds(redis: map<SectionId, int>, ids: seq<SectionId>): set<SectionId> {
    set s | s in ids && s in redis && redis[s] <= 0
  }

  // The first check of createBatch that fails. `active` is the answer of
  // findActiveRegistrationItems.
  ghost function CreateRejection(cat: Catalog, settings: Settings, db: Db, redis: map<SectionId, int>,
                                 user: UserId, semester: string, codes: seq<string>, now: int,
                                 active: seq<ItemId>): Option<Rejection>
    requires CatalogWf(cat)
    requires forall k :: 0 <= k < |active| ==> active[k] in db.items && db.items[active[k]].section in cat.rows
  {
    var early := EarlyRejection(cat, settings, db, user, semester, codes, now);
    if early.Some? then early
    else
      var ids := AllRows(cat, semester, codes);
      if FullIds(Refill(db, redis, ids), ids) != {} then Some(FullSection)
      else ChoiceRejection(cat, settings, semester, codes, RowsAt(cat, SectionsOf(db, active)))
  }

  lemma RowsInCatalog(cat: Catalog, semester: string, codes: seq<string>)
    requires CatalogWf(cat) && Known(cat, semester, codes)
    ensures forall k :: 0 <= k < |AllRows(cat, semester, codes)| ==> AllRows(cat, semester, codes)[k] in cat.rows
  {
    forall k | 0 <= k < |AllRows(cat, semester, codes)| ensures AllRows(cat, semester, codes)[k] in cat.rows {
      RowsOfCodes(cat, semester, codes, k);
    }
  }

  // The representative row of some code is not among the registered items.
  predicate SomeNotRegistered(cat: Catalog, db: Db, semester: string, codes: seq<string>, active: seq<ItemId>)
    requires CatalogWf(cat) && Known(cat, semester, codes)
    requires forall k :: 0 <= k < |active| ==> active[k] in db.items
  {
    exists r :: r in Representatives(cat, semester, codes) && r.id !in SectionsOf(db, active)
  }

  ghost predicate PendingCancel(db: Db, user: UserId, semester: string) {
    exists b :: WaitingBatch(db, user, semester, b) && db.batches[b].kind == CANCEL
  }

  // The first check of cancelBatch that fails. `active` answers the query for
  // the rows of the codes.
  ghost function CancelRejection(cat: Catalog, settings: Settings, db: Db,
                                 user: UserId, semester: string, codes: seq<string>, now: int,
                                 active: seq<ItemId>): Option<Rejection>
    requires CatalogWf(cat)
    requires forall k :: 0 <= k < |active| ==> active[k] in db.items
  {
    if !Known(cat, semester, codes) then Some(UnknownCode)
    else if !SessionOpen(settings, semester, now) then Some(SessionClosed)
    else if SomeNotRegistered(cat, db, semester, codes, active) then Some(NotRegistered)
    else if PendingCancel(db, user, semester) then Some(PendingBatch)
    else None
  }

  // ---- The rules a student's registrations obey ----

  // A registration a student holds or has asked for.
  datatype Enrolment = Enrolment(batch: BatchId, section: SectionId)

  ghost predicate Catalogued(cat: Catalog, held: set<Enrolment>) {
    forall e :: e in held ==> e.section in cat.rows
  }

  ghost predicate NoClash(cat: Catalog, held: set<Enrolment>)
    requires Catalogued(cat, held)
  {
    forall e, f :: e in held && f in held ==> !Conflict(cat.rows[e.section], cat.rows[f.section])
  }

  ghost predicate OneBatchPerCourse(cat: Catalog, held: set<Enrolment>)
    requires Catalogued(cat, held)
  {
    forall e, f :: e in held && f in held && cat.rows[e.section].course == cat.rows[f.section].course ==>
      e.batch == f.batch
  }

  // Per course: one lab code, at most two theory codes, linked when two.
  predicate TwoLabCodes(a: SectionRow, b: SectionRow) {
    a.course == b.course && a.code != b.code && IsLab(a) && IsLab(b)
  }

  predicate ApartTheoryCodes(a: SectionRow, b: SectionRow) {
    a.course == b.course && a.code != b.code && IsTheory(a) && IsTheory(b) && !Linked(a, b)
  }

  predicate ThreeTheoryCodes(a: SectionRow, b: SectionRow, c: SectionRow) {
    && a.course == b.course && b.course == c.course && IsTheory(a) && IsTheory(b) && IsTheory(c)
    && a.code != b.code && b.code != c.code && a.code != c.code
  }

  ghost predicate ChoiceLimits(cat: Catalog, held: set<Enrolment>)
    requires Catalogued(cat, held)
  {
    && (forall e, f :: e in held && f in held ==> !TwoLabCodes(cat.rows[e.section], cat.rows[f.section]))
    && (forall e, f :: e in held && f in held ==> !ApartTheoryCodes(cat.rows[e.section], cat.rows[f.section]))
    && (forall e, f, g :: e in held && f in held && g in held ==>
          !ThreeTheoryCodes(cat.rows[e.section], cat.rows[f.section], cat.rows[g.section]))
  }

  function HeldCourses(cat: Catalog, held: set<Enrolment>): set<CourseId>
    requires Catalogued(cat, held)
  {
    set e | e in held :: cat.rows[e.section].course
  }

  ghost predicate WithinCredits(cat: Catalog, maxCredits: int, held: set<Enrolment>)
    requires Catalogued(cat, held)
  {
    Credits(cat, HeldCourses(cat, held)) <= maxCredits
  }

  // Everything admission promises about one student.
  ghost predicate Lawful(cat: Catalog, maxCredits: int, held: set<Enrolment>) {
    && Catalogued(cat, held)
    && NoClash(cat, held) && OneBatchPerCourse(cat, held)
    && ChoiceLimits(cat, held) && WithinCredits(cat, maxCredits, held)
  }

  // Losing registrations never breaks a rule.
  lemma LawfulDownward(cat: Catalog, maxCredits: int, held: set<Enrolment>, fewer: set<Enrolment>)
    requires Lawful(cat, maxCredits, held) && fewer <= held
    ensures Lawful(cat, maxCredits, fewer)
  {
    var credit := (c: CourseId) => if c in cat.credits then cat.credits[c] else 0;
    assert forall e :: e in fewer ==> e in held;
    assert HeldCourses(cat, fewer) <= HeldCourses(cat, held);
    SumMonotone(HeldCourses(cat, fewer), HeldCourses(cat, held), credit);
  }

  // ---- Passing the checks extends a lawful set lawfully ----

  // What the last four checks of createBatch say, over plain lists.
  ghost predicate Passed(cat: Catalog, maxCredits: int, semester: string, codes: seq<string>, existing: seq<SectionRow>)
    requires CatalogWf(cat) && Known(cat, semester, codes)
  {
    RowsInCatalog(cat, semester, codes);
    var reps := Representatives(cat, semester, codes);
    && (forall r :: r in reps ==> r.course !in CoursesOf(existing))
    && PairingOk(reps + existing)
    && ConflictFree(RowSet(RowsAt(cat, AllRows(cat, semester, codes)) + existing))
    && Credits(cat, CoursesOf(existing)) + Credits(cat, CoursesOf(reps)) <= maxCredits
  }

  // An accepted request passed the checks.
  lemma AcceptedPassed(cat: Catalog, settings: Settings, db: Db, redis: map<SectionId, int>,
                       user: UserId, semester: string, codes: seq<string>, now: int, active: seq<ItemId>)
    requires CatalogWf(cat)
    requires forall k :: 0 <= k < |active| ==> active[k] in db.items && db.items[active[k]].section in cat.rows
    requires CreateRejection(cat, settings, db, redis, user, semester, codes, now, active).None?
    ensures forall b :: !WaitingBatch(db, user, semester, b)
    ensures Known(cat, semester, codes)
    ensures Passed(cat, settings.maxCredits, semester, codes, RowsAt(cat, SectionsOf(db, active)))
  {
  }

  // Being registered for a code of the rule with two rows (a lab code, or a
  // theory code not linked to itself) rejects every further CREATE request of
  // the student, whatever it asks for.
  lemma RepeatedCodeBlocks(cat: Catalog, settings: Settings, db: Db, redis: map<SectionId, int>,
                           user: UserId, semester: string, codes: seq<string>, now: int, active: seq<ItemId>)
    requires CatalogWf(cat)
    requires forall n :: 0 <= n < |active| ==> active[n] in db.items && db.items[active[n]].section in cat.rows
    requires RepeatedCode(RowsAt(cat, SectionsOf(db, active)))
    ensures CreateRejection(cat, settings, db, redis, user, semester, codes, now, active).Some?
  {
    if CreateRejection(cat, settings, db, redis, user, semester, codes, now, active).None? {
      AcceptedPassed(cat, settings, db, redis, user, semester, codes, now, active);
      RepeatedCodeFails(Representatives(cat, semester, codes), RowsAt(cat, SectionsOf(db, active)));
    }
  }

  // `existing` lists the rows of the sections in `held`.
  ghost predicate Lists(cat: Catalog, held: set<Enrolment>, existing: seq<SectionRow>)
    requires Catalogued(cat, held)
  {
    && (forall e :: e in held ==> cat.rows[e.section] in existing)
    && (forall r :: r in existing ==> exists e :: e in held && cat.rows[e.section] == r)
  }

  function Requested(b: BatchId, ids: seq<SectionId>): set<Enrolment> { set s | s in ids :: Enrolment(b, s) }

  // The representative of a requested row, at its position in the list.
  lemma RepresentativeAt(cat: Catalog, semester: string, codes: seq<string>, s: SectionId) returns (i: nat)
    requires CatalogWf(cat) && Known(cat, semester, codes) && s in AllRows(cat, semester, codes)
    ensures s in cat.rows && i < |codes| && codes[i] == cat.rows[s].code
    ensures SameClass(Representatives(cat, semester, codes)[i], cat.rows[s])
  {
    var k :| 0 <= k < |AllRows(cat, semester, codes)| && AllRows(cat, semester, codes)[k] == s;
    RowsOfCodes(cat, semester, codes, k);
    i :| 0 <= i < |codes| && codes[i] == cat.rows[s].code;
  }

  lemma CoursesApart(cat: Catalog, maxCredits: int, semester: string, codes: seq<string>, existing: seq<SectionRow>,
                     s: SectionId)
    requires CatalogWf(cat) && Known(cat, semester, codes) && Passed(cat, maxCredits, semester, codes, existing)
    requires s in AllRows(cat, semester, codes)
    ensures s in cat.rows
    ensures forall r :: r in existing ==> r.course != cat.rows[s].course
  {
    var i := RepresentativeAt(cat, semester, codes, s);
    var reps := Representatives(cat, semester, codes);
    assert reps[i] in reps;
    forall r | r in existing ensures r.course != cat.rows[s].course {
      assert r.course in CoursesOf(existing);
    }
  }

  // Two requested rows of one course obey the limits, because their
  // representatives went through the pairing check.
  lemma RequestedPair(cat: Catalog, maxCredits: int, semester: string, codes: seq<string>, existing: seq<SectionRow>,
                      s: SectionId, t: SectionId)
    requires CatalogWf(cat) && Known(cat, semester, codes) && Passed(cat, maxCredits, semester, codes, existing)
    requires s in AllRows(cat, semester, codes) && t in AllRows(cat, semester, codes)
    ensures s in cat.rows && t in cat.rows
    ensures !TwoLabCodes(cat.rows[s], cat.rows[t]) && !ApartTheoryCodes(cat.rows[s], cat.rows[t])
  {
    var i := RepresentativeAt(cat, semester, codes, s);
    var j := RepresentativeAt(cat, semester, codes, t);
    var reps := Representatives(cat, semester, codes);
    var rows := reps + existing;
    assert rows[i] == reps[i] && rows[j] == reps[j];
    if cat.rows[s].course == cat.rows[t].course && i != j {
      var lo, hi := if i < j then i else j, if i < j then j else i;
      assert SameCourse(rows, lo, hi);
    }
  }

  lemma RequestedTriple(cat: Catalog, maxCredits: int, semester: string, codes: seq<string>, existing: seq<SectionRow>,
                        s: SectionId, t: SectionId, u: SectionId)
    requires CatalogWf(cat) && Known(cat, semester, codes) && Passed(cat, maxCredits, semester, codes, existing)
    requires s in AllRows(cat, semester, codes) && t in AllRows(cat, semester, codes)
             && u in AllRows(cat, semester, codes)
    ensures s in cat.rows && t in cat.rows && u in cat.rows
    ensures !ThreeTheoryCodes(cat.rows[s], cat.rows[t], cat.rows[u])
  {
    var i := RepresentativeAt(cat, semester, codes, s);
    var j := RepresentativeAt(cat, semester, codes, t);
    var k := RepresentativeAt(cat, semester, codes, u);
    if ThreeTheoryCodes(cat.rows[s], cat.rows[t], cat.rows[u]) {
      var rows := Representatives(cat, semester, codes) + existing;
      NoTriple(rows, i, j, k);
    }
  }

  lemma NoTriple(rows: seq<SectionRow>, i: nat, j: nat, k: nat)
    requires AtMostTwoTheory(rows) && i < |rows| && j < |rows| && k < |rows|
    requires i != j && j != k && i != k
    requires rows[i].course == rows[j].course == rows[k].course
    ensures !(IsTheory(rows[i]) && IsTheory(rows[j]) && IsTheory(rows[k]))
  {
    var lo := if i < j && i < k then i else if j < k then j else k;
    var hi := if i > j && i > k then i else if j > k then j else k;
    var mid := i + j + k - lo - hi;
    assert lo < mid < hi;
    assert SameCourse(rows, lo, mid) && SameCourse(rows, mid, hi);
  }

  lemma ExtendLimits(cat: Catalog, maxCredits: int, semester: string, codes: seq<string>, existing: seq<SectionRow>,
                     held: set<Enrolment>, b: BatchId)
    requires CatalogWf(cat) && Known(cat, semester, codes) && Passed(cat, maxCredits, semester, codes, existing)
    requires Catalogued(cat, held) && ChoiceLimits(cat, held) && Lists(cat, held, existing)
    ensures Catalogued(cat, held + Requested(b, AllRows(cat, semester, codes)))
    ensures ChoiceLimits(cat, held + Requested(b, AllRows(cat, semester, codes)))
  {
    var ids := AllRows(cat, semester, codes);
    var all := held + Requested(b, ids);
    RowsInCatalog(cat, semester, codes);
    forall e, f | e in all && f in all
      ensures !TwoLabCodes(cat.rows[e.section], cat.rows[f.section])
              && !ApartTheoryCodes(cat.rows[e.section], cat.rows[f.section])
    {
      if cat.rows[e.section].course == cat.rows[f.section].course && !(e in held && f in held) {
        SameSide(cat, maxCredits, semester, codes, existing, held, b, e, f);
        RequestedPair(cat, maxCredits, semester, codes, existing, e.section, f.section);
      }
    }
    forall e, f, g | e in all && f in all && g in all
      ensures !ThreeTheoryCodes(cat.rows[e.section], cat.rows[f.section], cat.rows[g.section])
    {
      if cat.rows[e.section].course == cat.rows[f.section].course == cat.rows[g.section].course
        && !(e in held && f in held && g in held) {
        SameSide(cat, maxCredits, semester, codes, existing, held, b, e, f);
        SameSide(cat, maxCredits, semester, codes, existing, held, b, f, g);
        RequestedTriple(cat, maxCredits, semester, codes, existing, e.section, f.section, g.section);
      }
    }
  }

  // Rows of one course are all registered already or all newly asked for.
  lemma SameSide(cat: Catalog, maxCredits: int, semester: string, codes: seq<string>, existing: seq<SectionRow>,
                 held: set<Enrolment>, b: BatchId, e: Enrolment, f: Enrolment)
    requires CatalogWf(cat) && Known(cat, semester, codes) && Passed(cat, maxCredits, semester, codes, existing)
    requires Catalogued(cat, held) && Lists(cat, held, existing)
    requires e in held + Requested(b, AllRows(cat, semester, codes))
             && f in held + Requested(b, AllRows(cat, semester, codes))
    requires e.section in cat.rows && f.section in cat.rows && cat.rows[e.section].course == cat.rows[f.section].course
    ensures if e in held && f in held then true
            else
              e !in held && f !in held && e.section in AllRows(cat, semester, codes)
              && f.section in AllRows(cat, semester, codes)
  {
    if e !in held { CoursesApart(cat, maxCredits, semester, codes, existing, e.section); }
    if f !in held { CoursesApart(cat, maxCredits, semester, codes, existing, f.section); }
  }

  lemma ExtendCourses(cat: Catalog, maxCredits: int, semester: string, codes: seq<string>, existing: seq<SectionRow>,
                      held: set<Enrolment>, b: BatchId)
    requires CatalogWf(cat) && Known(cat, semester, codes) && Passed(cat, maxCredits, semester, codes, existing)
    requires Catalogued(cat, held) && OneBatchPerCourse(cat, held) && Lists(cat, held, existing)
    ensures Catalogued(cat, held + Requested(b, AllRows(cat, semester, codes)))
    ensures OneBatchPerCourse(cat, held + Requested(b, AllRows(cat, semester, codes)))
  {
    var ids := AllRows(cat, semester, codes);
    var all := held + Requested(b, ids);
    RowsInCatalog(cat, semester, codes);
    forall e, f | e in all && f in all && cat.rows[e.section].course == cat.rows[f.section].course
      ensures e.batch == f.batch
    {
      if e !in held { CoursesApart(cat, maxCredits, semester, codes, existing, e.section); }
      if f !in held { CoursesApart(cat, maxCredits, semester, codes, existing, f.section); }
    }
  }

  lemma ExtendTimetable(cat: Catalog, maxCredits: int, semester: string, codes: seq<string>, existing: seq<SectionRow>,
                        held: set<Enrolment>, b: BatchId)
    requires CatalogWf(cat) && Known(cat, semester, codes) && Passed(cat, maxCredits, semester, codes, existing)
    requires Catalogued(cat, held) && Lists(cat, held, existing)
    ensures Catalogued(cat, held + Requested(b, AllRows(cat, semester, codes)))
    ensures NoClash(cat, held + Requested(b, AllRows(cat, semester, codes)))
  {
    var ids := AllRows(cat, semester, codes);
    var all := held + Requested(b, ids);
    RowsInCatalog(cat, semester, codes);
    var rows := RowsAt(cat, ids) + existing;
    forall e | e in all ensures cat.rows[e.section] in RowSet(rows) {
      if e in held {
        assert cat.rows[e.section] in existing;
      } else {
        var k :| 0 <= k < |ids| && ids[k] == e.section;
        assert rows[k] == cat.rows[e.section];
      }
    }
  }

  lemma ExtendCredits(cat: Catalog, maxCredits: int, semester: string, codes: seq<string>, existing: seq<SectionRow>,
                      held: set<Enrolment>, b: BatchId)
    requires CatalogWf(cat) && Known(cat, semester, codes) && Passed(cat, maxCredits, semester, codes, existing)
    requires Catalogued(cat, held) && Lists(cat, held, existing)
    ensures Catalogued(cat, held + Requested(b, AllRows(cat, semester, codes)))
    ensures WithinCredits(cat, maxCredits, held + Requested(b, AllRows(cat, semester, codes)))
  {
    var ids := AllRows(cat, semester, codes);
    var all := held + Requested(b, ids);
    RowsInCatalog(cat, semester, codes);
    var before, asked := CoursesOf(existing), CoursesOf(Representatives(cat, semester, codes));
    forall c | c in HeldCourses(cat, all) ensures c in before + asked {
      var e :| e in all && cat.rows[e.section].course == c;
      if e in held {
        assert cat.rows[e.section] in existing;
      } else {
        var i := RepresentativeAt(cat, semester, codes, e.section);
        assert Representatives(cat, semester, codes)[i] in Representatives(cat, semester, codes);
      }
    }
    var credit := (c: CourseId) => if c in cat.credits then cat.credits[c] else 0;
    assert before !! asked;
    SumUnion(before, asked, credit);
    SumMonotone(HeldCourses(cat, all), before + asked, credit);
  }

  // Admission: what the student holds together with what is asked for is lawful again.
  lemma PassedExtends(cat: Catalog, maxCredits: int, semester: string, codes: seq<string>, existing: seq<SectionRow>,
                      held: set<Enrolment>, b: BatchId)
    requires CatalogWf(cat) && Known(cat, semester, codes) && Passed(cat, maxCredits, semester, codes, existing)
    requires Lawful(cat, maxCredits, held) && Lists(cat, held, existing)
    ensures Lawful(cat, maxCredits, held + Requested(b, AllRows(cat, semester, codes)))
  {
    ExtendLimits(cat, maxCredits, semester, codes, existing, held, b);
    ExtendCourses(cat, maxCredits, semester, codes, existing, held, b);
    ExtendTimetable(cat, maxCredits, semester, codes, existing, held, b);
    ExtendCredits(cat, maxCredits, semester, codes, existing, held, b);
  }
}
