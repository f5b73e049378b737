// When a request is accepted, refused, and why, in plain terms; and what the
// batch of an accepted request contains.
module AdmissionRules {
  import opened Prelude
  import opened Tables
  import opened Timetable
  import opened Pairing
  import opened PairingCount
  import opened Admission
  import opened Worker
  import opened Protocol
  import opened RegistrationsApi

  // What a request is checked against. `missed` are its codes without a lookup
  // entry and `existing` the rows of the student's registrations, as listed.
  datatype Ask = Ask(cat: Catalog, settings: Settings, db: Db, redis: map<SectionId, int>, missed: set<string>,
                     user: UserId, semester: string, codes: seq<string>, now: int, existing: seq<SectionRow>)

  // `s` is a row of the section code `c`, which the request names.
  predicate RowOf(q: Ask, c: string, s: SectionId) {
    c in q.codes && (q.semester, c) in q.cat.lookup && s in q.cat.lookup[(q.semester, c)]
  }

  // `s` is the first row of the code.
  predicate FirstRowOf(q: Ask, c: string, s: SectionId) {
    RowOf(q, c, s) && q.cat.lookup[(q.semester, c)][0] == s
  }

  // ---- The checks ----

  predicate OutsideSession(q: Ask) {
    q.semester != q.settings.currentSemester || q.now < q.settings.openAt || q.settings.closeAt < q.now
  }

  ghost predicate HasWaitingBatch(q: Ask, kind: Option<BatchKind>) {
    exists b :: b in q.db.batches && q.db.batches[b].user == q.user && q.db.batches[b].semester == q.semester
                && q.db.batches[b].status == Waiting && (kind.Some? ==> q.db.batches[b].kind == kind.value)
  }

  ghost predicate HasUnknownCode(q: Ask) { exists c :: c in q.codes && (q.semester, c) !in q.cat.lookup }

  ghost predicate HasClosedSection(q: Ask) {
    exists c, s :: FirstRowOf(q, c, s) && s in q.cat.rows
                   && (q.cat.rows[s].status == Some(SectionStatus.CANCELLED)
                       || q.cat.rows[s].status == Some(SectionStatus.REGISTRATION_CLOSED))
  }

  // A code without a lookup entry, or a row without a counter, counts by the
  // tables; any other row by its counter.
  predicate NoSeatLeft(q: Ask, c: string, s: SectionId) {
    s in q.db.seats
    && if c in q.missed || s !in q.redis then q.db.seats[s].slMax <= q.db.seats[s].slDk else q.redis[s] <= 0
  }

  ghost predicate HasFullSection(q: Ask) { exists c, s :: RowOf(q, c, s) && NoSeatLeft(q, c, s) }

  // `s` is a row the student is registered on.
  ghost predicate Registered(q: Ask, s: SectionId) {
    exists i :: ActiveItem(q.db, q.user, q.semester, i) && q.db.items[i].section == s
  }

  ghost predicate HasDuplicateCourse(q: Ask) {
    exists c, s, t :: FirstRowOf(q, c, s) && Registered(q, t)
                      && s in q.cat.rows && t in q.cat.rows && q.cat.rows[s].course == q.cat.rows[t].course
  }

  // Rows asked for or registered.
  ghost predicate InPlay(q: Ask, r: SectionRow) {
    exists s :: s in q.cat.rows && q.cat.rows[s] == r && (Registered(q, s) || exists c :: RowOf(q, c, s))
  }

  ghost predicate HasClash(q: Ask) { exists a, b :: InPlay(q, a) && InPlay(q, b) && Conflict(a, b) }

  ghost predicate CourseInPlay(q: Ask, course: CourseId) {
    exists s :: s in q.cat.rows && q.cat.rows[s].course == course
                && (Registered(q, s) || exists c :: FirstRowOf(q, c, s))
  }

  ghost predicate OverCredits(q: Ask) {
    exists courses: set<CourseId> ::
      (forall c :: c in courses <==> CourseInPlay(q, c)) && Credits(q.cat, courses) > q.settings.maxCredits
  }

  // The first rows of the codes, in order of first mention, before the rows registered.
  ghost predicate BreaksPairing(q: Ask)
    requires CatalogWf(q.cat)
  {
    Known(q.cat, q.semester, Distinct(q.codes))
    && !PairingRule(Representatives(q.cat, q.semester, Distinct(q.codes)) + q.existing)
  }

  // The row that stands for some code is not registered.
  ghost predicate HasUnregistered(q: Ask) { exists c, s :: FirstRowOf(q, c, s) && !Registered(q, s) }

  // The first check of a CREATE request that fails.
  ghost function CreateVerdict(q: Ask): Option<Rejection>
    requires CatalogWf(q.cat)
  {
    if OutsideSession(q) then Some(SessionClosed)
    else if HasWaitingBatch(q, None) then Some(PendingBatch)
    else if HasUnknownCode(q) then Some(UnknownCode)
    else if HasClosedSection(q) then Some(ClosedSection)
    else if HasFullSection(q) then Some(FullSection)
    else if HasDuplicateCourse(q) then Some(DuplicateCourse)
    else if BreaksPairing(q) then Some(PairingViolated)
    else if HasClash(q) then Some(ScheduleConflict)
    else if OverCredits(q) then Some(CreditLimit)
    else None
  }

  // The first check of a CANCEL request that fails.
  ghost function CancelVerdict(q: Ask): Option<Rejection> {
    if HasUnknownCode(q) then Some(UnknownCode)
    else if OutsideSession(q) then Some(SessionClosed)
    else if HasUnregistered(q) then Some(NotRegistered)
    else if HasWaitingBatch(q, Some(CANCEL)) then Some(PendingBatch)
    else None
  }

  // ---- Each check of the code is the check above ----

  // What the code reads of the request.
  ghost predicate Read(q: Ask, active: seq<ItemId>) {
    && CatalogWf(q.cat) && q.cat.rows.Keys <= q.db.seats.Keys
    && EntriesOk(q.cat, q.semester, Distinct(q.codes), q.missed)
    && ActiveAnswer(q.db, q.user, q.semester, None, active) && ItemsInCatalog(q.cat, q.db, active)
    && q.existing == RowsAt(q.cat, SectionsOf(q.db, active))
  }

  lemma {:induction false} InAllRows(cat: Catalog, semester: string, codes: seq<string>, s: SectionId)
    requires Known(cat, semester, codes)
    ensures s in AllRows(cat, semester, codes) <==>
            exists c :: c in codes && (semester, c) in cat.lookup && s in cat.lookup[(semester, c)]
  {
    if codes != [] {
      InAllRows(cat, semester, codes[1..], s);
      assert codes == [codes[0]] + codes[1..];
      assert (semester, codes[0]) in cat.lookup;
    }
  }

  lemma KnownExactly(q: Ask)
    ensures Known(q.cat, q.semester, Distinct(q.codes)) <==> !HasUnknownCode(q)
  {
    var codes := Distinct(q.codes);
    if c :| c in q.codes && (q.semester, c) !in q.cat.lookup {
      var i :| 0 <= i < |codes| && codes[i] == c;
    }
    if !Known(q.cat, q.semester, codes) {
      var i :| 0 <= i < |codes| && (q.semester, codes[i]) !in q.cat.lookup;
      assert codes[i] in q.codes;
    }
  }

  // The representatives are the first rows of the codes.
  lemma FirstRows(q: Ask, r: SectionRow)
    requires CatalogWf(q.cat) && Known(q.cat, q.semester, Distinct(q.codes))
    ensures r in Representatives(q.cat, q.semester, Distinct(q.codes)) <==>
            exists c, s :: FirstRowOf(q, c, s) && s in q.cat.rows && q.cat.rows[s] == r
  {
    var codes := Distinct(q.codes);
    var reps := Representatives(q.cat, q.semester, codes);
    if r in reps {
      var i :| 0 <= i < |reps| && reps[i] == r;
      assert EntryOk(q.cat, codes[i], q.cat.lookup[(q.semester, codes[i])]);
      assert codes[i] in q.codes;
      assert FirstRowOf(q, codes[i], q.cat.lookup[(q.semester, codes[i])][0]);
    }
    if c, s :| FirstRowOf(q, c, s) && s in q.cat.rows && q.cat.rows[s] == r {
      var i :| 0 <= i < |codes| && codes[i] == c;
      assert reps[i] == r;
    }
  }

  lemma ClosedExactly(q: Ask)
    requires CatalogWf(q.cat) && Known(q.cat, q.semester, Distinct(q.codes))
    ensures (exists r :: r in Representatives(q.cat, q.semester, Distinct(q.codes)) && Closed(r)) <==>
            HasClosedSection(q)
  {
    var reps := Representatives(q.cat, q.semester, Distinct(q.codes));
    if r :| r in reps && Closed(r) { FirstRows(q, r); }
    if c, s :| FirstRowOf(q, c, s) && s in q.cat.rows && Closed(q.cat.rows[s]) { FirstRows(q, q.cat.rows[s]); }
  }

  // A row has one code, so it is missed exactly when its code is.
  lemma MissedExactly(q: Ask, c: string, s: SectionId)
    requires CatalogWf(q.cat) && RowOf(q, c, s)
    ensures s in q.cat.rows
    ensures s in MissedRows(q.cat, q.semester, Distinct(q.codes), q.missed) <==> c in q.missed
  {
    assert EntryOk(q.cat, c, q.cat.lookup[(q.semester, c)]);
    if s in MissedRows(q.cat, q.semester, Distinct(q.codes), q.missed) {
      var d :| d in q.missed && (q.semester, d) in q.cat.lookup && s in q.cat.lookup[(q.semester, d)];
      assert EntryOk(q.cat, d, q.cat.lookup[(q.semester, d)]);
    }
    if c in q.missed { assert c in Distinct(q.codes); }
  }

  // The counters the capacity check starts from.
  ghost function Looked(q: Ask): map<SectionId, int> {
    Resolved(q.cat, q.db, q.redis, q.semester, Distinct(q.codes), q.missed)
  }

  lemma CounterOf(q: Ask, c: string, s: SectionId)
    requires CatalogWf(q.cat) && q.cat.rows.Keys <= q.db.seats.Keys && RowOf(q, c, s)
    ensures s in q.db.seats
    ensures s in Looked(q) ==> (Looked(q)[s] <= 0 <==> NoSeatLeft(q, c, s))
    ensures s !in Looked(q) ==> (FreeSeats(q.db, s) <= 0 <==> NoSeatLeft(q, c, s))
  {
    MissedExactly(q, c, s);
  }

  lemma FullExactly(q: Ask)
    requires CatalogWf(q.cat) && q.cat.rows.Keys <= q.db.seats.Keys && Known(q.cat, q.semester, Distinct(q.codes))
    ensures var ids := AllRows(q.cat, q.semester, Distinct(q.codes));
            FullIds(Refill(q.db, Looked(q), ids), ids) != {} <==> HasFullSection(q)
  {
    var ids := AllRows(q.cat, q.semester, Distinct(q.codes));
    var full := FullIds(Refill(q.db, Looked(q), ids), ids);
    if s :| s in full { FullRow(q, s); }
    if c, s :| RowOf(q, c, s) && NoSeatLeft(q, c, s) { FullHere(q, c, s); }
  }

  lemma FullRow(q: Ask, s: SectionId)
    requires CatalogWf(q.cat) && q.cat.rows.Keys <= q.db.seats.Keys && Known(q.cat, q.semester, Distinct(q.codes))
    requires var ids := AllRows(q.cat, q.semester, Distinct(q.codes)); s in FullIds(Refill(q.db, Looked(q), ids), ids)
    ensures HasFullSection(q)
  {
    var codes := Distinct(q.codes);
    InAllRows(q.cat, q.semester, codes, s);
    var c :| c in codes && (q.semester, c) in q.cat.lookup && s in q.cat.lookup[(q.semester, c)];
    assert RowOf(q, c, s);
    CounterOf(q, c, s);
  }

  lemma FullHere(q: Ask, c: string, s: SectionId)
    requires CatalogWf(q.cat) && q.cat.rows.Keys <= q.db.seats.Keys && Known(q.cat, q.semester, Distinct(q.codes))
    requires RowOf(q, c, s) && NoSeatLeft(q, c, s)
    ensures var ids := AllRows(q.cat, q.semester, Distinct(q.codes)); s in FullIds(Refill(q.db, Looked(q), ids), ids)
  {
    assert c in Distinct(q.codes);
    InAllRows(q.cat, q.semester, Distinct(q.codes), s);
    CounterOf(q, c, s);
  }

  // The rows listed as registered are the rows the student is registered on.
  lemma ExistingRows(q: Ask, active: seq<ItemId>, r: SectionRow)
    requires Read(q, active)
    ensures r in q.existing <==> exists t :: Registered(q, t) && t in q.cat.rows && q.cat.rows[t] == r
  {
    if r in q.existing {
      var k :| 0 <= k < |q.existing| && q.existing[k] == r;
      assert ActiveItem(q.db, q.user, q.semester, active[k]);
      assert Registered(q, q.db.items[active[k]].section);
    }
    if t :| Registered(q, t) && t in q.cat.rows && q.cat.rows[t] == r {
      var i :| ActiveItem(q.db, q.user, q.semester, i) && q.db.items[i].section == t;
      assert AnsweredBy(q.db, active, i);
      var k :| 0 <= k < |active| && active[k] in q.db.items && q.db.items[active[k]].section == t;
      assert q.existing[k] == r;
    }
  }

  lemma DuplicateExactly(q: Ask, active: seq<ItemId>)
    requires Read(q, active) && Known(q.cat, q.semester, Distinct(q.codes))
    ensures (exists r ::
               r in Representatives(q.cat, q.semester, Distinct(q.codes)) && r.course in CoursesOf(q.existing))
            <==> HasDuplicateCourse(q)
  {
    var reps := Representatives(q.cat, q.semester, Distinct(q.codes));
    if r :| r in reps && r.course in CoursesOf(q.existing) {
      FirstRows(q, r);
      var e :| e in q.existing && e.course == r.course;
      ExistingRows(q, active, e);
    }
    if c, s, t :|
      FirstRowOf(q, c, s) && Registered(q, t) && s in q.cat.rows && t in q.cat.rows
      && q.cat.rows[s].course == q.cat.rows[t].course
    {
      FirstRows(q, q.cat.rows[s]);
      ExistingRows(q, active, q.cat.rows[t]);
      assert q.cat.rows[s] in reps;
    }
  }

  lemma RowsInPlay(q: Ask, active: seq<ItemId>, r: SectionRow)
    requires Read(q, active) && Known(q.cat, q.semester, Distinct(q.codes))
    ensures var ids := AllRows(q.cat, q.semester, Distinct(q.codes));
            (forall k :: 0 <= k < |ids| ==> ids[k] in q.cat.rows)
            && (r in RowsAt(q.cat, ids) + q.existing <==> InPlay(q, r))
  {
    var codes := Distinct(q.codes);
    var ids := AllRows(q.cat, q.semester, codes);
    RowsInCatalog(q.cat, q.semester, codes);
    ExistingRows(q, active, r);
    if r in RowsAt(q.cat, ids) {
      var k :| 0 <= k < |ids| && RowsAt(q.cat, ids)[k] == r;
      InAllRows(q.cat, q.semester, codes, ids[k]);
      var c :| c in codes && (q.semester, c) in q.cat.lookup && ids[k] in q.cat.lookup[(q.semester, c)];
      assert RowOf(q, c, ids[k]);
    }
    if s, c :| s in q.cat.rows && q.cat.rows[s] == r && RowOf(q, c, s) {
      assert c in codes;
      InAllRows(q.cat, q.semester, codes, s);
      var k :| 0 <= k < |ids| && ids[k] == s;
      assert RowsAt(q.cat, ids)[k] == r;
    }
  }

  lemma ClashExactly(q: Ask, active: seq<ItemId>)
    requires Read(q, active) && Known(q.cat, q.semester, Distinct(q.codes))
    ensures var ids := AllRows(q.cat, q.semester, Distinct(q.codes));
            (forall k :: 0 <= k < |ids| ==> ids[k] in q.cat.rows)
            && (!ConflictFree(RowSet(RowsAt(q.cat, ids) + q.existing)) <==> HasClash(q))
  {
    var ids := AllRows(q.cat, q.semester, Distinct(q.codes));
    RowsInCatalog(q.cat, q.semester, Distinct(q.codes));
    var rows := RowsAt(q.cat, ids) + q.existing;
    forall r ensures r in RowSet(rows) <==> InPlay(q, r) { RowsInPlay(q, active, r); }
  }

  lemma CoursesInPlay(q: Ask, active: seq<ItemId>, course: CourseId)
    requires Read(q, active) && Known(q.cat, q.semester, Distinct(q.codes))
    ensures course in CoursesOf(q.existing) + CoursesOf(Representatives(q.cat, q.semester, Distinct(q.codes)))
            <==> CourseInPlay(q, course)
  {
    var reps := Representatives(q.cat, q.semester, Distinct(q.codes));
    if course in CoursesOf(q.existing) {
      var e :| e in q.existing && e.course == course;
      ExistingRows(q, active, e);
    }
    if course in CoursesOf(reps) {
      var r :| r in reps && r.course == course;
      FirstRows(q, r);
    }
    if s :| s in q.cat.rows && q.cat.rows[s].course == course && Registered(q, s) {
      ExistingRows(q, active, q.cat.rows[s]);
    }
    if s, c :| s in q.cat.rows && q.cat.rows[s].course == course && FirstRowOf(q, c, s) {
      FirstRows(q, q.cat.rows[s]);
    }
  }

  lemma SharedCourse(q: Ask, active: seq<ItemId>, course: CourseId)
    requires Read(q, active) && Known(q.cat, q.semester, Distinct(q.codes))
    requires course in CoursesOf(q.existing)
    requires course in CoursesOf(Representatives(q.cat, q.semester, Distinct(q.codes)))
    ensures HasDuplicateCourse(q)
  {
    var r :| r in Representatives(q.cat, q.semester, Distinct(q.codes)) && r.course == course;
    DuplicateExactly(q, active);
  }

  // With no course twice, the two sums are the sum over all courses.
  lemma CreditsExactly(q: Ask, active: seq<ItemId>)
    requires Read(q, active) && Known(q.cat, q.semester, Distinct(q.codes)) && !HasDuplicateCourse(q)
    ensures Credits(q.cat, CoursesOf(q.existing))
            + Credits(q.cat, CoursesOf(Representatives(q.cat, q.semester, Distinct(q.codes)))) > q.settings.maxCredits
            <==> OverCredits(q)
  {
    var reps := Representatives(q.cat, q.semester, Distinct(q.codes));
    var known, asked := CoursesOf(q.existing), CoursesOf(reps);
    if !(known !! asked) {
      var c :| c in known && c in asked;
      SharedCourse(q, active, c);
    }
    SumUnion(known, asked, (c: CourseId) => if c in q.cat.credits then q.cat.credits[c] else 0);
    forall c ensures c in known + asked <==> CourseInPlay(q, c) { CoursesInPlay(q, active, c); }
    OverExactly(q, known + asked);
  }

  lemma OverExactly(q: Ask, courses: set<CourseId>)
    requires forall c :: c in courses <==> CourseInPlay(q, c)
    ensures OverCredits(q) <==> Credits(q.cat, courses) > q.settings.maxCredits
  {
    if more: set<CourseId> :|
      (forall c :: c in more <==> CourseInPlay(q, c)) && Credits(q.cat, more) > q.settings.maxCredits
    {
      assert more == courses;
    }
  }

  // ---- The decision ----

  lemma EarlyExactly(q: Ask)
    requires CatalogWf(q.cat)
    ensures var early := EarlyRejection(q.cat, q.settings, q.db, q.user, q.semester, Distinct(q.codes), q.now);
            early == if OutsideSession(q) then Some(SessionClosed)
                     else if HasWaitingBatch(q, None) then Some(PendingBatch)
                     else if HasUnknownCode(q) then Some(UnknownCode)
                     else if HasClosedSection(q) then Some(ClosedSection)
                     else None
  {
    KnownExactly(q);
    if Known(q.cat, q.semester, Distinct(q.codes)) { ClosedExactly(q); }
    WaitingExactly(q);
  }

  lemma WaitingExactly(q: Ask)
    ensures HasWaitingBatch(q, None) <==> exists b :: WaitingBatch(q.db, q.user, q.semester, b)
    ensures HasWaitingBatch(q, Some(CANCEL)) <==> PendingCancel(q.db, q.user, q.semester)
  {
    if b :|
      b in q.db.batches && q.db.batches[b].user == q.user && q.db.batches[b].semester == q.semester
      && q.db.batches[b].status == Waiting
    {
      assert WaitingBatch(q.db, q.user, q.semester, b);
    }
    if b :|
      b in q.db.batches && q.db.batches[b].user == q.user && q.db.batches[b].semester == q.semester
      && q.db.batches[b].status == Waiting && q.db.batches[b].kind == CANCEL
    {
      assert WaitingBatch(q.db, q.user, q.semester, b);
    }
  }

  lemma ChoiceExactly(q: Ask, active: seq<ItemId>)
    requires Read(q, active) && Known(q.cat, q.semester, Distinct(q.codes))
    ensures var choice := ChoiceRejection(q.cat, q.settings, q.semester, Distinct(q.codes), q.existing);
            choice == if HasDuplicateCourse(q) then Some(DuplicateCourse)
                      else if BreaksPairing(q) then Some(PairingViolated)
                      else if HasClash(q) then Some(ScheduleConflict)
                      else if OverCredits(q) then Some(CreditLimit)
                      else None
  {
    DuplicateExactly(q, active);
    PairingIsCounting(Representatives(q.cat, q.semester, Distinct(q.codes)) + q.existing);
    ClashExactly(q, active);
    if !HasDuplicateCourse(q) { CreditsExactly(q, active); }
  }

  // createBatch refuses for the first check that fails, and accepts when none does.
  lemma CreateDecision(q: Ask, active: seq<ItemId>)
    requires Read(q, active)
    ensures CreateRejection(q.cat, q.settings, q.db, Looked(q), q.user, q.semester, Distinct(q.codes), q.now, active) ==
            CreateVerdict(q)
  {
    EarlyExactly(q);
    KnownExactly(q);
    if Known(q.cat, q.semester, Distinct(q.codes)) {
      FullExactly(q);
      ChoiceExactly(q, active);
    }
  }

  // What cancelBatch reads: the registrations on the rows it resolves.
  ghost predicate ReadForCancel(q: Ask, active: seq<ItemId>) {
    && CatalogWf(q.cat)
    && ActiveAnswer(q.db, q.user, q.semester, Some(IdSet(KnownRows(q.cat, q.semester, Distinct(q.codes)))), active)
  }

  lemma UnregisteredExactly(q: Ask, active: seq<ItemId>)
    requires ReadForCancel(q, active) && Known(q.cat, q.semester, Distinct(q.codes))
    ensures SomeNotRegistered(q.cat, q.db, q.semester, Distinct(q.codes), active) <==> HasUnregistered(q)
  {
    var reps := Representatives(q.cat, q.semester, Distinct(q.codes));
    if r :| r in reps && r.id !in SectionsOf(q.db, active) {
      FirstRows(q, r);
      var c, s :| FirstRowOf(q, c, s) && s in q.cat.rows && q.cat.rows[s] == r;
      ListedIfRegistered(q, active, c, s);
    }
    if c, s :| FirstRowOf(q, c, s) && !Registered(q, s) {
      assert EntryOk(q.cat, c, q.cat.lookup[(q.semester, c)]);
      FirstRows(q, q.cat.rows[s]);
      ListedIfRegistered(q, active, c, s);
    }
  }

  lemma ListedIfRegistered(q: Ask, active: seq<ItemId>, c: string, s: SectionId)
    requires ReadForCancel(q, active) && Known(q.cat, q.semester, Distinct(q.codes)) && RowOf(q, c, s)
    ensures s in SectionsOf(q.db, active) <==> Registered(q, s)
  {
    assert c in Distinct(q.codes);
    InAllRows(q.cat, q.semester, Distinct(q.codes), s);
    if s in SectionsOf(q.db, active) {
      var k :| 0 <= k < |active| && SectionsOf(q.db, active)[k] == s;
      assert ActiveItem(q.db, q.user, q.semester, active[k]);
    }
    if i :| ActiveItem(q.db, q.user, q.semester, i) && q.db.items[i].section == s {
      assert AnsweredBy(q.db, active, i);
      var k :| 0 <= k < |active| && active[k] in q.db.items && q.db.items[active[k]].section == s;
      assert SectionsOf(q.db, active)[k] == s;
    }
  }

  // cancelBatch refuses for the first check that fails, and accepts when none does.
  lemma CancelDecision(q: Ask, active: seq<ItemId>)
    requires ReadForCancel(q, active)
    ensures CancelRejection(q.cat, q.settings, q.db, q.user, q.semester, Distinct(q.codes), q.now, active) ==
            CancelVerdict(q)
  {
    KnownExactly(q);
    WaitingExactly(q);
    if Known(q.cat, q.semester, Distinct(q.codes)) { UnregisteredExactly(q, active); }
  }

  // ---- What an accepted request stores and publishes ----

  // One entry for every row of every code named, and no other.
  ghost predicate ListsRows(q: Ask, items: seq<JobItem>) {
    && (forall k :: 0 <= k < |items| ==>
          items[k].sectionId.Some? && exists c :: RowOf(q, c, items[k].sectionId.value))
    && (forall c, s :: RowOf(q, c, s) ==> ListsSection(items, s))
    && (forall j, k :: 0 <= j < k < |items| ==> items[j].sectionId != items[k].sectionId)
  }

  ghost predicate ListsSection(items: seq<JobItem>, s: SectionId) {
    exists k :: 0 <= k < |items| && items[k].sectionId == Some(s)
  }

  // Every entry names the item given to its position.
  predicate NamesItems(items: seq<JobItem>, itemIds: seq<ItemId>) {
    |items| == |itemIds| && forall k :: 0 <= k < |items| ==> items[k].itemId == itemIds[k]
  }

  predicate NoSources(items: seq<JobItem>) { forall k :: 0 <= k < |items| ==> items[k].source.None? }

  // An entry has a source exactly when the student is registered on its row, and
  // the source is a registration of the student on that row.
  ghost predicate NamesSources(q: Ask, items: seq<JobItem>) {
    forall k :: 0 <= k < |items| && items[k].sectionId.Some? ==>
      && (items[k].source.Some? <==> Registered(q, items[k].sectionId.value))
      && (items[k].source.Some? ==>
            ActiveItem(q.db, q.user, q.semester, items[k].source.value)
            && q.db.items[items[k].source.value].section == items[k].sectionId.value)
  }

  lemma RowsListed(q: Ask, items: seq<JobItem>)
    requires CatalogWf(q.cat) && Known(q.cat, q.semester, Distinct(q.codes))
    requires var ids := AllRows(q.cat, q.semester, Distinct(q.codes));
             |items| == |ids| && forall k :: 0 <= k < |ids| ==> items[k].sectionId == Some(ids[k])
    ensures ListsRows(q, items)
  {
    var codes := Distinct(q.codes);
    var ids := AllRows(q.cat, q.semester, codes);
    AllRowsDistinct(q.cat, q.semester, codes);
    forall k | 0 <= k < |items| ensures exists c :: RowOf(q, c, ids[k]) {
      InAllRows(q.cat, q.semester, codes, ids[k]);
      var c :| c in codes && (q.semester, c) in q.cat.lookup && ids[k] in q.cat.lookup[(q.semester, c)];
      assert RowOf(q, c, ids[k]);
    }
    forall c, s: SectionId | RowOf(q, c, s) ensures ListsSection(items, s) {
      assert c in codes;
      InAllRows(q.cat, q.semester, codes, s);
      var k :| 0 <= k < |ids| && ids[k] == s;
      assert items[k].sectionId == Some(s);
    }
  }

  lemma {:induction false} SourceListed(db: Db, active: seq<ItemId>, s: SectionId)
    requires forall k :: 0 <= k < |active| ==> active[k] in db.items
    ensures SourceOf(db, active, s).Some? <==> exists k :: 0 <= k < |active| && db.items[active[k]].section == s
  {
    if active != [] {
      var before := active[..|active| - 1];
      SourceListed(db, before, s);
      if k :| 0 <= k < |active| && db.items[active[k]].section == s {
        if k < |before| { assert before[k] == active[k]; }
      }
      if k :| 0 <= k < |before| && db.items[before[k]].section == s { assert active[k] == before[k]; }
    }
  }

  lemma SourceExactly(q: Ask, active: seq<ItemId>, s: SectionId)
    requires ReadForCancel(q, active) && Known(q.cat, q.semester, Distinct(q.codes))
    requires exists c :: RowOf(q, c, s)
    ensures var source := SourceOf(q.db, active, s);
            && (source.Some? <==> Registered(q, s))
            && (source.Some? ==>
                  ActiveItem(q.db, q.user, q.semester, source.value) && q.db.items[source.value].section == s)
  {
    var c :| RowOf(q, c, s);
    SourceListed(q.db, active, s);
    ListedIfRegistered(q, active, c, s);
    if SourceOf(q.db, active, s).Some? {
      var k :| 0 <= k < |active| && active[k] == SourceOf(q.db, active, s).value;
      assert ActiveItem(q.db, q.user, q.semester, active[k]);
    }
    if k :| 0 <= k < |active| && q.db.items[active[k]].section == s { assert SectionsOf(q.db, active)[k] == s; }
    if s in SectionsOf(q.db, active) {
      var k :| 0 <= k < |active| && SectionsOf(q.db, active)[k] == s;
      assert q.db.items[active[k]].section == s;
    }
  }

  // The request of a submission in a state.
  function AskOf(cfg: Config, s: State, sub: Submission, missed: set<string>, existing: seq<SectionRow>): Ask {
    Ask(cfg.catalog, cfg.settings, s.db, s.redis, missed, sub.user, sub.semester, sub.codes, sub.now, existing)
  }

  // The batch of every accepted CREATE request.
  lemma CreateStores(cfg: Config, s: State, sub: Submission, q: Ask)
    requires Enabled(cfg, s, SubmitCreate(sub)) && q == AskOf(cfg, s, sub, q.missed, q.existing)
    ensures var after := Apply(cfg, s, SubmitCreate(sub)).db;
            && sub.batch in after.batches
            && var batch := after.batches[sub.batch];
            && batch.user == sub.user && batch.semester == sub.semester && batch.kind == CREATE
               && batch.status == Waiting
            && ListsRows(q, batch.payload) && NamesItems(batch.payload, sub.itemIds) && NoSources(batch.payload)
  {
    RowsListed(q, CreateBatchOf(cfg, sub).payload);
  }

  // The batch of every accepted CANCEL request.
  lemma CancelStores(cfg: Config, s: State, sub: Submission, q: Ask)
    requires Enabled(cfg, s, SubmitCancel(sub)) && q == AskOf(cfg, s, sub, q.missed, q.existing)
    ensures var after := Apply(cfg, s, SubmitCancel(sub)).db;
            && sub.batch in after.batches
            && var batch := after.batches[sub.batch];
            && batch.user == sub.user && batch.semester == sub.semester && batch.kind == CANCEL
               && batch.status == Waiting
            && ListsRows(q, batch.payload) && NamesItems(batch.payload, sub.itemIds) && NamesSources(q, batch.payload)
  {
    var items := CancelBatchOf(cfg, s.db, sub).payload;
    RowsListed(q, items);
    forall k | 0 <= k < |items|
      ensures (items[k].source.Some? <==> Registered(q, items[k].sectionId.value))
              && (items[k].source.Some? ==>
                    ActiveItem(q.db, q.user, q.semester, items[k].source.value)
                    && q.db.items[items[k].source.value].section == items[k].sectionId.value)
    {
      SourceExactly(q, sub.active, items[k].sectionId.value);
    }
  }

  // ---- The service ----

  // createBatch, from the request to the message body.
  method Register(service: RegistrationsService, sub: Submission, missed: set<string>, found: seq<ItemId>,
                  created: seq<CreatedRow>, dbFault: bool, confirmed: bool, ghost q: Ask)
    returns (reply: Reply, body: Option<Job>)
    requires service.Supplied(sub, missed, created) && (confirmed ==> sub.published)
    requires Found(service.tables.View(), sub.user, sub.semester, None, found)
             && ItemsInCatalog(service.cfg.catalog, service.tables.View(), found)
    requires q.existing == RowsListedIn(service.cfg.catalog, service.tables.View(), found)
    requires q == AskOf(service.cfg, service.View(), sub, missed, q.existing)
    modifies service, service.tables, service.redis
    ensures reply.Rejected? <==> CreateVerdict(q).Some?
    ensures reply.Rejected? ==> CreateVerdict(q) == Some(reply.reason) && body == None
    ensures !reply.Rejected? ==>
      (reply.Accepted? <==> !dbFault && confirmed) && (body.Some? <==> !dbFault)
    ensures body.Some? ==>
      && body.value.batch == sub.batch && body.value.kind == CREATE
      && ListsRows(q, body.value.items) && NamesItems(body.value.items, sub.itemIds) && NoSources(body.value.items)
      && sub.batch in service.tables.batches
      && service.tables.batches[sub.batch] == Batch(sub.user, sub.semester, CREATE, Waiting, body.value.items)
  {
    LatestAnswers(q.db, q.user, q.semester, None, found);
    LatestInCatalog(q.cat, q.db, found);
    CreateDecision(q, Latest(q.db, found));
    ghost var before := service.View();
    reply, body := service.CreateBatch(sub, missed, found, created, dbFault, confirmed);
    if body.Some? {
      ghost var filled := Apply(service.cfg, before, CacheFill(Looked(q)));
      CreateStores(service.cfg, filled, sub.(active := Latest(q.db, found)), q.(redis := filled.redis));
      SameRows(q, q.(redis := filled.redis), body.value.items);
    }
  }

  // The rows of the registered items, one for each section, as the query lists them.
  ghost function RowsListedIn(cat: Catalog, db: Db, found: seq<ItemId>): seq<SectionRow>
    requires ItemsInCatalog(cat, db, found)
  {
    LatestInCatalog(cat, db, found);
    RowsAt(cat, SectionsOf(db, Latest(db, found)))
  }

  lemma SameRows(q: Ask, r: Ask, items: seq<JobItem>)
    requires r == q.(redis := r.redis) && ListsRows(r, items)
    ensures ListsRows(q, items)
    ensures NamesSources(r, items) ==> NamesSources(q, items)
  {
    forall k | 0 <= k < |items|
      ensures items[k].sectionId.Some? && exists c :: RowOf(q, c, items[k].sectionId.value)
    {
      var c :| RowOf(r, c, items[k].sectionId.value);
      assert RowOf(q, c, items[k].sectionId.value);
    }
    forall c, s: SectionId | RowOf(q, c, s) ensures ListsSection(items, s) { assert RowOf(r, c, s); }
    forall s: SectionId ensures Registered(q, s) <==> Registered(r, s) {
      if i :| ActiveItem(q.db, q.user, q.semester, i) && q.db.items[i].section == s {
        assert ActiveItem(r.db, r.user, r.semester, i);
      }
    }
  }

  // cancelBatch, from the request to the message body.
  method Withdraw(service: RegistrationsService, sub: Submission, missed: set<string>, found: seq<ItemId>,
                  created: seq<CreatedRow>, dbFault: bool, confirmed: bool, ghost q: Ask)
    returns (reply: Reply, body: Option<Job>)
    requires service.Supplied(sub, missed, created) && (confirmed ==> sub.published)
    requires Found(service.tables.View(), sub.user, sub.semester,
                   Some(IdSet(KnownRows(service.cfg.catalog, sub.semester, Distinct(sub.codes)))), found)
    requires q == AskOf(service.cfg, service.View(), sub, missed, q.existing)
    modifies service, service.tables, service.redis
    ensures reply.Rejected? <==> CancelVerdict(q).Some?
    ensures reply.Rejected? ==> CancelVerdict(q) == Some(reply.reason) && body == None
    ensures !reply.Rejected? ==>
      (reply.Accepted? <==> !dbFault && confirmed) && (body.Some? <==> !dbFault)
    ensures body.Some? ==>
      && body.value.batch == sub.batch && body.value.kind == CANCEL
      && ListsRows(q, body.value.items) && NamesItems(body.value.items, sub.itemIds)
      && NamesSources(q, body.value.items)
      && sub.batch in service.tables.batches
      && service.tables.batches[sub.batch] == Batch(sub.user, sub.semester, CANCEL, Waiting, body.value.items)
  {
    FoundListed(q.db, q.user, q.semester, Some(IdSet(KnownRows(q.cat, q.semester, Distinct(q.codes)))), found);
    LatestAnswers(q.db, q.user, q.semester, Some(IdSet(KnownRows(q.cat, q.semester, Distinct(q.codes)))), found);
    CancelDecision(q, Latest(q.db, found));
    ghost var before := service.View();
    reply, body := service.CancelBatch(sub, missed, found, created, dbFault, confirmed);
    if body.Some? {
      ghost var filled := Apply(service.cfg, before, CacheFill(Looked(q)));
      CancelStores(service.cfg, filled, sub.(active := Latest(q.db, found)), q.(redis := filled.redis));
      SameRows(q, q.(redis := filled.redis), body.value.items);
    }
  }
}
