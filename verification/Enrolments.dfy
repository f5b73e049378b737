// The rules checked at admission hold of every student in every state of every
// run, although any part of a batch may fail.
module Enrolments {
  import opened Prelude
  import opened Tables
  import opened Admission
  import opened Ledger
  import opened Worker
  import opened Protocol
  import opened Safety
  import opened Seats

  ghost predicate HeldItem(db: Db, user: UserId, semester: string, i: ItemId) {
    && i in db.items && db.items[i].kind == CREATE && (db.items[i].status == Success || db.items[i].status == Pending)
    && db.items[i].batch in db.batches
    && db.batches[db.items[i].batch].user == user && db.batches[db.items[i].batch].semester == semester
  }

  // What a student holds or is waiting for in a semester.
  ghost function Held(db: Db, user: UserId, semester: string): set<Enrolment> {
    set i | i in db.items && HeldItem(db, user, semester, i) :: Enrolment(db.items[i].batch, db.items[i].section)
  }

  predicate ByStudent(a: Action, user: UserId, semester: string) {
    a.SubmitCreate? && a.sub.user == user && a.sub.semester == semester
  }

  predicate OwnItem(db: Db, user: UserId, semester: string, i: ItemId) {
    && i in db.items && db.items[i].batch in db.batches
    && db.batches[db.items[i].batch].user == user && db.batches[db.items[i].batch].semester == semester
  }

  // ---- Revivals ----

  // The next step takes a seat for the FAILED CREATE item `i`: its handler read
  // PENDING before a dead letter failed it.
  predicate Revives(s: State, a: Action, i: ItemId) {
    && a.Work? && !a.fault && a.tag in s.mail && s.mail[a.tag].batch in s.db.batches
    && s.mail[a.tag].place.Handling? && s.mail[a.tag].place.at.phase.AtItem?
    && var job := JobOf(s.db, s.mail[a.tag].batch);
    && var (k, snapshot) := (s.mail[a.tag].place.at.phase.k, s.mail[a.tag].place.at.snapshot);
    && k < |job.items| && job.kind == CREATE && job.items[k].itemId == i && Todo(job, snapshot, k)
    && i in s.db.items && s.db.items[i].status == Failed
    && s.db.items[i].section in s.db.seats
       && s.db.seats[s.db.items[i].section].slDk < s.db.seats[s.db.items[i].section].slMax
  }

  // A step revives an item exactly when this guard holds before it.
  lemma RevivesExactly(cfg: Config, s: State, a: Action, i: ItemId)
    requires Shaped(cfg, s) && Enabled(cfg, s, a) && i in s.db.items && s.db.items[i].kind == CREATE
    ensures i in Apply(cfg, s, a).db.items
    ensures Revives(s, a, i) <==> Revived(s.db.items[i], Apply(cfg, s, a).db.items[i])
  {
    match a
    case SubmitCreate(_) => SubmittedKeepOld(cfg, s, a, i);
    case SubmitCancel(_) => SubmittedKeepOld(cfg, s, a, i);
    case Work(t, fault) =>
      var d := s.mail[t];
      if d.place.at.phase.AtItem? && d.place.at.phase.k < |JobOf(s.db, d.batch).items| {
        EntryItem(s.db, d.batch, d.place.at.phase.k);
      }
    case _ =>
  }

  // No step revives an item of this student.
  ghost predicate NoRevival(s: State, a: Action, user: UserId, semester: string) {
    forall i :: OwnItem(s.db, user, semester, i) ==> !Revives(s, a, i)
  }

  // Nothing is revived where dead letters wait for every live handler.
  lemma WaitingRevivesNothing(cfg: Config, s: State, a: Action, user: UserId, semester: string)
    requires Inv(cfg, s) && OneHandler(cfg.regime) && cfg.regime.dead == AllWait && Enabled(cfg, s, a)
    ensures NoRevival(s, a, user, semester)
  {
    forall i | OwnItem(s.db, user, semester, i) ensures !Revives(s, a, i) {
      if Revives(s, a, i) {
        EntryItem(s.db, s.mail[a.tag].batch, s.mail[a.tag].place.at.phase.k);
        RevivesExactly(cfg, s, a, i);
        StatusSteps(cfg, s, a, i);
      }
    }
  }

  // ---- Every other step only takes registrations away ----

  lemma BatchesKeep(cfg: Config, s: State, a: Action, b: BatchId)
    requires Inv(cfg, s) && Enabled(cfg, s, a) && b in s.db.batches
    ensures var after := Apply(cfg, s, a).db;
            b in after.batches && after.batches[b].user == s.db.batches[b].user
            && after.batches[b].semester == s.db.batches[b].semester
  {
    match a
    case Work(t, fault) =>
      WorkKeeps(cfg, s, t, fault);
      assert s.db.batches[b].(status := Waiting) == Apply(cfg, s, a).db.batches[b].(status := Waiting);
    case SettleDead(t, fault) =>
      SettleDeadKeeps(cfg, s, t, fault);
      assert s.db.batches[b].(status := Waiting) == Apply(cfg, s, a).db.batches[b].(status := Waiting);
    case _ =>
  }

  lemma SubmittedOwner(cfg: Config, s: State, a: Action, i: ItemId)
    requires Enabled(cfg, s, a) && (a.SubmitCreate? || a.SubmitCancel?) && s.db.seats.Keys == cfg.catalog.rows.Keys
    requires i !in s.db.items && i in Apply(cfg, s, a).db.items
    ensures var after := Apply(cfg, s, a).db;
            after.items[i].batch == a.sub.batch && after.batches[a.sub.batch].user == a.sub.user
            && after.batches[a.sub.batch].semester == a.sub.semester
            && after.items[i].kind == if a.SubmitCreate? then CREATE else CANCEL
  {
    if a.SubmitCreate? {
      CreateInsertable(cfg, s, a.sub);
      NewItem(s.db, a.sub.batch, CreateBatchOf(cfg, a.sub), i);
    } else {
      CancelInsertable(cfg, s, a.sub);
      NewItem(s.db, a.sub.batch, CancelBatchOf(cfg, s.db, a.sub), i);
    }
  }

  // Apart from the student's own CREATE requests, an item becomes held in a step
  // exactly when the step revives it.
  lemma HeldBefore(cfg: Config, s: State, a: Action, user: UserId, semester: string, i: ItemId)
    requires Inv(cfg, s) && OneHandler(cfg.regime) && Enabled(cfg, s, a)
    requires i in s.db.items || !ByStudent(a, user, semester)
    ensures !HeldItem(s.db, user, semester, i) && HeldItem(Apply(cfg, s, a).db, user, semester, i)
            <==> OwnItem(s.db, user, semester, i) && Revives(s, a, i)
    ensures i in s.db.items ==>
              i in Apply(cfg, s, a).db.items && Mould(s.db.items[i]) == Mould(Apply(cfg, s, a).db.items[i])
  {
    if i in s.db.items {
      OldHeldBefore(cfg, s, a, user, semester, i);
    } else if i in Apply(cfg, s, a).db.items {
      if a.SubmitCreate? || a.SubmitCancel? { SubmittedOwner(cfg, s, a, i); } else { SameItems(cfg, s, a); }
    }
  }

  lemma OldHeldBefore(cfg: Config, s: State, a: Action, user: UserId, semester: string, i: ItemId)
    requires Inv(cfg, s) && OneHandler(cfg.regime) && Enabled(cfg, s, a) && i in s.db.items
    ensures !HeldItem(s.db, user, semester, i) && HeldItem(Apply(cfg, s, a).db, user, semester, i)
            <==> OwnItem(s.db, user, semester, i) && Revives(s, a, i)
    ensures i in Apply(cfg, s, a).db.items && Mould(s.db.items[i]) == Mould(Apply(cfg, s, a).db.items[i])
  {
    StatusSteps(cfg, s, a, i);
    assert ItemWf(s.db, i);
    BatchesKeep(cfg, s, a, s.db.items[i].batch);
    if s.db.items[i].kind == CREATE {
      RevivesExactly(cfg, s, a, i);
    } else if Revives(s, a, i) {
      EntryItem(s.db, s.mail[a.tag].batch, s.mail[a.tag].place.at.phase.k);
    }
  }

  lemma HeldShrinks(cfg: Config, s: State, a: Action, user: UserId, semester: string)
    requires Inv(cfg, s) && OneHandler(cfg.regime) && Enabled(cfg, s, a) && !ByStudent(a, user, semester)
    requires NoRevival(s, a, user, semester)
    ensures Held(Apply(cfg, s, a).db, user, semester) <= Held(s.db, user, semester)
  {
    var after := Apply(cfg, s, a).db;
    forall e | e in Held(after, user, semester) ensures e in Held(s.db, user, semester) {
      var i :| i in after.items && HeldItem(after, user, semester, i)
        && e == Enrolment(after.items[i].batch, after.items[i].section);
      HeldBefore(cfg, s, a, user, semester, i);
    }
  }

  // ---- An accepted CREATE request adds exactly the rows asked for ----

  lemma HeldGrows(cfg: Config, s: State, a: Action)
    requires Inv(cfg, s) && OneHandler(cfg.regime) && a.SubmitCreate? && Enabled(cfg, s, a)
    ensures Held(Apply(cfg, s, a).db, a.sub.user, a.sub.semester)
            <= Held(s.db, a.sub.user, a.sub.semester) + Requested(a.sub.batch, Rows(cfg, a.sub))
  {
    var sub := a.sub;
    var after := Apply(cfg, s, a).db;
    forall e | e in Held(after, sub.user, sub.semester)
      ensures e in Held(s.db, sub.user, sub.semester) || e in Requested(sub.batch, Rows(cfg, sub))
    {
      var i :| i in after.items && HeldItem(after, sub.user, sub.semester, i)
        && e == Enrolment(after.items[i].batch, after.items[i].section);
      if i in s.db.items {
        HeldBefore(cfg, s, a, sub.user, sub.semester, i);
      } else {
        SubmittedSection(cfg, s, a, i);
      }
    }
  }

  lemma SubmittedSection(cfg: Config, s: State, a: Action, i: ItemId)
    requires a.SubmitCreate? && Enabled(cfg, s, a) && s.db.seats.Keys == cfg.catalog.rows.Keys
    requires i !in s.db.items && i in Apply(cfg, s, a).db.items
    ensures var row := Apply(cfg, s, a).db.items[i]; row.batch == a.sub.batch && row.section in Rows(cfg, a.sub)
  {
    CreateInsertable(cfg, s, a.sub);
    NewItem(s.db, a.sub.batch, CreateBatchOf(cfg, a.sub), i);
  }

  // ---- Downward-closed rules ----

  ghost predicate DownwardClosed(rule: set<Enrolment> -> bool) {
    forall more, fewer :: fewer <= more && rule(more) ==> rule(fewer)
  }

  // Accepting a request of this student keeps the rule.
  ghost predicate AdmissionKeeps(cfg: Config, states: seq<State>, actions: seq<Action>, user: UserId, semester: string,
                                 rule: set<Enrolment> -> bool) {
    forall m ::
      0 <= m < |actions| && m < |states| && ByStudent(actions[m], user, semester) && Enabled(cfg, states[m], actions[m])
      && rule(Held(states[m].db, user, semester)) ==>
      rule(Held(states[m].db, user, semester) + RequestedBy(cfg, actions[m]))
  }

  ghost function RequestedBy(cfg: Config, a: Action): set<Enrolment> {
    if a.SubmitCreate? && Known(cfg.catalog, a.sub.semester, Distinct(a.sub.codes)) then
      Requested(a.sub.batch, Rows(cfg, a.sub))
    else {}
  }

  lemma RuleStep(cfg: Config, s: State, a: Action, user: UserId, semester: string, rule: set<Enrolment> -> bool)
    requires Inv(cfg, s) && OneHandler(cfg.regime) && Enabled(cfg, s, a) && NoRevival(s, a, user, semester)
    requires DownwardClosed(rule) && rule(Held(s.db, user, semester))
    requires ByStudent(a, user, semester) ==> rule(Held(s.db, user, semester) + RequestedBy(cfg, a))
    ensures rule(Held(Apply(cfg, s, a).db, user, semester))
  {
    if ByStudent(a, user, semester) { HeldGrows(cfg, s, a); } else { HeldShrinks(cfg, s, a, user, semester); }
  }

  // No step of the run revives an item of this student.
  ghost predicate Unrevived(states: seq<State>, actions: seq<Action>, user: UserId, semester: string) {
    forall m :: 0 <= m < |actions| && m < |states| ==> NoRevival(states[m], actions[m], user, semester)
  }

  // A rule that losing registrations cannot break, and that admission keeps,
  // holds of every student in every state: partial failure cannot break it.
  lemma {:induction false} RuleHolds(cfg: Config, states: seq<State>, actions: seq<Action>, n: nat,
                                     user: UserId, semester: string, rule: set<Enrolment> -> bool)
    requires Run(cfg, states, actions) && n < |states| && Inv(cfg, states[0]) && OneHandler(cfg.regime)
    requires rule(Held(states[0].db, user, semester)) && DownwardClosed(rule)
    requires AdmissionKeeps(cfg, states, actions, user, semester, rule) && Unrevived(states, actions, user, semester)
    ensures rule(Held(states[n].db, user, semester))
  {
    if n > 0 {
      RuleHolds(cfg, states, actions, n - 1, user, semester, rule);
      RunKeeps(cfg, states, actions, n - 1);
      RuleNext(cfg, states, actions, n - 1, user, semester, rule);
    }
  }

  lemma RuleNext(cfg: Config, states: seq<State>, actions: seq<Action>, n: nat,
                 user: UserId, semester: string, rule: set<Enrolment> -> bool)
    requires Run(cfg, states, actions) && n < |actions| && Inv(cfg, states[n]) && OneHandler(cfg.regime)
    requires rule(Held(states[n].db, user, semester)) && DownwardClosed(rule)
    requires AdmissionKeeps(cfg, states, actions, user, semester, rule) && Unrevived(states, actions, user, semester)
    ensures rule(Held(states[n + 1].db, user, semester))
  {
    RuleStep(cfg, states[n], actions[n], user, semester, rule);
  }

  // ---- The rules of the API are of this kind ----

  // When a request is accepted nothing of the student is pending, so the query
  // answer lists everything held.
  lemma ActiveListsHeld(cfg: Config, s: State, sub: Submission)
    requires Inv(cfg, s) && OneHandler(cfg.regime) && CreateAdmitted(cfg, s, sub)
    ensures Catalogued(cfg.catalog, Held(s.db, sub.user, sub.semester))
    ensures Lists(cfg.catalog, Held(s.db, sub.user, sub.semester), RowsAt(cfg.catalog, SectionsOf(s.db, sub.active)))
  {
    var held := Held(s.db, sub.user, sub.semester);
    var existing := RowsAt(cfg.catalog, SectionsOf(s.db, sub.active));
    forall e | e in held ensures e.section in cfg.catalog.rows && cfg.catalog.rows[e.section] in existing {
      var i :| i in s.db.items && HeldItem(s.db, sub.user, sub.semester, i)
        && e == Enrolment(s.db.items[i].batch, s.db.items[i].section);
      HeldIsListed(cfg, s, sub, i);
    }
    forall r | r in existing ensures exists e :: e in held && cfg.catalog.rows[e.section] == r {
      var k :| 0 <= k < |existing| && existing[k] == r;
      ListedIsHeld(s, sub, k);
    }
  }

  lemma HeldIsListed(cfg: Config, s: State, sub: Submission, i: ItemId)
    requires Inv(cfg, s) && OneHandler(cfg.regime) && CreateAdmitted(cfg, s, sub)
    requires HeldItem(s.db, sub.user, sub.semester, i)
    ensures s.db.items[i].section in cfg.catalog.rows
    ensures cfg.catalog.rows[s.db.items[i].section] in RowsAt(cfg.catalog, SectionsOf(s.db, sub.active))
  {
    HeldIsActive(cfg, s, sub, i);
    ActiveIsListed(cfg, s.db, sub, i);
  }

  lemma ActiveIsListed(cfg: Config, db: Db, sub: Submission, i: ItemId)
    requires ActiveInCatalog(cfg, db, sub.active) && ActiveAnswer(db, sub.user, sub.semester, None, sub.active)
    requires ActiveItem(db, sub.user, sub.semester, i)
    ensures db.items[i].section in cfg.catalog.rows
    ensures cfg.catalog.rows[db.items[i].section] in RowsAt(cfg.catalog, SectionsOf(db, sub.active))
  {
    var k := AnsweredAt(db, sub.user, sub.semester, sub.active, i);
    RowListed(cfg.catalog, SectionsOf(db, sub.active), k);
  }

  lemma AnsweredAt(db: Db, user: UserId, semester: string, active: seq<ItemId>, i: ItemId) returns (k: nat)
    requires ActiveAnswer(db, user, semester, None, active) && ActiveItem(db, user, semester, i)
    ensures k < |active| && active[k] in db.items && db.items[active[k]].section == db.items[i].section
  {
    assert AnsweredBy(db, active, i);
    k :| 0 <= k < |active| && active[k] in db.items && db.items[active[k]].section == db.items[i].section;
  }

  lemma RowListed(cat: Catalog, ids: seq<SectionId>, k: nat)
    requires k < |ids| && forall n :: 0 <= n < |ids| ==> ids[n] in cat.rows
    ensures cat.rows[ids[k]] in RowsAt(cat, ids)
  {
    assert RowsAt(cat, ids)[k] == cat.rows[ids[k]];
  }

  lemma ListedIsHeld(s: State, sub: Submission, k: nat)
    requires ActiveAnswer(s.db, sub.user, sub.semester, None, sub.active) && k < |sub.active|
    ensures sub.active[k] in s.db.items
    ensures Enrolment(s.db.items[sub.active[k]].batch, s.db.items[sub.active[k]].section)
            in Held(s.db, sub.user, sub.semester)
  {
    var i := sub.active[k];
    assert ActiveItem(s.db, sub.user, sub.semester, i);
    assert HeldItem(s.db, sub.user, sub.semester, i);
  }

  lemma HeldIsActive(cfg: Config, s: State, sub: Submission, i: ItemId)
    requires Inv(cfg, s) && OneHandler(cfg.regime) && CreateAdmitted(cfg, s, sub)
    requires HeldItem(s.db, sub.user, sub.semester, i)
    ensures ActiveItem(s.db, sub.user, sub.semester, i)
  {
    if s.db.items[i].status == Pending {
      assert WaitingBatch(s.db, sub.user, sub.semester, s.db.items[i].batch);
    }
  }

  lemma AdmittedPassed(cfg: Config, s: State, sub: Submission)
    requires CreateAdmitted(cfg, s, sub)
    ensures Known(cfg.catalog, sub.semester, Distinct(sub.codes))
    ensures Passed(cfg.catalog, cfg.settings.maxCredits, sub.semester, Distinct(sub.codes),
                   RowsAt(cfg.catalog, SectionsOf(s.db, sub.active)))
  {
    AcceptedPassed(cfg.catalog, cfg.settings, s.db, s.redis, sub.user, sub.semester, Distinct(sub.codes), sub.now,
                   sub.active);
  }

  lemma AdmissionLawful(cfg: Config, s: State, sub: Submission)
    requires Inv(cfg, s) && OneHandler(cfg.regime) && CreateAdmitted(cfg, s, sub)
    requires Lawful(cfg.catalog, cfg.settings.maxCredits, Held(s.db, sub.user, sub.semester))
    ensures Lawful(cfg.catalog, cfg.settings.maxCredits,
            Held(s.db, sub.user, sub.semester) + Requested(sub.batch, Rows(cfg, sub)))
  {
    ActiveListsHeld(cfg, s, sub);
    AdmittedPassed(cfg, s, sub);
    PassedExtends(cfg.catalog, cfg.settings.maxCredits, sub.semester, Distinct(sub.codes),
                  RowsAt(cfg.catalog, SectionsOf(s.db, sub.active)), Held(s.db, sub.user, sub.semester), sub.batch);
  }

  ghost function LawOf(cfg: Config): set<Enrolment> -> bool {
    (held: set<Enrolment>) => Lawful(cfg.catalog, cfg.settings.maxCredits, held)
  }

  lemma LawIsDownwardClosed(cfg: Config)
    ensures DownwardClosed(LawOf(cfg))
  {
    forall more: set<Enrolment>, fewer: set<Enrolment> | fewer <= more && LawOf(cfg)(more) ensures LawOf(cfg)(fewer) {
      LawfulDownward(cfg.catalog, cfg.settings.maxCredits, more, fewer);
    }
  }

  lemma LawIsAdmitted(cfg: Config, states: seq<State>, actions: seq<Action>, user: UserId, semester: string)
    requires Run(cfg, states, actions) && Inv(cfg, states[0]) && OneHandler(cfg.regime)
    ensures AdmissionKeeps(cfg, states, actions, user, semester, LawOf(cfg))
  {
    forall m | 0 <= m < |actions| && m < |states| && ByStudent(actions[m], user, semester)
      && Enabled(cfg, states[m], actions[m])
               && LawOf(cfg)(Held(states[m].db, user, semester))
      ensures LawOf(cfg)(Held(states[m].db, user, semester) + RequestedBy(cfg, actions[m]))
    {
      RunKeeps(cfg, states, actions, m);
      AdmissionLawful(cfg, states[m], actions[m].sub);
    }
  }

  // What a student holds or waits for has no timetable conflict, keeps within
  // the credit limit, has at most one lab code and two linked theory codes per
  // course, and takes each course from one batch: in every state of every run
  // that revives none of the student's items.
  lemma LawfulUnlessRevived(cfg: Config, states: seq<State>, actions: seq<Action>, n: nat, user: UserId,
                            semester: string)
    requires Run(cfg, states, actions) && n < |states| && Init(cfg, states[0]) && Steady(cfg)
    requires Unrevived(states, actions, user, semester)
    ensures Lawful(cfg.catalog, cfg.settings.maxCredits, Held(states[n].db, user, semester))
  {
    InitHolds(cfg, states[0]);
    assert Held(states[0].db, user, semester) == {};
    LawIsDownwardClosed(cfg);
    LawIsAdmitted(cfg, states, actions, user, semester);
    RuleHolds(cfg, states, actions, n, user, semester, LawOf(cfg));
  }

  lemma QuietRevivesNothing(cfg: Config, states: seq<State>, actions: seq<Action>, user: UserId, semester: string)
    requires Run(cfg, states, actions) && Init(cfg, states[0]) && Quiet(cfg)
    ensures Unrevived(states, actions, user, semester)
  {
    InitHolds(cfg, states[0]);
    forall m | 0 <= m < |actions| && m < |states| ensures NoRevival(states[m], actions[m], user, semester) {
      RunKeeps(cfg, states, actions, m);
      WaitingRevivesNothing(cfg, states[m], actions[m], user, semester);
    }
  }

  // So wherever dead letters wait, every run is lawful.
  lemma AlwaysLawful(cfg: Config, states: seq<State>, actions: seq<Action>, n: nat, user: UserId, semester: string)
    requires Run(cfg, states, actions) && n < |states| && Init(cfg, states[0]) && Quiet(cfg)
    ensures Lawful(cfg.catalog, cfg.settings.maxCredits, Held(states[n].db, user, semester))
  {
    QuietRevivesNothing(cfg, states, actions, user, semester);
    LawfulUnlessRevived(cfg, states, actions, n, user, semester);
  }

  // ---- Exactly when a student stays lawful ----

  // The next step revives item `i` of the student and what the student would
  // then hold breaks a rule.
  ghost predicate Breaks(cfg: Config, s: State, a: Action, user: UserId, semester: string, i: ItemId) {
    && OwnItem(s.db, user, semester, i) && Revives(s, a, i)
    && !Lawful(cfg.catalog, cfg.settings.maxCredits,
               Held(s.db, user, semester) + {Enrolment(s.db.items[i].batch, s.db.items[i].section)})
  }

  ghost predicate BreaksNothing(cfg: Config, s: State, a: Action, user: UserId, semester: string) {
    forall i :: !Breaks(cfg, s, a, user, semester, i)
  }

  // A revival changes the status of the revived item and of no other.
  lemma RevivalRow(cfg: Config, s: State, a: Action, i: ItemId)
    requires Shaped(cfg, s) && Enabled(cfg, s, a) && Revives(s, a, i)
    ensures var after := Apply(cfg, s, a).db;
            && after.batches == s.db.batches && i in after.items && s.db.items[i].kind == CREATE
            && after.items == s.db.items[i := after.items[i]] && after.items[i].status == Success
            && Mould(after.items[i]) == Mould(s.db.items[i])
  {
    EntryItem(s.db, s.mail[a.tag].batch, s.mail[a.tag].place.at.phase.k);
  }

  // A revival adds exactly the place of the revived item to what its student holds.
  lemma RevivalAdds(cfg: Config, s: State, a: Action, user: UserId, semester: string, i: ItemId)
    requires Shaped(cfg, s) && Enabled(cfg, s, a) && OwnItem(s.db, user, semester, i) && Revives(s, a, i)
    ensures Held(Apply(cfg, s, a).db, user, semester) ==
            Held(s.db, user, semester) + {Enrolment(s.db.items[i].batch, s.db.items[i].section)}
  {
    RevivalRow(cfg, s, a, i);
    OneMoreHeld(s.db, Apply(cfg, s, a).db, user, semester, i);
  }

  lemma OneMoreHeld(before: Db, after: Db, user: UserId, semester: string, i: ItemId)
    requires OwnItem(before, user, semester, i) && before.items[i].kind == CREATE && before.items[i].status == Failed
    requires i in after.items && after.items == before.items[i := after.items[i]] && after.batches == before.batches
    requires after.items[i].status == Success && Mould(after.items[i]) == Mould(before.items[i])
    ensures Held(after, user, semester) ==
            Held(before, user, semester) + {Enrolment(before.items[i].batch, before.items[i].section)}
  {
    var place := Enrolment(before.items[i].batch, before.items[i].section);
    assert HeldItem(after, user, semester, i);
    forall j | j != i ensures HeldItem(after, user, semester, j) <==> HeldItem(before, user, semester, j) {}
    forall e | e in Held(before, user, semester) ensures e in Held(after, user, semester) {
      var j :| j in before.items && HeldItem(before, user, semester, j)
        && e == Enrolment(before.items[j].batch, before.items[j].section);
      assert HeldItem(after, user, semester, j);
    }
    forall e | e in Held(after, user, semester) ensures e == place || e in Held(before, user, semester) {
      var j :| j in after.items && HeldItem(after, user, semester, j)
        && e == Enrolment(after.items[j].batch, after.items[j].section);
      if j != i { assert HeldItem(before, user, semester, j); }
    }
  }

  // Without a revival every step keeps a lawful student lawful.
  lemma LawKept(cfg: Config, s: State, a: Action, user: UserId, semester: string)
    requires Inv(cfg, s) && OneHandler(cfg.regime) && Enabled(cfg, s, a) && NoRevival(s, a, user, semester)
    requires Lawful(cfg.catalog, cfg.settings.maxCredits, Held(s.db, user, semester))
    ensures Lawful(cfg.catalog, cfg.settings.maxCredits, Held(Apply(cfg, s, a).db, user, semester))
  {
    LawIsDownwardClosed(cfg);
    if ByStudent(a, user, semester) { AdmissionLawful(cfg, s, a.sub); }
    RuleStep(cfg, s, a, user, semester, LawOf(cfg));
  }

  // A step keeps a lawful student lawful exactly when it breaks nothing.
  lemma LawStep(cfg: Config, s: State, a: Action, user: UserId, semester: string)
    requires Inv(cfg, s) && OneHandler(cfg.regime) && Enabled(cfg, s, a)
    requires Lawful(cfg.catalog, cfg.settings.maxCredits, Held(s.db, user, semester))
    ensures Lawful(cfg.catalog, cfg.settings.maxCredits, Held(Apply(cfg, s, a).db, user, semester))
            <==> BreaksNothing(cfg, s, a, user, semester)
  {
    if i :| OwnItem(s.db, user, semester, i) && Revives(s, a, i) {
      RevivalAdds(cfg, s, a, user, semester, i);
      forall j ensures Breaks(cfg, s, a, user, semester, j) ==> j == i {}
      assert Breaks(cfg, s, a, user, semester, i) <==>
             !Lawful(cfg.catalog, cfg.settings.maxCredits, Held(Apply(cfg, s, a).db, user, semester));
    } else {
      LawKept(cfg, s, a, user, semester);
    }
  }

  ghost predicate LawfulUpTo(cfg: Config, states: seq<State>, n: nat, user: UserId, semester: string)
    requires n < |states|
  {
    forall k :: 0 <= k <= n ==> Lawful(cfg.catalog, cfg.settings.maxCredits, Held(states[k].db, user, semester))
  }

  ghost predicate NeverBroken(cfg: Config, states: seq<State>, actions: seq<Action>, n: nat,
                              user: UserId, semester: string) {
    forall k :: 0 <= k < n && k < |states| && k < |actions| ==>
      BreaksNothing(cfg, states[k], actions[k], user, semester)
  }

  // With one handler per batch and dead letters of CANCEL batches waiting, a
  // student is lawful in all states up to one exactly when no step up to it
  // revives an item that breaks a rule.
  lemma {:induction false} LawfulIff(cfg: Config, states: seq<State>, actions: seq<Action>, n: nat,
                                     user: UserId, semester: string)
    requires Run(cfg, states, actions) && n < |states| && Init(cfg, states[0]) && Steady(cfg)
    ensures LawfulUpTo(cfg, states, n, user, semester) <==> NeverBroken(cfg, states, actions, n, user, semester)
  {
    if n > 0 {
      LawfulIff(cfg, states, actions, n - 1, user, semester);
      LawfulUpToNext(cfg, states, actions, n, user, semester);
      LawfulNext(cfg, states, actions, n - 1, user, semester);
    } else {
      assert Held(states[0].db, user, semester) == {};
    }
  }

  lemma LawfulUpToNext(cfg: Config, states: seq<State>, actions: seq<Action>, n: nat, user: UserId, semester: string)
    requires 0 < n < |states| == |actions| + 1
    ensures LawfulUpTo(cfg, states, n, user, semester) <==>
            LawfulUpTo(cfg, states, n - 1, user, semester)
            && Lawful(cfg.catalog, cfg.settings.maxCredits, Held(states[n].db, user, semester))
    ensures NeverBroken(cfg, states, actions, n, user, semester) <==>
            NeverBroken(cfg, states, actions, n - 1, user, semester)
            && BreaksNothing(cfg, states[n - 1], actions[n - 1], user, semester)
  {
  }

  lemma LawfulNext(cfg: Config, states: seq<State>, actions: seq<Action>, n: nat, user: UserId, semester: string)
    requires Run(cfg, states, actions) && n < |actions| && Init(cfg, states[0]) && Steady(cfg)
    ensures Lawful(cfg.catalog, cfg.settings.maxCredits, Held(states[n].db, user, semester)) ==>
      (Lawful(cfg.catalog, cfg.settings.maxCredits, Held(states[n + 1].db, user, semester))
       <==> BreaksNothing(cfg, states[n], actions[n], user, semester))
  {
    InitHolds(cfg, states[0]);
    RunKeeps(cfg, states, actions, n);
    if Lawful(cfg.catalog, cfg.settings.maxCredits, Held(states[n].db, user, semester)) {
      LawStep(cfg, states[n], actions[n], user, semester);
    }
  }

  // Unless a rule was broken, a student never has two registrations of one section.
  lemma OneItemPerSection(cfg: Config, states: seq<State>, actions: seq<Action>, n: nat,
                          user: UserId, semester: string, i: ItemId, j: ItemId)
    requires Run(cfg, states, actions) && n < |states| && Init(cfg, states[0]) && Steady(cfg)
    requires NeverBroken(cfg, states, actions, n, user, semester)
    requires HeldItem(states[n].db, user, semester, i) && HeldItem(states[n].db, user, semester, j)
    requires states[n].db.items[i].section == states[n].db.items[j].section
    ensures i == j
  {
    var db := states[n].db;
    LawfulIff(cfg, states, actions, n, user, semester);
    ShapedHolds(cfg, states, actions, n);
    assert Enrolment(db.items[i].batch, db.items[i].section) in Held(db, user, semester);
    assert Enrolment(db.items[j].batch, db.items[j].section) in Held(db, user, semester);
    assert SameSlot(db.items[i], db.items[j]);
  }
}
