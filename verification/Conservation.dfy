// Exactly which statements keep the seat counter equal to the registrations,
// with no assumption about consumers.
module Conservation {
  import opened Prelude
  import opened Tables
  import opened Ledger
  import opened Worker
  import opened Protocol
  import opened Safety
  import opened Seats

  // The counter of `s` is `base` above the registrations.
  ghost predicate Level(base: int, db: Db, s: SectionId) {
    s in db.seats && db.seats[s].slDk == base + Registered(db, s)
  }

  predicate Free(db: Db, s: SectionId) { s in db.seats && db.seats[s].slDk < db.seats[s].slMax }

  // ---- The acquire statement ----

  // The statement takes a seat without marking a row exactly when a seat is free
  // and the item row does not exist; it then reports the section as full.
  lemma SeatWithoutRow(db: Db, i: ItemId, x: SectionId)
    ensures var (after, left) := Acquire(db, i, x);
            && (after.seats != db.seats && after.items == db.items <==> Free(db, x) && i !in db.items)
            && (Free(db, x) && i !in db.items ==>
                  left.None? && after.seats == db.seats[x := db.seats[x].(slDk := db.seats[x].slDk + 1)])
  {
    var after := Acquire(db, i, x).0;
    if Free(db, x) {
      assert after.seats[x] != db.seats[x];
      if i in db.items { assert after.items[i] != db.items[i]; }
    }
  }

  // Otherwise seat and row move together or neither does, and the result says which.
  lemma SeatWithRow(db: Db, i: ItemId, x: SectionId)
    requires i in db.items
    ensures var (after, left) := Acquire(db, i, x);
            && (left.Some? <==> Free(db, x)) && (left.None? ==> after == db)
            && (left.Some? ==>
                  && after.items[i].status == Success && after.items[i].remaining == left
                  && after.seats[x].slDk == db.seats[x].slDk + 1
                     && left.value == after.seats[x].slMax - after.seats[x].slDk
                  && (forall j :: j in db.items && j != i ==> j in after.items && after.items[j] == db.items[j])
                  && (forall y :: y in db.seats && y != x ==> y in after.seats && after.seats[y] == db.seats[y]))
  {
  }

  // In no run does a handler attempt an item whose row does not exist.
  lemma AttemptsFindTheirRow(cfg: Config, states: seq<State>, actions: seq<Action>, n: nat, b: BatchId, k: nat)
    requires Run(cfg, states, actions) && n < |states| && Init(cfg, states[0])
    requires b in states[n].db.batches && k < |states[n].db.batches[b].payload|
    ensures JobOf(states[n].db, b).items[k].itemId in states[n].db.items
  {
    ShapedHolds(cfg, states, actions, n);
    EntryItem(states[n].db, b, k);
  }

  // Acquiring keeps the counter level exactly when no seat of `s` is taken, or
  // the item is a CREATE item that is not SUCCESS yet.
  lemma AcquireExact(base: int, db: Db, i: ItemId, x: SectionId, s: SectionId)
    requires Level(base, db, s) && (i in db.items ==> db.items[i].section == x)
    ensures Level(base, Acquire(db, i, x).0, s) <==>
            x != s || !Free(db, s) || (i in db.items && db.items[i].kind == CREATE && db.items[i].status != Success)
  {
    var after := Acquire(db, i, x).0;
    if Free(db, x) && i in db.items { TallyUpdate(db.items, i, after.items[i], SuccessOn(s)); }
  }

  // ---- The release statement ----

  // Releasing keeps the counter level exactly when the source is SUCCESS at that
  // moment, or the clamp holds the counter at zero.
  lemma ReleaseExact(base: int, db: Db, c: ItemId, x: SectionId, src: ItemId, s: SectionId)
    requires Level(base, db, s) && 0 <= base
    requires c in db.items ==> db.items[c].kind == CANCEL
    requires src in db.items ==> db.items[src].kind == CREATE && db.items[src].section == x
    ensures Level(base, Release(db, c, x, src), s)
            <==> x != s || (src in db.items && db.items[src].status == Success) || db.seats[s].slDk == 0
  {
    var after := Release(db, c, x, src);
    RegisteredCounts(db, s);
    var items1 := if src in db.items then db.items[src := after.items[src]] else db.items;
    if src in db.items { TallyUpdate(db.items, src, after.items[src], SuccessOn(s)); }
    if c in db.items {
      TallyUpdate(items1, c, after.items[c], SuccessOn(s));
      assert after.items == items1[c := after.items[c]];
    }
    if src in db.items && db.items[src].status == Success && x == s {
      TallyAtLeast(db.items, src, SuccessOn(s));
    }
  }

  lemma RegisteredCounts(db: Db, s: SectionId)
    ensures 0 <= Registered(db, s)
  {
    TallyAtMost(db.items, (it: Item) => 0, SuccessOn(s));
    TallyZero(db.items, (it: Item) => 0);
  }

  // ---- Marking items and batches failed ----

  // Marking an item FAILED keeps the counter level exactly when the item is not
  // a registration on `s`.
  lemma MarkFailedExact(base: int, db: Db, i: ItemId, s: SectionId)
    requires Level(base, db, s) && i in db.items
    ensures Level(base, MarkFailed(db, i), s) <==> !SuccessOn?(db.items[i], s)
  {
    TallyUpdate(db.items, i, MarkFailed(db, i).items[i], SuccessOn(s));
  }

  // The dead-letter transaction never moves a registration: it settles exactly
  // the PENDING items of the batch and completes the batch.
  lemma DeadLetterExact(base: int, db: Db, b: BatchId, s: SectionId)
    requires b in db.batches
    ensures Level(base, MarkBatchFailed(db, b), s) <==> Level(base, db, s)
    ensures var after := MarkBatchFailed(db, b);
            && after.items.Keys == db.items.Keys
            && (forall i :: i in db.items && db.items[i].batch == b ==> after.items[i].status != Pending)
            && (forall i :: i in db.items && (db.items[i].batch != b || db.items[i].status != Pending) ==>
                  after.items[i] == db.items[i])
            && after.batches[b].status == Completed
  {
    TallySame(db.items, MarkBatchFailed(db, b).items, SuccessOn(s), SuccessOn(s));
  }

  // ---- Steps and runs ----

  // The next step changes the counter of `s` and its registrations differently:
  // it takes a second seat for a SUCCESS item, gives back the seat of a source
  // that is not SUCCESS, or fails a SUCCESS item.
  predicate Upsets(st: State, a: Action, s: SectionId) {
    && a.Work? && !a.fault && a.tag in st.mail
    && st.mail[a.tag].place.Handling? && st.mail[a.tag].batch in st.db.batches
    && UpsetsAt(st.db, JobOf(st.db, st.mail[a.tag].batch), st.mail[a.tag].place.at, s)
  }

  predicate UpsetsAt(db: Db, job: Job, at: Progress, s: SectionId) {
    match at.phase
    case AtItem(k) =>
      && k < |job.items| && Todo(job, at.snapshot, k) && Fillable(job, k) && job.items[k].sectionId == Some(s)
      && (match job.kind
          case CREATE =>
            Free(db, s) && job.items[k].itemId in db.items && db.items[job.items[k].itemId].status == Success
          case CANCEL =>
            && job.items[k].source.value in db.items && db.items[job.items[k].source.value].status != Success
            && s in db.seats && db.seats[s].slDk > 0)
    case Marking(k) =>
      k < |job.items| && job.items[k].itemId in db.items && SuccessOn?(db.items[job.items[k].itemId], s)
    case _ => false
  }

  lemma AdvanceLevel(base: int, db: Db, job: Job, at: Progress, s: SectionId)
    requires Wf(db) && job.batch in db.batches && job == JobOf(db, job.batch) && Level(base, db, s) && 0 <= base
    ensures Level(base, Advance(db, job, at, false).0, s) <==> !UpsetsAt(db, job, at, s)
  {
    match at.phase
    case AtItem(k) =>
      if k < |job.items| && Todo(job, at.snapshot, k) && Fillable(job, k) {
        EntryItem(db, job.batch, k);
        var entry := job.items[k];
        match job.kind
        case CREATE => AcquireExact(base, db, entry.itemId, entry.sectionId.value, s);
        case CANCEL =>
          EntrySource(db, job.batch, k);
          RegisteredCounts(db, s);
          ReleaseExact(base, db, entry.itemId, entry.sectionId.value, entry.source.value, s);
      }
    case Marking(k) =>
      if k < |job.items| && job.items[k].itemId in db.items { MarkFailedExact(base, db, job.items[k].itemId, s); }
    case _ =>
  }

  lemma EntrySource(db: Db, b: BatchId, k: nat)
    requires Wf(db) && b in db.batches && k < |db.batches[b].payload| && db.batches[b].payload[k].source.Some?
    ensures var entry := db.batches[b].payload[k];
            && entry.source.value in db.items && db.items[entry.source.value].kind == CREATE
            && entry.sectionId == Some(db.items[entry.source.value].section)
  {
    EntryItem(db, b, k);
    var i := db.batches[b].payload[k].itemId;
    assert ItemWf(db, i) && SourceWf(db, db.items[i], db.items[i].source.value);
  }

  lemma AdvanceFaulty(db: Db, job: Job, at: Progress)
    ensures Advance(db, job, at, true).0 == db
  {
  }

  lemma SubmittedLevel(base: int, db: Db, b: BatchId, batch: Batch, s: SectionId)
    requires Level(base, db, s) && Insertable(db, b, batch)
    ensures Level(base, InsertBatch(db, b, batch), s)
  {
    InsertedTally(db.items, b, batch.kind, batch.payload, 0, SuccessOn(s));
    WeightlessRows(b, batch.kind, batch.payload, 0, SuccessOn(s));
  }

  lemma StepLevel(cfg: Config, st: State, a: Action, base: int, s: SectionId)
    requires Shaped(cfg, st) && Enabled(cfg, st, a) && Level(base, st.db, s) && 0 <= base
    ensures Level(base, Apply(cfg, st, a).db, s) <==> !Upsets(st, a, s)
  {
    match a
    case SubmitCreate(sub) =>
      CreateInsertable(cfg, st, sub);
      SubmittedLevel(base, st.db, sub.batch, CreateBatchOf(cfg, sub), s);
    case SubmitCancel(sub) =>
      CancelInsertable(cfg, st, sub);
      SubmittedLevel(base, st.db, sub.batch, CancelBatchOf(cfg, st.db, sub), s);
    case Work(t, fault) =>
      var job, at := JobOf(st.db, st.mail[t].batch), st.mail[t].place.at;
      if fault { AdvanceFaulty(st.db, job, at); } else { AdvanceLevel(base, st.db, job, at, s); }
    case SettleDead(t, fault) =>
      DeadLetterExact(base, st.db, st.mail[t].batch, s);
    case _ =>
  }

  ghost predicate LevelUpTo(base: int, states: seq<State>, n: nat, s: SectionId)
    requires n < |states|
  {
    forall k :: 0 <= k <= n ==> Level(base, states[k].db, s)
  }

  ghost predicate NeverUpset(states: seq<State>, actions: seq<Action>, n: nat, s: SectionId) {
    forall k :: 0 <= k < n && k < |states| && k < |actions| ==> !Upsets(states[k], actions[k], s)
  }

  lemma LevelNext(base: int, states: seq<State>, actions: seq<Action>, n: nat, s: SectionId)
    requires 0 < n < |states| == |actions| + 1
    ensures LevelUpTo(base, states, n, s) <==> LevelUpTo(base, states, n - 1, s) && Level(base, states[n].db, s)
    ensures NeverUpset(states, actions, n, s) <==>
            NeverUpset(states, actions, n - 1, s) && !Upsets(states[n - 1], actions[n - 1], s)
  {
  }

  lemma LevelAtStart(cfg: Config, st: State, s: SectionId)
    requires Init(cfg, st) && s in cfg.catalog.rows
    ensures s in cfg.regime.base && 0 <= cfg.regime.base[s] && Level(cfg.regime.base[s], st.db, s)
  {
    TallyZero(st.db.items, SuccessOn(s));
  }

  // In any run at all, seats are conserved on a section up to a state exactly
  // when no step up to it upsets the section.
  lemma {:induction false} ConservedIff(cfg: Config, states: seq<State>, actions: seq<Action>, n: nat, s: SectionId)
    requires Run(cfg, states, actions) && n < |states| && Init(cfg, states[0]) && s in cfg.catalog.rows
    ensures s in cfg.regime.base
    ensures LevelUpTo(cfg.regime.base[s], states, n, s) <==> NeverUpset(states, actions, n, s)
  {
    LevelAtStart(cfg, states[0], s);
    if n > 0 {
      ConservedIff(cfg, states, actions, n - 1, s);
      LevelNext(cfg.regime.base[s], states, actions, n, s);
      ConservedStep(cfg, states, actions, n - 1, s);
    }
  }

  lemma ConservedStep(cfg: Config, states: seq<State>, actions: seq<Action>, n: nat, s: SectionId)
    requires Run(cfg, states, actions) && n < |actions| && Init(cfg, states[0]) && s in cfg.catalog.rows
             && s in cfg.regime.base
    ensures Level(cfg.regime.base[s], states[n].db, s) ==>
      (Level(cfg.regime.base[s], states[n + 1].db, s) <==> !Upsets(states[n], actions[n], s))
  {
    ShapedHolds(cfg, states, actions, n);
    LevelAtStart(cfg, states[0], s);
    if Level(cfg.regime.base[s], states[n].db, s) { StepLevel(cfg, states[n], actions[n], cfg.regime.base[s], s); }
  }

  // ---- Every registration has a seat ----

  // The counter of `s` is at least `base` above the registrations.
  ghost predicate Seated(base: int, db: Db, s: SectionId) {
    s in db.seats && base + Registered(db, s) <= db.seats[s].slDk
  }

  // The next step gives back, for a source that is not SUCCESS, the last seat of
  // `s` that no registration needs.
  ghost predicate Unseats(base: int, st: State, a: Action, s: SectionId) {
    && a.Work? && !a.fault && a.tag in st.mail
    && st.mail[a.tag].place.Handling? && st.mail[a.tag].batch in st.db.batches
    && UnseatsAt(base, st.db, JobOf(st.db, st.mail[a.tag].batch), st.mail[a.tag].place.at, s)
  }

  ghost predicate UnseatsAt(base: int, db: Db, job: Job, at: Progress, s: SectionId) {
    && at.phase.AtItem? && job.kind == CANCEL
    && var k := at.phase.k;
    && k < |job.items| && Todo(job, at.snapshot, k) && Fillable(job, k) && job.items[k].sectionId == Some(s)
    && job.items[k].source.value in db.items && db.items[job.items[k].source.value].status != Success
    && s in db.seats && db.seats[s].slDk > 0 && db.seats[s].slDk == base + Registered(db, s)
  }

  lemma AcquireSeated(base: int, db: Db, i: ItemId, x: SectionId, s: SectionId)
    requires Seated(base, db, s) && (i in db.items ==> db.items[i].section == x)
    ensures Seated(base, Acquire(db, i, x).0, s)
  {
    var after := Acquire(db, i, x).0;
    if Free(db, x) && i in db.items { TallyUpdate(db.items, i, after.items[i], SuccessOn(s)); }
  }

  // How a release changes the registrations of a section.
  lemma ReleaseCounts(db: Db, c: ItemId, x: SectionId, src: ItemId, s: SectionId)
    requires c in db.items && db.items[c].kind == CANCEL
    requires src in db.items && db.items[src].kind == CREATE && db.items[src].section == x
    ensures Registered(Release(db, c, x, src), s) ==
            Registered(db, s) - if x == s && db.items[src].status == Success then 1 else 0
    ensures x == s && db.items[src].status == Success ==> 1 <= Registered(db, s)
  {
    var after := Release(db, c, x, src);
    var items1 := db.items[src := after.items[src]];
    TallyUpdate(db.items, src, after.items[src], SuccessOn(s));
    TallyUpdate(items1, c, after.items[c], SuccessOn(s));
    assert after.items == items1[c := after.items[c]];
    if db.items[src].status == Success && x == s { TallyAtLeast(db.items, src, SuccessOn(s)); }
  }

  // Releasing keeps every registration seated exactly when the source is SUCCESS
  // at that moment, the clamp holds the counter at zero, or a seat is to spare.
  lemma ReleaseSeated(base: int, db: Db, c: ItemId, x: SectionId, src: ItemId, s: SectionId)
    requires Seated(base, db, s) && 0 <= base
    requires c in db.items && db.items[c].kind == CANCEL
    requires src in db.items && db.items[src].kind == CREATE && db.items[src].section == x
    ensures Seated(base, Release(db, c, x, src), s) <==>
            x != s || db.items[src].status == Success || db.seats[s].slDk <= 0
            || base + Registered(db, s) < db.seats[s].slDk
  {
    ReleaseCounts(db, c, x, src, s);
    RegisteredCounts(db, s);
  }

  lemma AdvanceSeated(base: int, db: Db, job: Job, at: Progress, s: SectionId)
    requires Wf(db) && job.batch in db.batches && job == JobOf(db, job.batch) && Seated(base, db, s) && 0 <= base
    ensures Seated(base, Advance(db, job, at, false).0, s) <==> !UnseatsAt(base, db, job, at, s)
  {
    match at.phase
    case AtItem(k) =>
      if k < |job.items| && Todo(job, at.snapshot, k) && Fillable(job, k) {
        EntryItem(db, job.batch, k);
        var entry := job.items[k];
        match job.kind
        case CREATE => AcquireSeated(base, db, entry.itemId, entry.sectionId.value, s);
        case CANCEL =>
          EntrySource(db, job.batch, k);
          ReleaseSeated(base, db, entry.itemId, entry.sectionId.value, entry.source.value, s);
      }
    case Marking(k) =>
      if k < |job.items| && job.items[k].itemId in db.items { MarkFailedSeated(base, db, job.items[k].itemId, s); }
    case _ =>
  }

  lemma MarkFailedSeated(base: int, db: Db, i: ItemId, s: SectionId)
    requires Seated(base, db, s) && i in db.items
    ensures Seated(base, MarkFailed(db, i), s)
  {
    TallyUpdate(db.items, i, MarkFailed(db, i).items[i], SuccessOn(s));
  }

  lemma SubmittedSeated(base: int, db: Db, b: BatchId, batch: Batch, s: SectionId)
    requires Seated(base, db, s) && Insertable(db, b, batch)
    ensures Seated(base, InsertBatch(db, b, batch), s)
  {
    SubmittedLevel(db.seats[s].slDk - Registered(db, s), db, b, batch, s);
  }

  lemma DeadLetterSeated(base: int, db: Db, b: BatchId, s: SectionId)
    requires Seated(base, db, s) && b in db.batches
    ensures Seated(base, MarkBatchFailed(db, b), s)
  {
    DeadLetterExact(db.seats[s].slDk - Registered(db, s), db, b, s);
  }

  lemma StepSeated(cfg: Config, st: State, a: Action, base: int, s: SectionId)
    requires Shaped(cfg, st) && Enabled(cfg, st, a) && Seated(base, st.db, s) && 0 <= base
    ensures Seated(base, Apply(cfg, st, a).db, s) <==> !Unseats(base, st, a, s)
  {
    match a
    case SubmitCreate(sub) =>
      CreateInsertable(cfg, st, sub);
      SubmittedSeated(base, st.db, sub.batch, CreateBatchOf(cfg, sub), s);
    case SubmitCancel(sub) =>
      CancelInsertable(cfg, st, sub);
      SubmittedSeated(base, st.db, sub.batch, CancelBatchOf(cfg, st.db, sub), s);
    case Work(t, fault) =>
      var job, at := JobOf(st.db, st.mail[t].batch), st.mail[t].place.at;
      if fault { AdvanceFaulty(st.db, job, at); } else { AdvanceSeated(base, st.db, job, at, s); }
    case SettleDead(t, fault) =>
      if !fault { DeadLetterSeated(base, st.db, st.mail[t].batch, s); }
    case _ =>
  }

  ghost predicate SeatedUpTo(base: int, states: seq<State>, n: nat, s: SectionId)
    requires n < |states|
  {
    forall k :: 0 <= k <= n ==> Seated(base, states[k].db, s)
  }

  ghost predicate NeverUnseated(base: int, states: seq<State>, actions: seq<Action>, n: nat, s: SectionId) {
    forall k :: 0 <= k < n && k < |states| && k < |actions| ==> !Unseats(base, states[k], actions[k], s)
  }

  // In any run at all, every registration on a section has a seat up to a state
  // exactly when no step up to it gives back a seat that is needed.
  lemma {:induction false} SeatedIff(cfg: Config, states: seq<State>, actions: seq<Action>, n: nat, s: SectionId)
    requires Run(cfg, states, actions) && n < |states| && Init(cfg, states[0]) && s in cfg.catalog.rows
    ensures s in cfg.regime.base
    ensures SeatedUpTo(cfg.regime.base[s], states, n, s) <==>
            NeverUnseated(cfg.regime.base[s], states, actions, n, s)
  {
    LevelAtStart(cfg, states[0], s);
    if n > 0 {
      SeatedIff(cfg, states, actions, n - 1, s);
      SeatedNext(cfg.regime.base[s], states, actions, n, s);
      SeatedStep(cfg, states, actions, n - 1, s);
    }
  }

  lemma SeatedNext(base: int, states: seq<State>, actions: seq<Action>, n: nat, s: SectionId)
    requires 0 < n < |states| == |actions| + 1
    ensures SeatedUpTo(base, states, n, s) <==> SeatedUpTo(base, states, n - 1, s) && Seated(base, states[n].db, s)
    ensures NeverUnseated(base, states, actions, n, s) <==>
            NeverUnseated(base, states, actions, n - 1, s) && !Unseats(base, states[n - 1], actions[n - 1], s)
  {
  }

  lemma SeatedStep(cfg: Config, states: seq<State>, actions: seq<Action>, n: nat, s: SectionId)
    requires Run(cfg, states, actions) && n < |actions| && Init(cfg, states[0]) && s in cfg.catalog.rows
    ensures s in cfg.regime.base
    ensures Seated(cfg.regime.base[s], states[n].db, s) ==>
      (Seated(cfg.regime.base[s], states[n + 1].db, s) <==>
       !Unseats(cfg.regime.base[s], states[n], actions[n], s))
  {
    ShapedHolds(cfg, states, actions, n);
    LevelAtStart(cfg, states[0], s);
    if Seated(cfg.regime.base[s], states[n].db, s) {
      StepSeated(cfg, states[n], actions[n], cfg.regime.base[s], s);
    }
  }
}
