// Theorems about seats and item statuses in every run.
module Seats {
  import opened Prelude
  import opened Tables
  import opened Ledger
  import opened Worker
  import opened Protocol
  import opened Safety

  // ---- Counting rows ----

  predicate SuccessOn?(it: Item, s: SectionId) { it.kind == CREATE && it.status == Success && it.section == s }

  function SuccessOn(s: SectionId): Item -> int { (it: Item) => if SuccessOn?(it, s) then 1 else 0 }

  // Registered students of a section, by counting item rows.
  ghost function Registered(db: Db, s: SectionId): int { Tally(db.items, SuccessOn(s)) }

  lemma RegisteredAtMost(db: Db, s: SectionId)
    requires HeldWf(db)
    ensures 0 <= Registered(db, s) <= Tally(db.items, HeldOn(s))
  {
    TallyAtMost(db.items, SuccessOn(s), HeldOn(s));
    TallyAtMost(db.items, (it: Item) => 0, SuccessOn(s));
    TallyZero(db.items, (it: Item) => 0);
  }

  lemma RegisteredExact(db: Db, s: SectionId)
    requires HeldWf(db) && Exact(db)
    ensures Registered(db, s) == Tally(db.items, HeldOn(s))
  {
    TallySame(db.items, db.items, SuccessOn(s), HeldOn(s));
  }

  // One handler of a batch at a time, and no dead-letter transaction of a
  // CANCEL batch while one is live.
  predicate Steady(cfg: Config) { OneHandler(cfg.regime) && CancelsAlone(cfg.regime) }

  // One handler of a batch at a time, and no dead-letter transaction of a batch
  // while one is live.
  predicate Quiet(cfg: Config) { OneHandler(cfg.regime) && cfg.regime.dead == AllWait }

  // ---- No overselling ----

  ghost predicate SeatsBounded(db: Db) {
    forall s :: s in db.seats ==> 0 <= db.seats[s].slDk <= db.seats[s].slMax
  }

  lemma AdvanceBounded(db: Db, job: Job, at: Progress, fault: bool)
    requires SeatsBounded(db)
    ensures SeatsBounded(Advance(db, job, at, fault).0)
  {
  }

  lemma {:induction false} BoundsHold(cfg: Config, states: seq<State>, actions: seq<Action>, n: nat)
    requires Run(cfg, states, actions) && n < |states| && Init(cfg, states[0])
    ensures SeatsBounded(states[n].db)
  {
    if n > 0 {
      BoundsHold(cfg, states, actions, n - 1);
      BoundsStep(cfg, states[n - 1], actions[n - 1]);
    }
  }

  lemma BoundsStep(cfg: Config, s: State, a: Action)
    requires SeatsBounded(s.db) && Enabled(cfg, s, a)
    ensures SeatsBounded(Apply(cfg, s, a).db)
  {
    if a.Work? { AdvanceBounded(s.db, JobOf(s.db, s.mail[a.tag].batch), s.mail[a.tag].place.at, a.fault); }
  }

  // No section ever holds more than it has, whatever the consumers do. With any
  // number of handlers on the same CREATE batch, from snapshots however old, and
  // CANCEL batches one at a time, every registered student has a seat as well.
  lemma NoOverselling(cfg: Config, states: seq<State>, actions: seq<Action>, n: nat, s: SectionId)
    requires Run(cfg, states, actions) && n < |states| && Init(cfg, states[0])
    requires s in states[n].db.seats
    ensures var db := states[n].db;
            && s in cfg.regime.base
            && 0 <= db.seats[s].slDk <= db.seats[s].slMax
            && (CancelsAlone(cfg.regime) ==> cfg.regime.base[s] + Registered(db, s) <= db.seats[s].slDk)
  {
    BoundsHold(cfg, states, actions, n);
    ShapedHolds(cfg, states, actions, n);
    if CancelsAlone(cfg.regime) {
      InitHolds(cfg, states[0]);
      RunKeeps(cfg, states, actions, n);
      RegisteredAtMost(states[n].db, s);
    }
  }

  // With one consumer at a time per batch the counter is exact.
  lemma SeatConservation(cfg: Config, states: seq<State>, actions: seq<Action>, n: nat, s: SectionId)
    requires Run(cfg, states, actions) && n < |states| && Init(cfg, states[0]) && Steady(cfg)
    requires s in states[n].db.seats
    ensures var db := states[n].db;
            s in cfg.regime.base && db.seats[s].slDk == cfg.regime.base[s] + Registered(db, s)
  {
    InitHolds(cfg, states[0]);
    RunKeeps(cfg, states, actions, n);
    RegisteredExact(states[n].db, s);
  }

  // The next step of `t` runs the release statement for entry `k`.
  predicate Releases(s: State, t: Tag, k: nat) {
    && t in s.mail && s.mail[t].batch in s.db.batches
    && s.mail[t].place.Handling? && s.mail[t].place.at.phase == AtItem(k)
    && var job := JobOf(s.db, s.mail[t].batch);
    && job.kind == CANCEL && k < |job.items| && Todo(job, s.mail[t].place.at.snapshot, k) && Fillable(job, k)
  }

  // No release finds the counter at zero.
  lemma ClampNeverNeeded(cfg: Config, states: seq<State>, actions: seq<Action>, n: nat, t: Tag, k: nat)
    requires Run(cfg, states, actions) && n < |states| && Init(cfg, states[0]) && CancelsAlone(cfg.regime)
    requires Releases(states[n], t, k)
    ensures var db := states[n].db;
            var s := JobOf(db, states[n].mail[t].batch).items[k].sectionId.value;
            s in db.seats && Clamped(db.seats[s].slDk) == db.seats[s].slDk - 1
  {
    InitHolds(cfg, states[0]);
    RunKeeps(cfg, states, actions, n);
    var st := states[n];
    ReleaseReady(cfg, st, t, k);
    ReleaseUnclamped(cfg.regime, st.db, JobOf(st.db, st.mail[t].batch).items[k].itemId);
  }

  lemma ReleaseReady(cfg: Config, s: State, t: Tag, k: nat)
    requires Inv(cfg, s) && Releases(s, t, k)
    ensures var entry := JobOf(s.db, s.mail[t].batch).items[k];
            var c := entry.itemId;
            && c in s.db.items && s.db.items[c].kind == CANCEL && s.db.items[c].status == Pending
            && s.db.items[c].source.Some? && Some(s.db.items[c].section) == entry.sectionId
  {
    var b := s.mail[t].batch;
    assert GovernedBatch(cfg, s.db, b) && Live(s.mail[t]);
    assert EntryWf(s.db, b, k);
    assert ItemWf(s.db, s.db.batches[b].payload[k].itemId);
  }

  // ---- Item statuses ----

  // A FAILED CREATE item that a handler revives.
  predicate Revived(before: Item, after: Item) {
    before.kind == CREATE && before.status == Failed && after.status == Success
  }

  predicate Allowed(before: Item, after: Item) {
    || before.status == after.status
    || (before.status == Pending && (after.status == Success || after.status == Failed))
    || (before.status == Success && after.status == Cancelled && before.kind == CREATE)
  }

  lemma AdvanceAllowed(g: Regime, db: Db, job: Job, at: Progress, fault: bool, i: ItemId)
    requires DbInv(g, db) && OneHandler(g) && CancelsAlone(g) && job.batch in db.batches && job == JobOf(db, job.batch)
    requires HandlerOk(g, db, job, at) && i in db.items
    ensures var after := Advance(db, job, at, fault).0;
            i in after.items && (Allowed(db.items[i], after.items[i])
              || (g.dead != AllWait && Revived(db.items[i], after.items[i])))
  {
    match at.phase
    case AtItem(k) =>
      if k < |job.items| && Todo(job, at.snapshot, k) && Fillable(job, k) && !fault {
        var c := job.items[k].itemId;
        assert EntryWf(db, job.batch, k) && ItemWf(db, c);
        if job.kind == CANCEL {
          var src := job.items[k].source.value;
          assert SourceWf(db, db.items[c], src) && WaitsOn(db, c, src);
        }
      }
    case _ =>
  }

  lemma SubmittedKeepOld(cfg: Config, s: State, a: Action, i: ItemId)
    requires Enabled(cfg, s, a) && (a.SubmitCreate? || a.SubmitCancel?) && s.db.seats.Keys == cfg.catalog.rows.Keys
    requires i in s.db.items
    ensures var after := Apply(cfg, s, a).db; i in after.items && after.items[i] == s.db.items[i]
  {
    if a.SubmitCreate? {
      CreateInsertable(cfg, s, a.sub);
      InsertedElsewhere(cfg.regime, s.db, a.sub.batch, CreateBatchOf(cfg, a.sub));
    } else {
      CancelInsertable(cfg, s, a.sub);
      InsertedElsewhere(cfg.regime, s.db, a.sub.batch, CancelBatchOf(cfg, s.db, a.sub));
    }
  }

  // With one handler at a time per batch, the only changes of an item are
  // PENDING to SUCCESS or FAILED, SUCCESS to CANCELLED for CREATE items, and,
  // only if a dead letter of a CREATE batch may run beside its handler, FAILED
  // to SUCCESS for CREATE items.
  lemma StatusSteps(cfg: Config, s: State, a: Action, i: ItemId)
    requires Inv(cfg, s) && OneHandler(cfg.regime) && Enabled(cfg, s, a) && i in s.db.items
    ensures var after := Apply(cfg, s, a).db;
            i in after.items
            && (Allowed(s.db.items[i], after.items[i])
                  || (cfg.regime.dead != AllWait && Revived(s.db.items[i], after.items[i])))
    ensures var after := Apply(cfg, s, a).db; Mould(s.db.items[i]) == Mould(after.items[i])
  {
    match a
    case SubmitCreate(_) => SubmittedKeepOld(cfg, s, a, i);
    case SubmitCancel(_) => SubmittedKeepOld(cfg, s, a, i);
    case Work(t, fault) =>
      WorkKeeps(cfg, s, t, fault);
      AdvanceAllowed(cfg.regime, s.db, JobOf(s.db, s.mail[t].batch), s.mail[t].place.at, fault, i);
    case SettleDead(t, fault) => SettleDeadKeeps(cfg, s, t, fault);
    case _ =>
  }

  // The API stores what it publishes: the entries of a batch are its items,
  // each once.
  lemma PayloadCoversBatch(cfg: Config, states: seq<State>, actions: seq<Action>, n: nat, b: BatchId)
    requires Run(cfg, states, actions) && n < |states| && Init(cfg, states[0])
    requires b in states[n].db.batches
    ensures var db := states[n].db;
            var payload := db.batches[b].payload;
            && (forall k :: 0 <= k < |payload| ==>
                  payload[k].itemId in db.items && db.items[payload[k].itemId].batch == b)
            && (forall i :: i in db.items && db.items[i].batch == b ==>
                  exists k :: 0 <= k < |payload| && payload[k].itemId == i)
            && (forall j, k :: 0 <= j < k < |payload| ==> payload[j].itemId != payload[k].itemId)
  {
    ShapedHolds(cfg, states, actions, n);
    PayloadIsItems(states[n].db, b);
  }

  lemma PayloadIsItems(db: Db, b: BatchId)
    requires Wf(db) && b in db.batches
    ensures var payload := db.batches[b].payload;
            && (forall k :: 0 <= k < |payload| ==>
                  payload[k].itemId in db.items && db.items[payload[k].itemId].batch == b)
            && (forall i :: i in db.items && db.items[i].batch == b ==>
                  exists k :: 0 <= k < |payload| && payload[k].itemId == i)
            && (forall j, k :: 0 <= j < k < |payload| ==> payload[j].itemId != payload[k].itemId)
  {
    var payload := db.batches[b].payload;
    forall k | 0 <= k < |payload|
      ensures payload[k].itemId in db.items && db.items[payload[k].itemId].batch == b
              && db.items[payload[k].itemId].index == k
    {
      assert EntryWf(db, b, k);
    }
    forall i | i in db.items && db.items[i].batch == b
      ensures exists k :: 0 <= k < |payload| && payload[k].itemId == i
    {
      assert ItemWf(db, i);
      assert payload[db.items[i].index].itemId == i;
    }
  }

  // ---- Cancellations ----

  ghost function CancelSuccesses(db: Db): set<ItemId> {
    set i | i in db.items && db.items[i].kind == CANCEL && db.items[i].status == Success
  }

  ghost function CancelledCreates(db: Db): set<ItemId> {
    set i | i in db.items && db.items[i].kind == CREATE && db.items[i].status == Cancelled
  }

  // Two items of one student, semester and section.
  predicate SamePlace(db: Db, c: ItemId, i: ItemId) {
    && c in db.items && i in db.items && db.items[c].section == db.items[i].section
    && db.items[c].batch in db.batches && db.items[i].batch in db.batches
    && db.batches[db.items[c].batch].user == db.batches[db.items[i].batch].user
    && db.batches[db.items[c].batch].semester == db.batches[db.items[i].batch].semester
  }

  // A one-to-one correspondence makes two sets equally large.
  lemma {:induction false} Matched(a: set<ItemId>, b: set<ItemId>, f: map<ItemId, ItemId>)
    requires f.Keys == a && (forall x :: x in a ==> f[x] in b)
    requires forall x, y :: x in a && y in a && f[x] == f[y] ==> x == y
    requires forall y :: y in b ==> exists x :: x in a && f[x] == y
    ensures |a| == |b|
    decreases |a|
  {
    if a == {} {
      assert forall y :: y !in b;
      assert b == {};
    } else {
      var x :| x in a;
      forall y | y in b - {f[x]} ensures exists z :: z in a - {x} && (f - {x})[z] == y {
        var z :| z in a && f[z] == y;
        assert z in a - {x} && (f - {x})[z] == y;
      }
      Matched(a - {x}, b - {f[x]}, f - {x});
    }
  }

  // The SUCCESS CANCEL items and the CANCELLED CREATE items correspond one to
  // one, within one student, semester and section, so there are equally many.
  lemma CancelBijection(cfg: Config, states: seq<State>, actions: seq<Action>, n: nat) returns (f: map<ItemId, ItemId>)
    requires Run(cfg, states, actions) && n < |states| && Init(cfg, states[0]) && Steady(cfg)
    ensures var db := states[n].db;
            && f.Keys == CancelSuccesses(db) && f.Values == CancelledCreates(db)
            && (forall c, d :: c in f && d in f && f[c] == f[d] ==> c == d)
            && (forall c :: c in f ==> SamePlace(db, c, f[c]))
            && |CancelSuccesses(db)| == |CancelledCreates(db)|
  {
    InitHolds(cfg, states[0]);
    RunKeeps(cfg, states, actions, n);
    var db := states[n].db;
    f := SourceMap(db);
    Matched(CancelSuccesses(db), CancelledCreates(db), f);
  }

  lemma SourceMap(db: Db) returns (f: map<ItemId, ItemId>)
    requires Wf(db) && Exact(db)
    ensures f.Keys == CancelSuccesses(db) && f.Values == CancelledCreates(db)
    ensures forall c, d :: c in f && d in f && f[c] == f[d] ==> c == d
    ensures forall c :: c in f ==> SamePlace(db, c, f[c])
    ensures forall y :: y in CancelledCreates(db) ==> exists x :: x in f && f[x] == y
  {
    f := map c | c in CancelSuccesses(db) :: db.items[c].source.value;
    forall c | c in f
      ensures Cancels(db, c, f[c]) && f[c] in CancelledCreates(db) && SamePlace(db, c, f[c])
    {
      assert ItemWf(db, c) && SourceWf(db, db.items[c], f[c]);
      assert Cancels(db, c, f[c]);
    }
    forall y | y in CancelledCreates(db) ensures exists x :: x in f && f[x] == y {
      assert HasCancel(db, y);
      var c :| Cancels(db, c, y);
      assert c in f && f[c] == y;
    }
    forall y | y in CancelledCreates(db) ensures y in f.Values {
      var x :| x in f && f[x] == y;
    }
  }

  // ---- The dashboard's count ----

  // A CREATE item that was SUCCESS at some point of the run so far.
  ghost predicate EverSucceeded(states: seq<State>, n: nat, i: ItemId)
    requires n < |states|
  {
    i in states[n].db.items && states[n].db.items[i].kind == CREATE
    && exists m :: 0 <= m <= n && i in states[m].db.items && states[m].db.items[i].status == Success
  }

  predicate WasSuccess(it: Item) { it.kind == CREATE && (it.status == Success || it.status == Cancelled) }

  // From state m - 1 to state m item `i` is kept and changed as allowed, or appears PENDING.
  ghost predicate KeptAt(states: seq<State>, m: nat, i: ItemId)
    requires 0 < m < |states|
  {
    var before, after := states[m - 1].db.items, states[m].db.items;
    && (i in before ==>
          i in after && (Allowed(before[i], after[i]) || Revived(before[i], after[i]))
          && before[i].kind == after[i].kind)
    && (i !in before && i in after ==> after[i].status == Pending)
  }

  lemma {:induction false} EverByInduction(states: seq<State>, n: nat, i: ItemId)
    requires n < |states| && states[0].db.items == map[]
    requires forall m :: 0 < m <= n ==> KeptAt(states, m, i)
    ensures i !in states[n].db.items ==> forall m :: 0 <= m <= n ==> i !in states[m].db.items
    ensures EverSucceeded(states, n, i) <==> i in states[n].db.items && WasSuccess(states[n].db.items[i])
  {
    if n > 0 {
      EverByInduction(states, n - 1, i);
      assert KeptAt(states, n, i);
      assert EverSucceeded(states, n, i) <==>
        i in states[n].db.items && states[n].db.items[i].kind == CREATE
        && (EverSucceeded(states, n - 1, i) || states[n].db.items[i].status == Success);
    }
  }

  lemma EverSucceededNow(cfg: Config, states: seq<State>, actions: seq<Action>, n: nat, i: ItemId)
    requires Run(cfg, states, actions) && n < |states| && Init(cfg, states[0]) && Steady(cfg)
    ensures EverSucceeded(states, n, i) <==> i in states[n].db.items && WasSuccess(states[n].db.items[i])
  {
    forall m | 0 < m <= n ensures KeptAt(states, m, i) { KeptOrFresh(cfg, states, actions, m, i); }
    EverByInduction(states, n, i);
  }

  lemma KeptOrFresh(cfg: Config, states: seq<State>, actions: seq<Action>, m: nat, i: ItemId)
    requires Run(cfg, states, actions) && 0 < m < |states| && Init(cfg, states[0]) && Steady(cfg)
    ensures KeptAt(states, m, i)
  {
    InitHolds(cfg, states[0]);
    RunKeeps(cfg, states, actions, m - 1);
    if i in states[m - 1].db.items { StatusSteps(cfg, states[m - 1], actions[m - 1], i); }
    else if i in states[m].db.items { FreshIsPending(cfg, states[m - 1], actions[m - 1], i); }
  }

  lemma SameItems(cfg: Config, s: State, a: Action)
    requires Inv(cfg, s) && Enabled(cfg, s, a) && !a.SubmitCreate? && !a.SubmitCancel?
    ensures Apply(cfg, s, a).db.items.Keys == s.db.items.Keys
  {
    match a
    case Work(t, fault) => WorkKeeps(cfg, s, t, fault);
    case SettleDead(t, fault) => SettleDeadKeeps(cfg, s, t, fault);
    case _ =>
  }

  lemma FreshIsPending(cfg: Config, s: State, a: Action, i: ItemId)
    requires Inv(cfg, s) && Enabled(cfg, s, a)
    requires i !in s.db.items && i in Apply(cfg, s, a).db.items
    ensures Apply(cfg, s, a).db.items[i].status == Pending
  {
    if a.SubmitCreate? || a.SubmitCancel? { SubmittedArePending(cfg, s, a, i); } else { SameItems(cfg, s, a); }
  }

  lemma SubmittedArePending(cfg: Config, s: State, a: Action, i: ItemId)
    requires Enabled(cfg, s, a) && (a.SubmitCreate? || a.SubmitCancel?) && s.db.seats.Keys == cfg.catalog.rows.Keys
    requires i !in s.db.items && i in Apply(cfg, s, a).db.items
    ensures Apply(cfg, s, a).db.items[i].status == Pending
  {
    if a.SubmitCreate? {
      CreateInsertable(cfg, s, a.sub);
      NewItem(s.db, a.sub.batch, CreateBatchOf(cfg, a.sub), i);
    } else {
      CancelInsertable(cfg, s, a.sub);
      NewItem(s.db, a.sub.batch, CancelBatchOf(cfg, s.db, a.sub), i);
    }
  }
}
