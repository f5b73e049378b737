// Retries are bounded, and the consumers come to rest whatever the schedule.
module Retry {
  import opened Prelude
  import opened Tables
  import opened Admission
  import opened Ledger
  import opened Worker
  import opened Recovery
  import opened Protocol
  import opened Seats
  import opened Completion
  import opened Enrolments
  import opened DeliveryGuarantees

  // ---- Runs without consumer crashes and lost connections ----

  // The broker takes a message back.
  predicate TakesBack(a: Action) { a.Crash? || a.Redeliver? }

  ghost predicate CrashFree(cfg: Config, states: seq<State>, actions: seq<Action>) {
    Run(cfg, states, actions) && forall i :: 0 <= i < |actions| ==> !TakesBack(actions[i])
  }

  // The retry header against the number of times the batch was handed to a handler.
  predicate HeaderOk(cfg: Config, s: State, d: Delivery) {
    && d.batch in s.starts
    && d.retry <= cfg.maxRetries
    && s.starts[d.batch] == d.retry + (if d.place == Queued then 0 else 1)
    && (d.firstQueuedAt.Some? <==> d.retry > 0)
  }

  ghost predicate Single(s: State) {
    forall t, u ::
      t in s.mail && u in s.mail && Owed(s.mail[t]) && Owed(s.mail[u]) && s.mail[t].batch == s.mail[u].batch ==> t == u
  }

  ghost predicate Counted(cfg: Config, s: State) {
    && (forall t :: t in s.mail && Owed(s.mail[t]) ==> HeaderOk(cfg, s, s.mail[t]))
    && (forall b :: b in s.starts ==> s.starts[b] <= cfg.maxRetries + 1)
    && (forall t :: t in s.mail ==> s.mail[t].batch in s.starts)
  }

  lemma AdvancePhase(db: Db, job: Job, at: Progress, fault: bool)
    requires at.phase == Loading || at.phase.AtItem? || at.phase.Marking?
    ensures var at' := Advance(db, job, at, fault).1;
            at'.phase == Acking || at'.phase == Failing || at'.phase.AtItem? || at'.phase.Marking?
  {
  }

  lemma SingleStep(cfg: Config, s: State, a: Action)
    requires Single(s) && Counted(cfg, s) && Enabled(cfg, s, a) && !TakesBack(a)
    ensures Single(Apply(cfg, s, a))
  {
    var next := Apply(cfg, s, a);
    if a.Work? { AdvancePhase(s.db, JobOf(s.db, s.mail[a.tag].batch), s.mail[a.tag].place.at, a.fault); }
    forall t, u | t in next.mail && u in next.mail && Owed(next.mail[t]) && Owed(next.mail[u])
      && next.mail[t].batch == next.mail[u].batch
      ensures t == u
    {
      if a.Republish? {
        assert t != a.tag && u != a.tag;
      }
    }
  }

  lemma HeadersStep(cfg: Config, s: State, a: Action, t: Tag)
    requires Single(s) && Counted(cfg, s) && Enabled(cfg, s, a) && !TakesBack(a)
    requires t in Apply(cfg, s, a).mail && Owed(Apply(cfg, s, a).mail[t])
    ensures HeaderOk(cfg, Apply(cfg, s, a), Apply(cfg, s, a).mail[t])
  {
    if a.Deliver? {
      DeliverHeader(cfg, s, a.tag, t);
    } else if a.Republish? {
      RepublishHeader(cfg, s, a.tag, a.copy, a.now, t);
    } else if a.Work? {
      WorkHeader(cfg, s, a.tag, a.fault, t);
    } else {
      QuietHeader(cfg, s, a, t);
    }
  }

  lemma QuietHeader(cfg: Config, s: State, a: Action, t: Tag)
    requires Counted(cfg, s) && Enabled(cfg, s, a) && !TakesBack(a) && !a.Deliver? && !a.Republish? && !a.Work?
    requires t in Apply(cfg, s, a).mail && Owed(Apply(cfg, s, a).mail[t])
    ensures HeaderOk(cfg, Apply(cfg, s, a), Apply(cfg, s, a).mail[t])
  {
    if t in s.mail { assert Owed(s.mail[t]) ==> HeaderOk(cfg, s, s.mail[t]); }
  }

  lemma DeliverHeader(cfg: Config, s: State, u: Tag, t: Tag)
    requires Single(s) && Counted(cfg, s) && Enabled(cfg, s, Deliver(u)) && t in s.mail
    requires Owed(Apply(cfg, s, Deliver(u)).mail[t])
    ensures HeaderOk(cfg, Apply(cfg, s, Deliver(u)), Apply(cfg, s, Deliver(u)).mail[t])
  {
    assert HeaderOk(cfg, s, s.mail[u]);
    if t != u { assert HeaderOk(cfg, s, s.mail[t]) && s.mail[t].batch != s.mail[u].batch; }
  }

  lemma RepublishHeader(cfg: Config, s: State, u: Tag, copy: Tag, now: int, t: Tag)
    requires Counted(cfg, s) && Enabled(cfg, s, Republish(u, copy, now))
    requires var next := Apply(cfg, s, Republish(u, copy, now)); t in next.mail && Owed(next.mail[t])
    ensures var next := Apply(cfg, s, Republish(u, copy, now)); HeaderOk(cfg, next, next.mail[t])
  {
    assert HeaderOk(cfg, s, s.mail[u]);
    if t in s.mail && t != u { assert HeaderOk(cfg, s, s.mail[t]); }
  }

  lemma WorkHeader(cfg: Config, s: State, u: Tag, fault: bool, t: Tag)
    requires Counted(cfg, s) && Enabled(cfg, s, Work(u, fault)) && t in s.mail && Owed(Worked(s, u, fault).mail[t])
    ensures HeaderOk(cfg, Worked(s, u, fault), Worked(s, u, fault).mail[t])
  {
    AdvancePhase(s.db, JobOf(s.db, s.mail[u].batch), s.mail[u].place.at, fault);
    assert HeaderOk(cfg, s, s.mail[t]);
  }

  lemma CountedStep(cfg: Config, s: State, a: Action)
    requires Single(s) && Counted(cfg, s) && Enabled(cfg, s, a) && !TakesBack(a)
    ensures Counted(cfg, Apply(cfg, s, a))
  {
    var next := Apply(cfg, s, a);
    forall t | t in next.mail && Owed(next.mail[t])
      ensures HeaderOk(cfg, next, next.mail[t])
    {
      HeadersStep(cfg, s, a, t);
    }
    forall b | b in next.starts ensures next.starts[b] <= cfg.maxRetries + 1 { StartsStep(cfg, s, a, b); }
    forall t | t in next.mail ensures next.mail[t].batch in next.starts { KnownBatchStep(cfg, s, a, t); }
  }

  lemma KnownBatchStep(cfg: Config, s: State, a: Action, t: Tag)
    requires Counted(cfg, s) && Enabled(cfg, s, a) && t in Apply(cfg, s, a).mail
    ensures Apply(cfg, s, a).mail[t].batch in Apply(cfg, s, a).starts
  {
  }

  lemma StartsStep(cfg: Config, s: State, a: Action, b: BatchId)
    requires Counted(cfg, s) && Enabled(cfg, s, a) && b in Apply(cfg, s, a).starts
    ensures Apply(cfg, s, a).starts[b] <= cfg.maxRetries + 1
  {
    if a.Deliver? { assert HeaderOk(cfg, s, s.mail[a.tag]); }
  }

  lemma {:induction false} CrashFreeHolds(cfg: Config, states: seq<State>, actions: seq<Action>, n: nat)
    requires CrashFree(cfg, states, actions) && n < |states| && Init(cfg, states[0])
    ensures Single(states[n]) && Counted(cfg, states[n])
  {
    if n > 0 {
      CrashFreeHolds(cfg, states, actions, n - 1);
      SingleStep(cfg, states[n - 1], actions[n - 1]);
      CountedStep(cfg, states[n - 1], actions[n - 1]);
    }
  }

  // Without crashes a batch is handed to a handler at most maxRetries + 1
  // times, and the header of the copy in use says how often before.
  lemma BoundedHandling(cfg: Config, states: seq<State>, actions: seq<Action>, n: nat, b: BatchId)
    requires CrashFree(cfg, states, actions) && n < |states| && Init(cfg, states[0]) && b in states[n].starts
    ensures states[n].starts[b] <= cfg.maxRetries + 1
    ensures forall t :: t in states[n].mail && states[n].mail[t].batch == b && Owed(states[n].mail[t]) ==>
      HeaderOk(cfg, states[n], states[n].mail[t])
  {
    CrashFreeHolds(cfg, states, actions, n);
  }

  // Every copy of `b` still to be worked on carries first-queued-at `x`.
  ghost predicate Stamped(s: State, b: BatchId, x: int) {
    b in s.starts && forall t :: t in s.mail && s.mail[t].batch == b && Owed(s.mail[t]) ==>
      s.mail[t].firstQueuedAt == Some(x)
  }

  lemma StampKept(cfg: Config, s: State, a: Action, b: BatchId, x: int)
    requires Stamped(s, b, x) && Enabled(cfg, s, a) && !TakesBack(a)
    ensures Stamped(Apply(cfg, s, a), b, x)
  {
    var next := Apply(cfg, s, a);
    if a.Work? { AdvancePhase(s.db, JobOf(s.db, s.mail[a.tag].batch), s.mail[a.tag].place.at, a.fault); }
    forall t | t in next.mail && next.mail[t].batch == b && Owed(next.mail[t])
      ensures next.mail[t].firstQueuedAt == Some(x)
    {
      if a.Republish? && t == a.copy { assert Owed(s.mail[a.tag]); }
    }
  }

  // Once set, first-queued-at of a batch's message never changes.
  lemma FirstQueuedFixed(cfg: Config, states: seq<State>, actions: seq<Action>, m: nat, n: nat, t: Tag, u: Tag)
    requires CrashFree(cfg, states, actions) && m <= n < |states| && Init(cfg, states[0])
    requires t in states[m].mail && Owed(states[m].mail[t]) && states[m].mail[t].firstQueuedAt.Some?
    requires u in states[n].mail && Owed(states[n].mail[u]) && states[n].mail[u].batch == states[m].mail[t].batch
    ensures states[n].mail[u].firstQueuedAt == states[m].mail[t].firstQueuedAt
  {
    CrashFreeHolds(cfg, states, actions, m);
    assert Stamped(states[m], states[m].mail[t].batch, states[m].mail[t].firstQueuedAt.value);
    StampedOn(cfg, states, actions, m, n, states[m].mail[t].batch, states[m].mail[t].firstQueuedAt.value);
  }

  ghost predicate StampStep(states: seq<State>, k: nat, b: BatchId, x: int)
    requires k + 1 < |states|
  {
    Stamped(states[k], b, x) ==> Stamped(states[k + 1], b, x)
  }

  lemma StampedOn(cfg: Config, states: seq<State>, actions: seq<Action>, m: nat, n: nat, b: BatchId, x: int)
    requires CrashFree(cfg, states, actions) && m <= n < |states| && Stamped(states[m], b, x)
    ensures Stamped(states[n], b, x)
  {
    forall k | m <= k < n ensures StampStep(states, k, b, x) {
      if Stamped(states[k], b, x) { StampKept(cfg, states[k], actions[k], b, x); }
    }
    StampByInduction(states, m, n, b, x);
  }

  lemma {:induction false} StampByInduction(states: seq<State>, m: nat, n: nat, b: BatchId, x: int)
    requires m <= n < |states| && Stamped(states[m], b, x)
    requires forall k :: m <= k < n ==> StampStep(states, k, b, x)
    ensures Stamped(states[n], b, x)
  {
    if m < n {
      StampByInduction(states, m, n - 1, b, x);
      assert StampStep(states, n - 1, b, x);
    }
  }

  // A message in either queue is the only copy still to be worked on, so no
  // handler of its batch is live: that needs no assumption here.
  lemma ExclusiveForFree(cfg: Config, states: seq<State>, actions: seq<Action>, n: nat, t: Tag)
    requires CrashFree(cfg, states, actions) && n < |states| && Init(cfg, states[0])
    requires t in states[n].mail && (states[n].mail[t].place == Queued || states[n].mail[t].place == Dead)
    ensures Idle(states[n], states[n].mail[t].batch)
  {
    CrashFreeHolds(cfg, states, actions, n);
  }

  // ---- Crash-free runs have one handler per batch ----

  function Exclusively(cfg: Config): Config { cfg.(regime := cfg.regime.(handlers := OnePerBatch, dead := AllWait)) }

  lemma SameStep(cfg: Config, s: State, a: Action)
    requires Enabled(cfg, s, a)
    requires a.Deliver? || a.SettleDead? ==> Idle(s, s.mail[a.tag].batch)
    ensures Enabled(Exclusively(cfg), s, a) && Apply(Exclusively(cfg), s, a) == Apply(cfg, s, a)
  {
    match a
    case SubmitCreate(sub) => assert CreateAdmitted(Exclusively(cfg), s, sub);
    case SubmitCancel(sub) => assert CancelAdmitted(Exclusively(cfg), s, sub);
    case _ =>
  }

  lemma CrashFreeIsExclusive(cfg: Config, states: seq<State>, actions: seq<Action>)
    requires CrashFree(cfg, states, actions) && Init(cfg, states[0])
    ensures Run(Exclusively(cfg), states, actions) && Init(Exclusively(cfg), states[0])
  {
    forall i | 0 <= i < |actions|
      ensures Enabled(Exclusively(cfg), states[i], actions[i])
              && states[i + 1] == Apply(Exclusively(cfg), states[i], actions[i])
    {
      var a := actions[i];
      if a.Deliver? || a.SettleDead? { ExclusiveForFree(cfg, states, actions, i, a.tag); }
      SameStep(cfg, states[i], a);
    }
  }

  // Exact seats with no assumption about consumers, as long as none crashes.
  lemma CrashFreeConservation(cfg: Config, states: seq<State>, actions: seq<Action>, n: nat, s: SectionId)
    requires CrashFree(cfg, states, actions) && n < |states| && Init(cfg, states[0]) && s in states[n].db.seats
    ensures s in cfg.regime.base && states[n].db.seats[s].slDk == cfg.regime.base[s] + Registered(states[n].db, s)
  {
    CrashFreeIsExclusive(cfg, states, actions);
    SeatConservation(Exclusively(cfg), states, actions, n, s);
  }

  // And every student stays lawful.
  lemma CrashFreeLawful(cfg: Config, states: seq<State>, actions: seq<Action>, n: nat, user: UserId, semester: string)
    requires CrashFree(cfg, states, actions) && n < |states| && Init(cfg, states[0])
    ensures Lawful(cfg.catalog, cfg.settings.maxCredits, Held(states[n].db, user, semester))
  {
    CrashFreeIsExclusive(cfg, states, actions);
    AlwaysLawful(Exclusively(cfg), states, actions, n, user, semester);
  }

  // ---- The consumers come to rest ----

  predicate Consumer(a: Action) { a.Deliver? || a.Work? || a.Republish? || a.Ack? || a.SettleDead? }

  // Steps a copy may still cause, counting the copies made from it.
  function Budget(cfg: Config, db: Db, d: Delivery): nat {
    if d.batch !in db.batches then 0
    else
      var job := JobOf(db, d.batch);
      var round := 2 * |job.items| + 10;
      var rounds := (if d.retry < cfg.maxRetries then cfg.maxRetries - d.retry else 0) * round;
      match d.place
      case Queued => rounds + round - 2
      case Handling(at) =>
        if at.phase == Failing then rounds + 4
        else if at.phase == Republished || at.phase == Acking then 1
        else rounds + 5 + Ahead(job, at)
      case Dead => 2
      case DeadAcking => 1
  }

  ghost function TotalBudget(cfg: Config, s: State): int { Tally(s.mail, (d: Delivery) => Budget(cfg, s.db, d)) }

  ghost predicate SamePayloads(a: Db, b: Db) {
    && a.batches.Keys == b.batches.Keys
    && forall n :: n in a.batches ==>
       a.batches[n].payload == b.batches[n].payload && a.batches[n].kind == b.batches[n].kind
  }

  lemma AdvancePayloads(db: Db, job: Job, at: Progress, fault: bool)
    ensures SamePayloads(db, Advance(db, job, at, fault).0)
  {
  }

  lemma AheadLess(db: Db, job: Job, at: Progress, fault: bool)
    requires at.phase == Loading || at.phase.AtItem? || at.phase.Marking?
    ensures var at' := Advance(db, job, at, fault).1;
            at'.phase == Failing || at'.phase == Acking
              || ((at'.phase.AtItem? || at'.phase.Marking?) && Ahead(job, at') < Ahead(job, at))
  {
  }

  lemma AdvanceSpends(cfg: Config, db: Db, d: Delivery, fault: bool)
    requires d.batch in db.batches && Live(d)
    ensures var (after, at) := Advance(db, JobOf(db, d.batch), d.place.at, fault);
            SamePayloads(db, after) && Budget(cfg, db, d.(place := Handling(at))) < Budget(cfg, db, d)
  {
    AdvancePayloads(db, JobOf(db, d.batch), d.place.at, fault);
    AheadLess(db, JobOf(db, d.batch), d.place.at, fault);
  }

  lemma CopySpends(cfg: Config, db: Db, d: Delivery, now: int)
    requires d.batch in db.batches && d.place.Handling? && d.place.at.phase == Failing
    ensures Budget(cfg, db, d.(place := Handling(d.place.at.(phase := Republished))))
            + Budget(cfg, db, CopyOf(cfg, d, now))
            < Budget(cfg, db, d)
  {
    if d.retry < cfg.maxRetries {
      var round := 2 * |JobOf(db, d.batch).items| + 10;
      var r := cfg.maxRetries - d.retry;
      assert r * round == (r - 1) * round + round;
    }
  }

  lemma SamePayloadsBudget(cfg: Config, a: Db, b: Db, mail: map<Tag, Delivery>)
    requires SamePayloads(a, b)
    ensures Tally(mail, (d: Delivery) => Budget(cfg, a, d)) == Tally(mail, (d: Delivery) => Budget(cfg, b, d))
  {
    forall d: Delivery ensures Budget(cfg, a, d) == Budget(cfg, b, d) {
      if d.batch in a.batches { assert JobOf(a, d.batch) == JobOf(b, d.batch); }
    }
    TallySame(mail, mail, (d: Delivery) => Budget(cfg, a, d), (d: Delivery) => Budget(cfg, b, d));
  }

  lemma RepublishSpends(cfg: Config, s: State, t: Tag, copy: Tag, now: int)
    requires Enabled(cfg, s, Republish(t, copy, now)) && s.mail[t].batch in s.db.batches
    ensures TotalBudget(cfg, Apply(cfg, s, Republish(t, copy, now))) < TotalBudget(cfg, s)
  {
    var d := s.mail[t];
    var moved := d.(place := Handling(d.place.at.(phase := Republished)));
    CopySpends(cfg, s.db, d, now);
    TallyUpdate(s.mail, t, moved, (x: Delivery) => Budget(cfg, s.db, x));
    TallyInsert(s.mail[t := moved], copy, CopyOf(cfg, d, now), (x: Delivery) => Budget(cfg, s.db, x));
  }

  lemma WorkSpends(cfg: Config, s: State, t: Tag, fault: bool)
    requires Enabled(cfg, s, Work(t, fault)) && s.mail[t].batch in s.db.batches
    ensures TotalBudget(cfg, Worked(s, t, fault)) < TotalBudget(cfg, s)
  {
    var next := Worked(s, t, fault);
    AdvanceSpends(cfg, s.db, s.mail[t], fault);
    TallyUpdate(s.mail, t, next.mail[t], (x: Delivery) => Budget(cfg, s.db, x));
    SamePayloadsBudget(cfg, s.db, next.db, next.mail);
  }

  // Every consumer step spends budget.
  lemma ConsumerSpends(cfg: Config, s: State, a: Action)
    requires Enabled(cfg, s, a) && Consumer(a) && s.mail[a.tag].batch in s.db.batches
    ensures TotalBudget(cfg, Apply(cfg, s, a)) < TotalBudget(cfg, s)
  {
    var next := Apply(cfg, s, a);
    var t, d := a.tag, s.mail[a.tag];
    var weight := (x: Delivery) => Budget(cfg, s.db, x);
    match a
    case Work(_, fault) =>
      WorkSpends(cfg, s, t, fault);
    case Republish(_, copy, now) =>
      RepublishSpends(cfg, s, t, copy, now);
    case Ack(_) =>
      TallyDelete(s.mail, t, weight);
    case SettleDead(_, fault) =>
      TallyUpdate(s.mail, t, next.mail[t], weight);
      SamePayloadsBudget(cfg, s.db, next.db, next.mail);
    case Deliver(_) =>
      TallyUpdate(s.mail, t, next.mail[t], weight);
    case _ =>
  }

  ghost predicate ConsumersOnly(actions: seq<Action>, m: nat, n: nat) {
    forall i :: m <= i < n && i < |actions| ==> Consumer(actions[i])
  }

  lemma BudgetStep(cfg: Config, states: seq<State>, actions: seq<Action>, n: nat)
    requires Run(cfg, states, actions) && n < |actions| && Init(cfg, states[0]) && Consumer(actions[n])
    ensures TotalBudget(cfg, states[n + 1]) < TotalBudget(cfg, states[n])
  {
    NoBatchDropped(cfg, states, actions, n);
    ConsumerSpends(cfg, states[n], actions[n]);
  }

  lemma {:induction false} BudgetFalls(cfg: Config, states: seq<State>, actions: seq<Action>, m: nat, n: nat)
    requires Run(cfg, states, actions) && m <= n < |states| && Init(cfg, states[0]) && ConsumersOnly(actions, m, n)
    ensures TotalBudget(cfg, states[n]) + (n - m) <= TotalBudget(cfg, states[m])
  {
    if m < n {
      BudgetStep(cfg, states, actions, n - 1);
      assert TotalBudget(cfg, states[n]) + 1 <= TotalBudget(cfg, states[n - 1]);
      BudgetFalls(cfg, states, actions, m, n - 1);
    }
  }

  // Once requests and crashes stop, only so many consumer steps can follow.
  lemma ConsumersStop(cfg: Config, states: seq<State>, actions: seq<Action>, m: nat, n: nat)
    requires Run(cfg, states, actions) && m <= n < |states| && Init(cfg, states[0]) && ConsumersOnly(actions, m, n)
    ensures n - m <= TotalBudget(cfg, states[m])
  {
    BudgetFalls(cfg, states, actions, m, n);
    var weight := (d: Delivery) => Budget(cfg, states[n].db, d);
    TallyAtMost(states[n].mail, (d: Delivery) => 0, weight);
    TallyZero(states[n].mail, (d: Delivery) => 0);
  }

  // While any copy is left, some consumer can move: nothing deadlocks.
  lemma ConsumersProgress(cfg: Config, states: seq<State>, actions: seq<Action>, n: nat) returns (a: Action)
    requires Run(cfg, states, actions) && n < |states| && Init(cfg, states[0]) && states[n].mail != map[]
    ensures Consumer(a) && Enabled(cfg, states[n], a)
  {
    NoBatchDropped(cfg, states, actions, n);
    a := SomeMove(cfg, states[n]);
  }

  lemma SomeMove(cfg: Config, s: State) returns (a: Action)
    requires AllAnswered(s) && s.mail != map[]
    ensures Consumer(a) && Enabled(cfg, s, a)
  {
    if t :| t in s.mail && Live(s.mail[t]) {
      a := Work(t, false);
    } else {
      var t :| t in s.mail;
      var d := s.mail[t];
      assert Answered(s, d.batch);
      match d.place
      case Queued => a := Deliver(t);
      case Handling(at) =>
        if at.phase == Failing {
          var copy := FreshTag(s.mail.Keys);
          a := Republish(t, copy, 0);
        } else {
          a := Ack(t);
        }
      case Dead => a := SettleDead(t, false);
      case DeadAcking => a := Ack(t);
    }
  }

  lemma {:induction false} FreshTag(tags: set<Tag>) returns (t: Tag)
    ensures t !in tags && forall u :: u in tags ==> u < t
    decreases |tags|
  {
    if tags == {} {
      t := 0;
    } else {
      var u :| u in tags;
      var v := FreshTag(tags - {u});
      t := if u < v then v else u + 1;
      assert tags == tags - {u} + {u};
    }
  }

  // At rest every accepted batch has its answer: it is COMPLETED with nothing
  // PENDING, unless its publish or its dead-letter transaction failed.
  lemma AtRest(cfg: Config, states: seq<State>, actions: seq<Action>, n: nat, b: BatchId)
    requires Run(cfg, states, actions) && n < |states| && Init(cfg, states[0])
    requires forall a :: Consumer(a) ==> !Enabled(cfg, states[n], a)
    requires b in states[n].db.batches && b !in states[n].lost
    ensures states[n].db.batches[b].status == Completed
    ensures forall i :: i in states[n].db.items && states[n].db.items[i].batch == b ==>
              states[n].db.items[i].status != Pending
  {
    if states[n].mail != map[] {
      var a := ConsumersProgress(cfg, states, actions, n);
      assert false;
    }
    NoBatchDropped(cfg, states, actions, n);
    assert Answered(states[n], b);
    forall i | i in states[n].db.items && states[n].db.items[i].batch == b
      ensures states[n].db.items[i].status != Pending
    {
      CompletedIsSettled(cfg, states, actions, n, i);
    }
  }

  // ---- handleProcessingFailure ----

  class Channel {
    var mail: map<Tag, Delivery>

    constructor (mail: map<Tag, Delivery>)
      ensures this.mail == mail
    {
      this.mail := mail;
    }

    // sendToQueue: the copy is a new message with the given headers.
    method SendToQueue(copy: Tag, d: Delivery)
      requires copy !in mail
      modifies this
      ensures mail == old(mail)[copy := d]
    {
      mail := mail[copy := d];
    }

    method AckMessage(t: Tag)
      modifies this
      ensures mail == old(mail) - {t}
    {
      mail := mail - {t};
    }

    // Publish the retry or the dead letter first, then acknowledge.
    method HandleProcessingFailure(t: Tag, copy: Tag, now: int, maxRetries: nat)
      requires t in mail && copy !in mail
      modifies this
      ensures var d := old(mail)[t];
              && t !in mail && mail.Keys == old(mail).Keys - {t} + {copy}
              && (forall u :: u in old(mail) && u != t ==> mail[u] == old(mail)[u])
              && mail[copy].batch == d.batch
              && (d.retry < maxRetries ==> mail[copy].place == Queued && mail[copy].retry == d.retry + 1
                                           && mail[copy].firstQueuedAt ==
                                              Some(if d.firstQueuedAt.Some? then d.firstQueuedAt.value else now))
              && (d.retry >= maxRetries ==> mail[copy] == d.(place := Dead))
    {
      var msg := mail[t];
      if msg.retry < maxRetries {
        var first := if msg.firstQueuedAt.Some? then msg.firstQueuedAt else Some(now);
        SendToQueue(copy, Delivery(msg.batch, msg.retry + 1, first, Queued));
      } else {
        SendToQueue(copy, Delivery(msg.batch, msg.retry, msg.firstQueuedAt, Dead));
      }
      AckMessage(t);
    }
  }

  // The method is the protocol's two actions, republish and acknowledge.
  method FailureIsTwoActions(cfg: Config, channel: Channel, ghost s: State, t: Tag, copy: Tag, now: int)
    requires channel.mail == s.mail && Enabled(cfg, s, Republish(t, copy, now))
    modifies channel
    ensures var half := Apply(cfg, s, Republish(t, copy, now));
            Enabled(cfg, half, Ack(t)) && channel.mail == Apply(cfg, half, Ack(t)).mail
  {
    ghost var half := Apply(cfg, s, Republish(t, copy, now));
    channel.HandleProcessingFailure(t, copy, now, cfg.maxRetries);
    assert channel.mail.Keys == (half.mail - {t}).Keys;
  }
}
