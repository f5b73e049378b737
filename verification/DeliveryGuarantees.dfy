// Message delivery: no batch is dropped silently, retries are counted, and the
// consumers always come to rest.
module DeliveryGuarantees {
  import opened Tables
  import opened Worker
  import opened Protocol

  // This copy still stands for unfinished work on its batch.
  predicate Owed(d: Delivery) {
    d.place == Queued || d.place == Dead || Live(d) || (d.place.Handling? && d.place.at.phase == Failing)
  }

  ghost predicate HasOwed(s: State, b: BatchId) {
    exists t :: t in s.mail && s.mail[t].batch == b && Owed(s.mail[t])
  }

  // ---- No batch is dropped silently ----

  ghost predicate Answered(s: State, b: BatchId)
    requires b in s.db.batches
  {
    s.db.batches[b].status == Completed || b in s.lost || HasOwed(s, b)
  }

  ghost predicate AllAnswered(s: State) {
    && (forall b {:trigger Answered(s, b)} :: b in s.db.batches ==> Answered(s, b) && b in s.starts)
    && (forall t :: t in s.mail ==> s.mail[t].batch in s.db.batches)
  }

  // A copy other than `t` is untouched; `t` is replaced by something owed, or its batch is answered otherwise.
  lemma AnsweredKept(s: State, next: State, t: Tag, b: BatchId)
    requires t in s.mail && b in s.db.batches && b in next.db.batches && Answered(s, b)
    requires s.db.batches[b].status == Completed ==> next.db.batches[b].status == Completed
    requires s.lost <= next.lost
    requires forall u :: u in s.mail && u != t ==> u in next.mail && next.mail[u] == s.mail[u]
    requires Owed(s.mail[t]) && s.mail[t].batch == b ==> Answered(next, b)
    ensures Answered(next, b)
  {
    if HasOwed(s, b) {
      var u :| u in s.mail && s.mail[u].batch == b && Owed(s.mail[u]);
      if u != t { assert next.mail[u].batch == b && Owed(next.mail[u]); }
    }
  }

  lemma AdvanceAnswers(db: Db, job: Job, at: Progress, fault: bool)
    requires job.batch in db.batches && (at.phase == Loading || at.phase.AtItem? || at.phase.Marking?)
    ensures var (after, at') := Advance(db, job, at, fault);
            && after.batches.Keys == db.batches.Keys
            && (forall b :: b in db.batches && db.batches[b].status == Completed ==>
                  after.batches[b].status == Completed)
            && (at'.phase == Acking ==> after.batches[job.batch].status == Completed)
            && (at'.phase == Acking || at'.phase == Failing || at'.phase.AtItem? || at'.phase.Marking?)
  {
  }

  lemma WorkAnswers(cfg: Config, s: State, t: Tag, fault: bool, b: BatchId)
    requires AllAnswered(s) && Enabled(cfg, s, Work(t, fault)) && b in s.db.batches
    ensures var next := Worked(s, t, fault); b in next.db.batches && Answered(next, b)
  {
    var next := Worked(s, t, fault);
    AdvanceAnswers(s.db, JobOf(s.db, s.mail[t].batch), s.mail[t].place.at, fault);
    assert Answered(s, b);
    if s.mail[t].batch == b {
      if Owed(next.mail[t]) { assert HasOwed(next, b); }
    }
    AnsweredKept(s, next, t, b);
  }

  lemma MailAnswers(cfg: Config, s: State, a: Action, b: BatchId)
    requires AllAnswered(s) && Enabled(cfg, s, a) && b in s.db.batches
    requires a.Deliver? || a.Republish? || a.Ack? || a.Crash? || a.Redeliver? || a.SettleDead?
    ensures var next := Apply(cfg, s, a); b in next.db.batches && Answered(next, b)
  {
    var next := Apply(cfg, s, a);
    assert Answered(s, b);
    if s.mail[a.tag].batch == b {
      if a.tag in next.mail && Owed(next.mail[a.tag]) { assert HasOwed(next, b); }
      if a.Republish? {
        assert next.mail[a.copy].batch == b && Owed(next.mail[a.copy]);
        assert HasOwed(next, b);
      }
    }
    AnsweredKept(s, next, a.tag, b);
  }

  lemma SubmitAnswers(s: State, db: Db, redis: map<SectionId, int>, sub: Submission, b: BatchId)
    requires AllAnswered(s) && sub.tag !in s.mail && sub.batch !in s.db.batches
    requires sub.batch in db.batches && db.batches == s.db.batches[sub.batch := db.batches[sub.batch]]
    requires b in db.batches
    ensures Answered(Publish(s, db, redis, sub), b)
  {
    var next := Publish(s, db, redis, sub);
    if b == sub.batch {
      if sub.published { assert next.mail[sub.tag].batch == b && Owed(next.mail[sub.tag]); }
    } else {
      assert Answered(s, b);
      if HasOwed(s, b) {
        var u :| u in s.mail && s.mail[u].batch == b && Owed(s.mail[u]);
        assert next.mail[u] == s.mail[u];
      }
    }
  }

  lemma BatchAnswers(cfg: Config, s: State, a: Action, b: BatchId)
    requires AllAnswered(s) && Enabled(cfg, s, a) && b in Apply(cfg, s, a).db.batches
    ensures Answered(Apply(cfg, s, a), b) && b in Apply(cfg, s, a).starts
  {
    var next := Apply(cfg, s, a);
    match a
    case SubmitCreate(sub) =>
      SubmitAnswers(s, next.db, next.redis, sub, b);
      if b != sub.batch { assert Answered(s, b); }
    case SubmitCancel(sub) =>
      SubmitAnswers(s, next.db, next.redis, sub, b);
      if b != sub.batch { assert Answered(s, b); }
    case CacheFill(_) =>
      assert Answered(s, b);
      assert HasOwed(s, b) ==> HasOwed(next, b);
    case Work(t, fault) =>
      AdvanceAnswers(s.db, JobOf(s.db, s.mail[t].batch), s.mail[t].place.at, fault);
      assert Answered(s, b);
      WorkAnswers(cfg, s, t, fault, b);
    case _ =>
      assert Answered(s, b);
      MailAnswers(cfg, s, a, b);
  }

  lemma MailBatchesKnown(cfg: Config, s: State, a: Action, t: Tag)
    requires AllAnswered(s) && Enabled(cfg, s, a) && t in Apply(cfg, s, a).mail
    ensures Apply(cfg, s, a).mail[t].batch in Apply(cfg, s, a).db.batches
  {
    if a.Work? { AdvanceAnswers(s.db, JobOf(s.db, s.mail[a.tag].batch), s.mail[a.tag].place.at, a.fault); }
  }

  lemma StepAnswers(cfg: Config, s: State, a: Action)
    requires AllAnswered(s) && Enabled(cfg, s, a)
    ensures AllAnswered(Apply(cfg, s, a))
  {
    var next := Apply(cfg, s, a);
    forall b | b in next.db.batches ensures Answered(next, b) && b in next.starts { BatchAnswers(cfg, s, a, b); }
    forall t | t in next.mail ensures next.mail[t].batch in next.db.batches { MailBatchesKnown(cfg, s, a, t); }
  }

  // In every state of every run, with crashes anywhere, each accepted batch is
  // COMPLETED, or a copy of its message is still to be worked on, or its publish
  // or its dead-letter transaction failed.
  lemma {:induction false} NoBatchDropped(cfg: Config, states: seq<State>, actions: seq<Action>, n: nat)
    requires Run(cfg, states, actions) && n < |states| && Init(cfg, states[0])
    ensures AllAnswered(states[n])
  {
    if n > 0 {
      NoBatchDropped(cfg, states, actions, n - 1);
      StepAnswers(cfg, states[n - 1], actions[n - 1]);
    }
  }
}
