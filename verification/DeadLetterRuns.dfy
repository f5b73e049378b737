// Two runs that show what the assumptions about dead letters are needed for.
// Both have one handler per batch at any time: a worker publishes the dead
// letter, dies before its acknowledgement, and the message is delivered again.
// `m` is the number of retries; the batch first fails `m` times.
module DeadLetterRuns {
  import opened Prelude
  import opened Tables
  import opened Admission
  import opened Ledger
  import opened Worker
  import opened Protocol
  import opened Safety
  import opened Seats
  import opened Conservation
  import opened Enrolments
  import opened OneSection

  function Lax(m: nat): Config { OneRowSystem(AnyTime, m) }

  function Partial(m: nat): Config { OneRowSystem(CancelsWait, m) }

  // ---- A seat given back twice ----

  // The cancel of a registration is failed by its dead letter while a redelivered
  // handler of it is live. The student cancels again, and both handlers release.
  function Twice0(): State { Empty() }

  function Twice1(): State { Stored(Twice0(), 0, 0, 0, Taken(0, Pending, None, 0), Asked(0, Waiting), 1) }

  lemma TwiceStep0(m: nat)
    ensures Leads(Lax(m), Twice0(), SubmitCreate(Ask(0, 0, 0)), Twice1())
  {
    AskAccepted(AnyTime, m, Twice0(), 0, 0, 0);
    AskStores(AnyTime, m, Twice0(), 0, 0, 0);
  }

  function Twice2(): State { Started(Twice1(), 0, 0, NEW, 1) }

  lemma TwiceStep1(m: nat)
    ensures Leads(Lax(m), Twice1(), Deliver(0), Twice2())
  {
    Delivers(Lax(m), Twice1(), 0, 0, NEW);
  }

  function Twice3(): State { Placed(Twice2(), 0, 0, NEW, At(0, 0)) }

  lemma TwiceStep2(m: nat)
    ensures Leads(Lax(m), Twice2(), Work(0, false), Twice3())
  {
    Reads(Lax(m), Twice2(), 0, 0);
  }

  function Twice4(): State {
    Placed(Twice3(), 0, 0, NEW, At(1, 0)).(db := Changed(Twice3().db, 4, 0, Taken(0, Success, Some(1), 1)))
  }

  lemma TwiceStep3(m: nat)
    ensures Leads(Lax(m), Twice3(), Work(0, false), Twice4())
  {
    Takes(Lax(m), Twice3(), 0, 0, NEW, 0, 3);
  }

  // The other copies while the retries are used up.
  function TwiceRest(): State { Unsent(Twice4(), 1, 1, Given(1, Pending, None), Returned(1, Waiting), 2) }

  function Twice5(m: nat): State { Wearing(TwiceRest(), 1 + m, 1, 0) }

  lemma TwiceStep4(m: nat)
    ensures Leads(Lax(m), Twice4(), SubmitCancel(Return(1, 1, 1 + m)), Twice5(m))
  {
    ReturnAccepted(AnyTime, m, Twice4(), 1, 1, 1 + m);
    ReturnStores(AnyTime, m, Twice4(), 1, 1, 1 + m);
  }

  function TwiceWorn(m: nat): State { Wearing(TwiceRest(), 1, 1, m) }

  function Twice6(m: nat): State { Started(TwiceWorn(m), 1, 1, Worn(m), m + 1) }

  lemma TwiceStep5(m: nat)
    ensures Leads(Lax(m), TwiceWorn(m), Deliver(1), Twice6(m))
  {
    Delivers(Lax(m), TwiceWorn(m), 1, 1, Worn(m));
  }

  function Twice7(m: nat): State { Placed(Twice6(m), 1, 1, Worn(m), Handling(START.(phase := Failing))) }

  lemma TwiceStep6(m: nat)
    ensures Leads(Lax(m), Twice6(m), Work(1, true), Twice7(m))
  {
  }

  function Twice8(m: nat): State {
    Placed(Placed(Twice7(m), 1, 1, Worn(m), Handling(START.(phase := Republished))), 2, 1, Worn(m), Dead)
  }

  lemma TwiceStep7(m: nat)
    ensures Leads(Lax(m), Twice7(m), Republish(1, 2, 9), Twice8(m))
  {
  }

  function Twice9(m: nat): State { Placed(Twice8(m), 1, 1, Worn(m), Queued) }

  lemma TwiceStep8(m: nat)
    ensures Leads(Lax(m), Twice8(m), Crash(1), Twice9(m))
  {
  }

  function Twice10(m: nat): State { Started(Twice9(m), 1, 1, Worn(m), m + 2) }

  lemma TwiceStep9(m: nat)
    ensures Leads(Lax(m), Twice9(m), Deliver(1), Twice10(m))
  {
    Delivers(Lax(m), Twice9(m), 1, 1, Worn(m));
  }

  function Twice11(m: nat): State { Placed(Twice10(m), 1, 1, Worn(m), At(0, 1)) }

  lemma TwiceStep10(m: nat)
    ensures Leads(Lax(m), Twice10(m), Work(1, false), Twice11(m))
  {
    Reads(Lax(m), Twice10(m), 1, 1);
  }

  function Twice12(m: nat): State {
    Placed(Twice11(m), 2, 1, Worn(m), DeadAcking).(db :=
      Buried(Twice11(m).db, 1, 1, Given(1, Failed, None), Returned(1, Completed)))
  }

  lemma TwiceStep11(m: nat)
    ensures Leads(Lax(m), Twice11(m), SettleDead(2, false), Twice12(m))
  {
    SettlesDead(Lax(m), Twice11(m), 2, 1, Worn(m), 1);
  }

  function Twice13(m: nat): State { Stored(Twice12(m), 2, 2, 3, Given(2, Pending, None), Returned(2, Waiting), 3) }

  lemma TwiceMayReturn12(m: nat)
    ensures MayReturn(Twice12(m).db) && FreshIds(Twice12(m), Return(2, 2, 3), 1)
  {
  }

  lemma TwiceAccepted12(m: nat)
    ensures Rows(Lax(m), Return(2, 2, 3)) == [0]
    ensures Enabled(Lax(m), Twice12(m), SubmitCancel(Return(2, 2, 3)))
  {
    TwiceMayReturn12(m);
    ReturnAccepted(AnyTime, m, Twice12(m), 2, 2, 3);
  }

  lemma TwiceStep12(m: nat)
    ensures Leads(Lax(m), Twice12(m), SubmitCancel(Return(2, 2, 3)), Twice13(m))
  {
    TwiceAccepted12(m);
    ReturnStores(AnyTime, m, Twice12(m), 2, 2, 3);
  }

  function Twice14(m: nat): State { Started(Twice13(m), 3, 2, NEW, 1) }

  lemma TwiceStep13(m: nat)
    ensures Leads(Lax(m), Twice13(m), Deliver(3), Twice14(m))
  {
    Delivers(Lax(m), Twice13(m), 3, 2, NEW);
  }

  function Twice15(m: nat): State { Placed(Twice14(m), 3, 2, NEW, At(0, 2)) }

  lemma TwiceStep14(m: nat)
    ensures Leads(Lax(m), Twice14(m), Work(3, false), Twice15(m))
  {
    Reads(Lax(m), Twice14(m), 3, 2);
  }

  function Twice16(m: nat): State { GivenBack(Twice15(m), 3, 2, NEW, 2, 3, 0) }

  lemma TwiceStep15(m: nat)
    ensures Leads(Lax(m), Twice15(m), Work(3, false), Twice16(m))
  {
    Gives(Lax(m), Twice15(m), 3, 2, NEW, 2, 3, 0, Some(1));
  }

  function Twice17(m: nat): State { GivenBack(Twice16(m), 1, 1, Worn(m), 1, 2, -1) }

  lemma TwiceOwes16(m: nat)
    ensures Owes(Twice16(m), 1, 1, Worn(m), 1, 2, -1, Some(2))
  {
  }

  lemma TwiceStep16(m: nat)
    ensures Leads(Lax(m), Twice16(m), Work(1, false), Twice17(m))
  {
    TwiceOwes16(m);
    Gives(Lax(m), Twice16(m), 1, 1, Worn(m), 1, 2, -1, Some(2));
  }

  lemma TwiceUpto4(m: nat) returns (states: seq<State>, actions: seq<Action>)
    ensures Ends(Lax(m), states, actions, Twice4()) && |actions| == 4
  {
    states, actions := StartRun(AnyTime, m);
    TwiceStep0(m);
    states, actions := Extended(Lax(m), states, actions, Twice0(), SubmitCreate(Ask(0, 0, 0)), Twice1());
    TwiceStep1(m);
    states, actions := Extended(Lax(m), states, actions, Twice1(), Deliver(0), Twice2());
    TwiceStep2(m);
    states, actions := Extended(Lax(m), states, actions, Twice2(), Work(0, false), Twice3());
    TwiceStep3(m);
    states, actions := Extended(Lax(m), states, actions, Twice3(), Work(0, false), Twice4());
  }

  lemma TwiceOthers()
    ensures OtherCopies(TwiceRest(), 1, 1)
  {
  }

  lemma TwiceUpto5(m: nat) returns (states: seq<State>, actions: seq<Action>)
    ensures Ends(Lax(m), states, actions, Twice5(m)) && |actions| == 5
  {
    states, actions := TwiceUpto4(m);
    TwiceStep4(m);
    states, actions := Extended(Lax(m), states, actions, Twice4(), SubmitCancel(Return(1, 1, 1 + m)), Twice5(m));
  }

  lemma TwiceUptoWorn(m: nat) returns (states: seq<State>, actions: seq<Action>)
    ensures Ends(Lax(m), states, actions, TwiceWorn(m)) && |actions| == 4 * m + 5
  {
    states, actions := TwiceUpto5(m);
    TwiceOthers();
    states, actions := WearsOut(Lax(m), states, actions, TwiceRest(), 1 + m, 1, 1, m);
  }

  lemma TwiceUpto8(m: nat) returns (states: seq<State>, actions: seq<Action>)
    ensures Ends(Lax(m), states, actions, Twice8(m)) && |actions| == 4 * m + 8
  {
    states, actions := TwiceUptoWorn(m);
    TwiceStep5(m);
    states, actions := Extended(Lax(m), states, actions, TwiceWorn(m), Deliver(1), Twice6(m));
    TwiceStep6(m);
    states, actions := Extended(Lax(m), states, actions, Twice6(m), Work(1, true), Twice7(m));
    TwiceStep7(m);
    states, actions := Extended(Lax(m), states, actions, Twice7(m), Republish(1, 2, 9), Twice8(m));
  }

  lemma TwiceUpto12(m: nat) returns (states: seq<State>, actions: seq<Action>)
    ensures Ends(Lax(m), states, actions, Twice12(m)) && |actions| == 4 * m + 12
  {
    states, actions := TwiceUpto8(m);
    TwiceStep8(m);
    states, actions := Extended(Lax(m), states, actions, Twice8(m), Crash(1), Twice9(m));
    TwiceStep9(m);
    states, actions := Extended(Lax(m), states, actions, Twice9(m), Deliver(1), Twice10(m));
    TwiceStep10(m);
    states, actions := Extended(Lax(m), states, actions, Twice10(m), Work(1, false), Twice11(m));
    TwiceStep11(m);
    states, actions := Extended(Lax(m), states, actions, Twice11(m), SettleDead(2, false), Twice12(m));
  }

  lemma TwiceUpto16(m: nat) returns (states: seq<State>, actions: seq<Action>)
    ensures Ends(Lax(m), states, actions, Twice16(m)) && |actions| == 4 * m + 16
  {
    states, actions := TwiceUpto12(m);
    TwiceStep12(m);
    states, actions := Extended(Lax(m), states, actions, Twice12(m), SubmitCancel(Return(2, 2, 3)),
      Twice13(m));
    TwiceStep13(m);
    states, actions := Extended(Lax(m), states, actions, Twice13(m), Deliver(3), Twice14(m));
    TwiceStep14(m);
    states, actions := Extended(Lax(m), states, actions, Twice14(m), Work(3, false), Twice15(m));
    TwiceStep15(m);
    states, actions := Extended(Lax(m), states, actions, Twice15(m), Work(3, false), Twice16(m));
  }

  lemma TwiceRun(m: nat) returns (states: seq<State>, actions: seq<Action>)
    ensures Ends(Lax(m), states, actions, Twice17(m)) && |actions| == 4 * m + 17
    ensures states[4 * m + 16] == Twice16(m) && actions[4 * m + 16] == Work(1, false)
  {
    states, actions := TwiceUpto16(m);
    TwiceStep16(m);
    states, actions := Extended(Lax(m), states, actions, Twice16(m), Work(1, false), Twice17(m));
  }

  // Without any rule for dead letters seats are not conserved: at the last step
  // the second handler gives back a seat that its source no longer holds.
  lemma SeatGivenBackTwice(m: nat) returns (states: seq<State>, actions: seq<Action>)
    ensures Run(Lax(m), states, actions) && Init(Lax(m), states[0]) && |actions| == 4 * m + 17
    ensures Level(3, states[4 * m + 16].db, 0) && !Seated(3, states[4 * m + 17].db, 0)
    ensures Upsets(states[4 * m + 16], actions[4 * m + 16], 0) && Unseats(3, states[4 * m + 16], actions[4 * m + 16], 0)
    ensures states[4 * m + 17].db.seats[0].slDk == 2 && Registered(states[4 * m + 17].db, 0) == 0
  {
    TwiceBefore(m);
    TwiceUpsets(m);
    TwiceAfter(m);
    states, actions := TwiceRun(m);
    TwiceUnseats(m);
  }

  lemma TwiceBefore(m: nat)
    ensures Level(3, Twice16(m).db, 0)
  {
    TallyZero(Twice16(m).db.items, SuccessOn(0));
  }

  lemma TwiceUpsets(m: nat)
    ensures Upsets(Twice16(m), Work(1, false), 0)
  {
  }

  lemma TwiceUnseats(m: nat)
    ensures Unseats(3, Twice16(m), Work(1, false), 0)
  {
    TwiceBefore(m);
    TwiceUpsets(m);
  }

  lemma TwiceAfter(m: nat)
    ensures Twice17(m).db.seats[0].slDk == 2 && Registered(Twice17(m).db, 0) == 0
    ensures !Seated(3, Twice17(m).db, 0)
  {
    TallyZero(Twice17(m).db.items, SuccessOn(0));
  }

  // ---- A failed request that comes back ----

  // A CREATE request is failed by its dead letter while a redelivered handler of
  // it is live. The student asks again, and the handler revives the first request.
  function Revival0(): State { Empty() }

  function RevivalRest(): State { Unsent(Revival0(), 0, 0, Taken(0, Pending, None, 0), Asked(0, Waiting), 1) }

  function Revival1(m: nat): State { Wearing(RevivalRest(), m, 0, 0) }

  lemma RevivalStep0(m: nat)
    ensures Leads(Partial(m), Revival0(), SubmitCreate(Ask(0, 0, m)), Revival1(m))
  {
    AskAccepted(CancelsWait, m, Revival0(), 0, 0, m);
    AskStores(CancelsWait, m, Revival0(), 0, 0, m);
  }

  function RevivalWorn(m: nat): State { Wearing(RevivalRest(), 0, 0, m) }

  function Revival2(m: nat): State { Started(RevivalWorn(m), 0, 0, Worn(m), m + 1) }

  lemma RevivalStep1(m: nat)
    ensures Leads(Partial(m), RevivalWorn(m), Deliver(0), Revival2(m))
  {
    Delivers(Partial(m), RevivalWorn(m), 0, 0, Worn(m));
  }

  function Revival3(m: nat): State { Placed(Revival2(m), 0, 0, Worn(m), Handling(START.(phase := Failing))) }

  lemma RevivalStep2(m: nat)
    ensures Leads(Partial(m), Revival2(m), Work(0, true), Revival3(m))
  {
  }

  function Revival4(m: nat): State {
    Placed(Placed(Revival3(m), 0, 0, Worn(m), Handling(START.(phase := Republished))), 1, 0, Worn(m), Dead)
  }

  lemma RevivalStep3(m: nat)
    ensures Leads(Partial(m), Revival3(m), Republish(0, 1, 9), Revival4(m))
  {
  }

  function Revival5(m: nat): State { Placed(Revival4(m), 0, 0, Worn(m), Queued) }

  lemma RevivalStep4(m: nat)
    ensures Leads(Partial(m), Revival4(m), Crash(0), Revival5(m))
  {
  }

  function Revival6(m: nat): State { Started(Revival5(m), 0, 0, Worn(m), m + 2) }

  lemma RevivalStep5(m: nat)
    ensures Leads(Partial(m), Revival5(m), Deliver(0), Revival6(m))
  {
    Delivers(Partial(m), Revival5(m), 0, 0, Worn(m));
  }

  function Revival7(m: nat): State { Placed(Revival6(m), 0, 0, Worn(m), At(0, 0)) }

  lemma RevivalStep6(m: nat)
    ensures Leads(Partial(m), Revival6(m), Work(0, false), Revival7(m))
  {
    Reads(Partial(m), Revival6(m), 0, 0);
  }

  function Revival8(m: nat): State {
    Placed(Revival7(m), 1, 0, Worn(m), DeadAcking).(db :=
      Buried(Revival7(m).db, 0, 0, Taken(0, Failed, None, 0), Asked(0, Completed)))
  }

  lemma RevivalStep7(m: nat)
    ensures Leads(Partial(m), Revival7(m), SettleDead(1, false), Revival8(m))
  {
    SettlesDead(Partial(m), Revival7(m), 1, 0, Worn(m), 0);
  }

  function Revival9(m: nat): State { Stored(Revival8(m), 1, 1, 2, Taken(1, Pending, None, 0), Asked(1, Waiting), 0) }

  lemma RevivalStep8(m: nat)
    ensures Leads(Partial(m), Revival8(m), SubmitCreate(Ask(1, 1, 2)), Revival9(m))
  {
    AskAccepted(CancelsWait, m, Revival8(m), 1, 1, 2);
    AskStores(CancelsWait, m, Revival8(m), 1, 1, 2);
  }

  function Revival10(m: nat): State {
    Placed(Revival9(m), 0, 0, Worn(m), At(1, 0)).(db := Changed(Revival9(m).db, 4, 0, Taken(0, Success, Some(1), 1)))
  }

  lemma RevivalStep9(m: nat)
    ensures Leads(Partial(m), Revival9(m), Work(0, false), Revival10(m))
  {
    Takes(Partial(m), Revival9(m), 0, 0, Worn(m), 0, 3);
  }

  lemma RevivalOthers()
    ensures OtherCopies(RevivalRest(), 0, 0)
  {
  }

  lemma RevivalUpto1(m: nat) returns (states: seq<State>, actions: seq<Action>)
    ensures Ends(Partial(m), states, actions, Revival1(m)) && |actions| == 1
  {
    states, actions := StartRun(CancelsWait, m);
    RevivalStep0(m);
    states, actions := Extended(Partial(m), states, actions, Revival0(), SubmitCreate(Ask(0, 0, m)), Revival1(m));
  }

  lemma RevivalUptoWorn(m: nat) returns (states: seq<State>, actions: seq<Action>)
    ensures Ends(Partial(m), states, actions, RevivalWorn(m)) && |actions| == 4 * m + 1
  {
    states, actions := RevivalUpto1(m);
    RevivalOthers();
    states, actions := WearsOut(Partial(m), states, actions, RevivalRest(), m, 0, 0, m);
  }

  lemma RevivalUpto4(m: nat) returns (states: seq<State>, actions: seq<Action>)
    ensures Ends(Partial(m), states, actions, Revival4(m)) && |actions| == 4 * m + 4
  {
    states, actions := RevivalUptoWorn(m);
    RevivalStep1(m);
    states, actions := Extended(Partial(m), states, actions, RevivalWorn(m), Deliver(0), Revival2(m));
    RevivalStep2(m);
    states, actions := Extended(Partial(m), states, actions, Revival2(m), Work(0, true), Revival3(m));
    RevivalStep3(m);
    states, actions := Extended(Partial(m), states, actions, Revival3(m), Republish(0, 1, 9), Revival4(m));
  }

  lemma RevivalUpto8(m: nat) returns (states: seq<State>, actions: seq<Action>)
    ensures Ends(Partial(m), states, actions, Revival8(m)) && |actions| == 4 * m + 8
  {
    states, actions := RevivalUpto4(m);
    RevivalStep4(m);
    states, actions := Extended(Partial(m), states, actions, Revival4(m), Crash(0), Revival5(m));
    RevivalStep5(m);
    states, actions := Extended(Partial(m), states, actions, Revival5(m), Deliver(0), Revival6(m));
    RevivalStep6(m);
    states, actions := Extended(Partial(m), states, actions, Revival6(m), Work(0, false), Revival7(m));
    RevivalStep7(m);
    states, actions := Extended(Partial(m), states, actions, Revival7(m), SettleDead(1, false),
      Revival8(m));
  }

  lemma RevivalUpto9(m: nat) returns (states: seq<State>, actions: seq<Action>)
    ensures Ends(Partial(m), states, actions, Revival9(m)) && |actions| == 4 * m + 9
  {
    states, actions := RevivalUpto8(m);
    RevivalStep8(m);
    states, actions := Extended(Partial(m), states, actions, Revival8(m), SubmitCreate(Ask(1, 1, 2)),
      Revival9(m));
  }

  lemma RevivalRun(m: nat) returns (states: seq<State>, actions: seq<Action>)
    ensures Ends(Partial(m), states, actions, Revival10(m)) && |actions| == 4 * m + 10
    ensures states[4 * m + 9] == Revival9(m) && actions[4 * m + 9] == Work(0, false)
  {
    states, actions := RevivalUpto9(m);
    RevivalStep9(m);
    states, actions := Extended(Partial(m), states, actions, Revival9(m), Work(0, false), Revival10(m));
  }

  // With the rule on CANCEL batches only, seats are conserved but a student may
  // end up with one course from two batches: the last step revives a request
  // that was answered FAILED.
  lemma RevivedUnlawful(m: nat) returns (states: seq<State>, actions: seq<Action>)
    ensures Run(Partial(m), states, actions) && Init(Partial(m), states[0]) && |actions| == 4 * m + 10
    ensures Lawful(CATALOG, 20, Held(states[4 * m + 9].db, 7, "S"))
    ensures Breaks(Partial(m), states[4 * m + 9], actions[4 * m + 9], 7, "S", 0)
    ensures !Lawful(CATALOG, 20, Held(states[4 * m + 10].db, 7, "S"))
  {
    HeldBeforeRevival(m);
    HeldAfterRevival(m);
    states, actions := RevivalRun(m);
    ShapedHolds(Partial(m), states, actions, 4 * m + 9);
    RevivalAdds(Partial(m), states[4 * m + 9], actions[4 * m + 9], 7, "S", 0);
  }

  lemma HeldAfterRevival(m: nat)
    ensures OwnItem(Revival9(m).db, 7, "S", 0) && Revives(Revival9(m), Work(0, false), 0)
    ensures !Lawful(CATALOG, 20, Held(Revival10(m).db, 7, "S"))
  {
    var held := Held(Revival10(m).db, 7, "S");
    assert HeldItem(Revival10(m).db, 7, "S", 0) && HeldItem(Revival10(m).db, 7, "S", 1);
    assert Enrolment(0, 0) in held && Enrolment(1, 0) in held;
  }

  lemma OnlySecondHeld(m: nat)
    ensures Held(Revival9(m).db, 7, "S") == {Enrolment(1, 0)}
  {
    assert HeldItem(Revival9(m).db, 7, "S", 1) && !HeldItem(Revival9(m).db, 7, "S", 0);
  }

  lemma OneEnrolmentLawful()
    ensures Lawful(CATALOG, 20, {Enrolment(1, 0)})
  {
    assert HeldCourses(CATALOG, {Enrolment(1, 0)}) == {0};
    OneCourse();
  }

  lemma HeldBeforeRevival(m: nat)
    ensures Lawful(CATALOG, 20, Held(Revival9(m).db, 7, "S"))
  {
    OnlySecondHeld(m);
    OneEnrolmentLawful();
  }
}
