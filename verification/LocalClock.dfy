// What the registration window means on the clock of Vietnam: seven hours ahead
// of UTC, on Gregorian dates counted by the closed form.
module LocalClock {
  import opened Prelude
  import opened Calendar
  import opened RegistrationWindow

  // Midnight UTC of 1 January 1970, from midnight UTC of 1 January of year 1.
  const UNIX_EPOCH := 62135596800000

  // The instant of a Gregorian date and a time of day at UTC.
  function UtcInstant(c: Civil, hour: nat, minute: nat, rest: nat): int
    requires Valid(c)
  {
    GregorianDays(c.year, c.month, c.day) * 86400000 + hour * 3600000 + minute * 60000 + rest
  }

  lemma EpochDate()
    ensures Printable(Civil(1970, 1, 1)) && UtcInstant(Civil(1970, 1, 1), 0, 0, 0) == UNIX_EPOCH
    ensures DateText(Civil(1970, 1, 1)) == "1970-01-01" && TimeText(420) == "07:00"
  {
    assert Two(19) == "19" && Two(70) == "70" && Two(1) == "01" && Two(7) == "07" && Two(0) == "00";
    assert Four(1970) == "1970";
  }

  // A local date and time is the UTC one of seven hours later.
  lemma ClockReads(t: int, c: Civil, hour: nat, minute: nat, rest: nat)
    requires Printable(c) && hour < 24 && minute < 60 && rest < 60000
    requires t + 7 * 3600000 == UtcInstant(c, hour, minute, rest)
    ensures Covered(t) && LocalParts(t) == LocalDateTimeParts(DateText(c), TimeText(60 * hour + minute))
  {
    LocalTimeOf(t, c, hour, minute, rest);
    DateOfDay(c);
  }

  lemma LocalTimeOf(t: int, c: Civil, hour: nat, minute: nat, rest: nat)
    requires Printable(c) && hour < 24 && minute < 60 && rest < 60000
    requires t + 7 * 3600000 == UtcInstant(c, hour, minute, rest)
    ensures Covered(t) && LocalDay(t) == DayNumber(c) && LocalMinute(t) == 60 * hour + minute
  {
    DayNumberIsGregorian(c);
    PrintableDays(c);
    LocalSplit(t, DayNumber(c), hour, minute, rest);
  }

  lemma LocalSplit(t: int, day: nat, hour: nat, minute: nat, rest: nat)
    requires hour < 24 && minute < 60 && rest < 60000
    requires t + 7 * 3600000 == day * 86400000 + hour * 3600000 + minute * 60000 + rest
    ensures LocalDay(t) == day && LocalMinute(t) == 60 * hour + minute
  {
    var within := hour * 3600000 + minute * 60000 + rest;
    assert t + OFFSET == day * MS_DAY + within && 0 <= within < MS_DAY;
  }

  // At the Unix epoch the local clock shows seven in the morning.
  lemma EpochReads()
    ensures Covered(UNIX_EPOCH) && LocalParts(UNIX_EPOCH) == LocalDateTimeParts("1970-01-01", "07:00")
  {
    EpochDate();
    MorningReads(Civil(1970, 1, 1), UNIX_EPOCH);
  }

  lemma MorningReads(c: Civil, midnight: int)
    requires Printable(c) && UtcInstant(c, 0, 0, 0) == midnight
    ensures Covered(midnight) && LocalParts(midnight) == LocalDateTimeParts(DateText(c), TimeText(420))
  {
    assert UtcInstant(c, 7, 0, 0) == UtcInstant(c, 0, 0, 0) + 7 * 3600000;
    ClockReads(midnight, c, 7, 0, 0);
  }

  // Every instant the window functions accept has such a reading.
  lemma EveryInstantReads(t: int) returns (c: Civil, hour: nat, minute: nat, rest: nat)
    requires Covered(t)
    ensures Printable(c) && hour < 24 && minute < 60 && rest < 60000
    ensures t + 7 * 3600000 == UtcInstant(c, hour, minute, rest)
    ensures LocalParts(t) == LocalDateTimeParts(DateText(c), TimeText(60 * hour + minute))
  {
    c := CivilOf(LocalDay(t));
    PrintableDays(c);
    DayNumberIsGregorian(c);
    hour, minute, rest := TimeWithin(t);
    ClockReads(t, c, hour, minute, rest);
  }

  lemma TimeWithin(t: int) returns (hour: nat, minute: nat, rest: nat)
    ensures hour < 24 && minute < 60 && rest < 60000
    ensures t + 7 * 3600000 == LocalDay(t) * 86400000 + hour * 3600000 + minute * 60000 + rest
  {
    var within := (t + OFFSET) % MS_DAY;
    hour, minute, rest := within / 3600000, within % 3600000 / 60000, within % 60000;
    SplitDay(within);
  }

  lemma SplitDay(within: nat)
    requires within < 86400000
    ensures within / 3600000 < 24 && within % 3600000 / 60000 < 60
    ensures within == within / 3600000 * 3600000 + within % 3600000 / 60000 * 60000 + within % 60000
  {
    assert within % 3600000 % 60000 == within % 60000;
  }

  // A local date and time converted to an instant.
  lemma InstantReads(c: Civil, hour: nat, minute: nat)
    requires Printable(c) && hour < 24 && minute < 60
    ensures IsDateText(DateText(c)) && IsTimeText(TimeText(60 * hour + minute))
    ensures ToInstant(DateText(c), TimeText(60 * hour + minute)) == UtcInstant(c, hour, minute, 0) - 7 * 3600000
  {
    DateWritten(c);
    TimeWritten(60 * hour + minute);
    DayNumberIsGregorian(c);
  }

  // A slot written from dates and minutes of the day.
  function Slot(first: Civil, last: Civil, from: nat, to: nat): SlotWindow
    requires Printable(first) && Printable(last) && from < 1440 && to < 1440
  {
    SlotWindow(DateText(first), DateText(last), TimeText(from), TimeText(to))
  }

  lemma SlotReads(first: Civil, last: Civil, from: nat, to: nat)
    requires Printable(first) && Printable(last) && from < 1440 && to < 1440
    ensures var slot := Slot(first, last, from, to);
            && (WindowOk(slot) <==> !Before(last, first) && from < to)
            && (WindowOk(slot) ==> ReadDate(slot.startDate) == first && ReadDate(slot.endDate) == last
                                   && ReadTime(slot.startTime) == from && ReadTime(slot.endTime) == to)
  {
    DateWritten(first);
    DateWritten(last);
    TimeWritten(from);
    TimeWritten(to);
    DateTextOrder(last, first);
    DatesOrderAsDays(last, first);
    TimeTextOrder(from, to);
  }

  // A slot is active exactly on its dates and from its first to its last minute
  // of the local day.
  lemma ActiveOnTheClock(first: Civil, last: Civil, from: nat, to: nat, t: int, c: Civil, hour: nat, minute: nat,
                         rest: nat)
    requires Printable(first) && Printable(last) && from < to < 1440 && !Before(last, first)
    requires Printable(c) && hour < 24 && minute < 60 && rest < 60000
    requires t + 7 * 3600000 == UtcInstant(c, hour, minute, rest)
    ensures Covered(t)
    ensures IsActiveAt(Slot(first, last, from, to), t) <==>
            !Before(c, first) && !Before(last, c) && from <= 60 * hour + minute <= to
  {
    SlotReads(first, last, from, to);
    LocalTimeOf(t, c, hour, minute, rest);
    ActiveMeaning(Slot(first, last, from, to), t);
    DatesOrderAsDays(c, first);
    DatesOrderAsDays(last, c);
  }

  // Openings and closings lie on the slot's dates, at its first and last minute.
  lemma OpensOnTheClock(slot: SlotWindow, at: int, open: int, close: int) returns (d: Civil)
    requires WindowOk(slot) && CoveredNext(at)
    requires NextOpenAt(slot, at) == Some(open) && EffectiveCloseAt(slot, at) == Some(close)
    ensures Valid(d) && !Before(d, ReadDate(slot.startDate)) && !Before(ReadDate(slot.endDate), d)
    ensures open == UtcInstant(d, 0, ReadTime(slot.startTime), 0) - 7 * 3600000
    ensures close == UtcInstant(d, 0, ReadTime(slot.endTime), 0) - 7 * 3600000
  {
    var day := OpensInside(slot, at);
    d := InstantsOf(slot, day, open, close);
  }

  lemma InstantsOf(slot: SlotWindow, day: nat, open: int, close: int) returns (d: Civil)
    requires WindowOk(slot) && FirstDay(slot) <= day <= LastDay(slot)
    requires OpenOn(slot, day) == open && CloseOn(slot, day) == close
    ensures Valid(d) && !Before(d, ReadDate(slot.startDate)) && !Before(ReadDate(slot.endDate), d)
    ensures open == UtcInstant(d, 0, ReadTime(slot.startTime), 0) - 7 * 3600000
    ensures close == UtcInstant(d, 0, ReadTime(slot.endTime), 0) - 7 * 3600000
  {
    d := DayInSlot(ReadDate(slot.startDate), ReadDate(slot.endDate), day);
    MinuteOfDay(slot, d, day);
  }

  lemma OpensInside(slot: SlotWindow, at: int) returns (day: nat)
    requires WindowOk(slot) && CoveredNext(at) && NextOpenAt(slot, at).Some?
    ensures FirstDay(slot) <= day <= LastDay(slot)
    ensures NextOpenAt(slot, at) == Some(OpenOn(slot, day)) && EffectiveCloseAt(slot, at) == Some(CloseOn(slot, day))
  {
    WindowInNumbers(slot);
    NextOpenMeaning(slot, at);
    CloseMeaning(slot, at);
    day := OpenDay(slot, at).value;
  }

  lemma DayInSlot(first: Civil, last: Civil, day: nat) returns (d: Civil)
    requires Valid(first) && Valid(last) && DayNumber(first) <= day <= DayNumber(last)
    ensures Valid(d) && DayNumber(d) == day && !Before(d, first) && !Before(last, d)
  {
    d := CivilOf(day);
    DatesOrderAsDays(d, first);
    DatesOrderAsDays(last, d);
  }

  lemma MinuteOfDay(slot: SlotWindow, d: Civil, day: nat)
    requires WindowOk(slot) && Valid(d) && DayNumber(d) == day
    ensures OpenOn(slot, day) == UtcInstant(d, 0, ReadTime(slot.startTime), 0) - 7 * 3600000
    ensures CloseOn(slot, day) == UtcInstant(d, 0, ReadTime(slot.endTime), 0) - 7 * 3600000
  {
    DayNumberIsGregorian(d);
  }
}
