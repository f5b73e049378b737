// The daily registration window of a slot: active test, next opening,
// effective close. Dates and times are the strings of the source, compared as
// strings; instants are milliseconds, and local time is +07:00.
module RegistrationWindow {
  import opened Prelude
  import opened Calendar

  const MS_MINUTE := 60000
  const MS_DAY := 86400000
  const OFFSET := 25200000   // +07:00

  datatype SlotWindow = SlotWindow(startDate: string, endDate: string, startTime: string, endTime: string)

  datatype LocalDateTimeParts = LocalDateTimeParts(date: string, time: string)

  // ---- Instants ----

  // Instants count milliseconds from midnight UTC of 1 January of year 1; the
  // Unix epoch is a fixed distance later.
  function LocalDay(t: int): int { (t + OFFSET) / MS_DAY }

  function LocalMinute(t: int): (m: nat)
    ensures m < 1440
  {
    ((t + OFFSET) % MS_DAY) / MS_MINUTE
  }

  // The local date has a four-digit year.
  predicate Covered(t: int) { FIRST_PRINTABLE <= LocalDay(t) <= LAST_PRINTABLE }

  function LocalParts(t: int): LocalDateTimeParts
    requires Covered(t)
  {
    PrintableDays(CivilOf(LocalDay(t)));
    LocalDateTimeParts(DateText(CivilOf(LocalDay(t))), TimeText(LocalMinute(t)))
  }

  // The instant of a local date and time, seven hours ahead of UTC.
  function ToInstant(date: string, time: string): int
    requires IsDateText(date) && IsTimeText(time)
  {
    DayNumber(ReadDate(date)) * MS_DAY + ReadTime(time) * MS_MINUTE - OFFSET
  }

  // getUTCDate and setUTCDate: the day of the month, which may be set beyond its end.
  function GetUtcDate(t: int): nat
    requires 0 <= t
  {
    CivilOf(t / MS_DAY).day
  }

  function SetUtcDate(t: int, day: nat): int
    requires 0 <= t
  {
    var c := CivilOf(t / MS_DAY);
    (DayNumber(Civil(c.year, c.month, 1)) + day - 1) * MS_DAY + t % MS_DAY
  }

  // Overflowing the day of the month moves by whole days, over month and year ends.
  lemma SetUtcDateAdds(t: int, days: nat)
    requires 0 <= t
    ensures SetUtcDate(t, GetUtcDate(t) + days) == t + days * MS_DAY
  {
    var c := CivilOf(t / MS_DAY);
    assert DayNumber(c) == DayNumber(Civil(c.year, c.month, 1)) + c.day - 1;
  }

  // The local midnight of a date, a day's number of days further on.
  function Shifted(date: string, days: nat): int
    requires IsDateText(date)
  {
    DatePrintable(date);
    var value := ToInstant(date, "00:00");
    SetUtcDate(value, GetUtcDate(value) + days)
  }

  function AddLocalDays(date: string, days: nat): string
    requires IsDateText(date) && Covered(Shifted(date, days))
  {
    LocalParts(Shifted(date, days)).date
  }

  lemma DatePrintable(date: string)
    requires IsDateText(date)
    ensures FIRST_PRINTABLE <= DayNumber(ReadDate(date)) <= LAST_PRINTABLE
  {
    PrintableDays(ReadDate(date));
  }

  lemma ShiftedDay(date: string, days: nat)
    requires IsDateText(date)
    ensures LocalDay(Shifted(date, days)) == DayNumber(ReadDate(date)) + days
  {
    DatePrintable(date);
    SetUtcDateAdds(ToInstant(date, "00:00"), days);
    assert ReadTime("00:00") == 0;
    assert Shifted(date, days) + OFFSET == (DayNumber(ReadDate(date)) + days) * MS_DAY;
  }

  // Local parts name the instant's day and minute.
  lemma PartsRead(t: int)
    requires Covered(t)
    ensures IsDateText(LocalParts(t).date) && DayNumber(ReadDate(LocalParts(t).date)) == LocalDay(t)
    ensures IsTimeText(LocalParts(t).time) && ReadTime(LocalParts(t).time) == LocalMinute(t)
  {
    PrintableDays(CivilOf(LocalDay(t)));
    DateWritten(CivilOf(LocalDay(t)));
    TimeWritten(LocalMinute(t));
  }

  lemma OneDayOn(c: Civil)
    requires Printable(c) && Printable(NextDay(c))
    ensures IsDateText(DateText(c)) && LocalDay(Shifted(DateText(c), 1)) == DayNumber(NextDay(c))
  {
    DateWritten(c);
    ShiftedDay(DateText(c), 1);
    NextDayNumber(c);
  }

  // Adding one day gives the successor date, up to the last four-digit date.
  lemma AddOneDay(c: Civil)
    requires Printable(c) && Printable(NextDay(c))
    ensures IsDateText(DateText(c)) && Covered(Shifted(DateText(c), 1))
    ensures AddLocalDays(DateText(c), 1) == DateText(NextDay(c))
  {
    OneDayOn(c);
    PrintableDays(NextDay(c));
    DateOfDay(NextDay(c));
  }

  // ---- The window functions ----

  predicate AtLeast(s: string, t: string) { !LexLess(s, t) }

  // What assertValidSlotRange and the request format leave: real dates and
  // times, startDate <= endDate and startTime < endTime as strings.
  predicate WindowOk(slot: SlotWindow) {
    && IsDateText(slot.startDate) && IsDateText(slot.endDate) && IsTimeText(slot.startTime) && IsTimeText(slot.endTime)
    && AtLeast(slot.endDate, slot.startDate) && LexLess(slot.startTime, slot.endTime)
  }

  predicate IsActiveAt(slot: SlotWindow, at: int)
    requires Covered(at)
  {
    var parts := LocalParts(at);
    && AtLeast(parts.date, slot.startDate) && AtLeast(slot.endDate, parts.date)
    && AtLeast(parts.time, slot.startTime) && AtLeast(slot.endTime, parts.time)
  }

  // The day after `at` also has a four-digit year.
  predicate CoveredNext(at: int) { FIRST_PRINTABLE <= LocalDay(at) < LAST_PRINTABLE }

  lemma NextIsCovered(at: int)
    requires CoveredNext(at)
    ensures IsDateText(LocalParts(at).date) && Covered(Shifted(LocalParts(at).date, 1))
  {
    PartsRead(at);
    ShiftedDay(LocalParts(at).date, 1);
  }

  function NextOpenAt(slot: SlotWindow, at: int): Option<int>
    requires WindowOk(slot) && CoveredNext(at)
  {
    NextIsCovered(at);
    var parts := LocalParts(at);
    if LexLess(parts.date, slot.startDate) then Some(ToInstant(slot.startDate, slot.startTime))
    else if LexLess(slot.endDate, parts.date) then None
    else if LexLess(parts.time, slot.startTime) then Some(ToInstant(parts.date, slot.startTime))
    else if AtLeast(slot.endTime, parts.time) then Some(ToInstant(parts.date, slot.startTime))
    else OpensTomorrow(slot, parts.date)
  }

  function OpensTomorrow(slot: SlotWindow, date: string): Option<int>
    requires WindowOk(slot) && IsDateText(date) && Covered(Shifted(date, 1))
  {
    var nextDate := AddLocalDays(date, 1);
    ShiftedIsDate(date, 1);
    if AtLeast(slot.endDate, nextDate) then Some(ToInstant(nextDate, slot.startTime)) else None
  }

  lemma ShiftedIsDate(date: string, days: nat)
    requires IsDateText(date) && Covered(Shifted(date, days))
    ensures IsDateText(AddLocalDays(date, days))
            && DayNumber(ReadDate(AddLocalDays(date, days))) == DayNumber(ReadDate(date)) + days
  {
    ShiftedDay(date, days);
    PartsRead(Shifted(date, days));
  }

  function EffectiveCloseAt(slot: SlotWindow, at: int): Option<int>
    requires WindowOk(slot) && CoveredNext(at)
  {
    NextOpenCovered(slot, at);
    match NextOpenAt(slot, at)
    case None => None
    case Some(open) =>
      PartsRead(open);
      Some(ToInstant(LocalParts(open).date, slot.endTime))
  }

  predicate IsOutsideCurrentWindow(slot: SlotWindow, at: int)
    requires Covered(at)
  {
    if IsActiveAt(slot, at) then false
    else
      var parts := LocalParts(at);
      if LexLess(parts.date, slot.startDate) then false
      else if LexLess(slot.endDate, parts.date) then true
      else LexLess(slot.endTime, parts.time)
  }

  // ---- The same in days and minutes ----

  function FirstDay(slot: SlotWindow): nat
    requires IsDateText(slot.startDate)
  {
    DayNumber(ReadDate(slot.startDate))
  }

  function LastDay(slot: SlotWindow): nat
    requires IsDateText(slot.endDate)
  {
    DayNumber(ReadDate(slot.endDate))
  }

  lemma WindowInNumbers(slot: SlotWindow)
    requires WindowOk(slot)
    ensures FirstDay(slot) <= LastDay(slot)
    ensures ReadTime(slot.startTime) < ReadTime(slot.endTime)
  {
    DateRead(slot.startDate);
    DateRead(slot.endDate);
    TimeRead(slot.startTime);
    TimeRead(slot.endTime);
    DateTextOrder(ReadDate(slot.endDate), ReadDate(slot.startDate));
    TimeTextOrder(ReadTime(slot.startTime), ReadTime(slot.endTime));
  }

  // String comparisons of local parts are comparisons of days and minutes.
  lemma DateAgainst(at: int, date: string)
    requires Covered(at) && IsDateText(date)
    ensures LexLess(LocalParts(at).date, date) <==> LocalDay(at) < DayNumber(ReadDate(date))
    ensures LexLess(date, LocalParts(at).date) <==> DayNumber(ReadDate(date)) < LocalDay(at)
  {
    DateRead(date);
    PrintableDays(CivilOf(LocalDay(at)));
    DateTextOrder(CivilOf(LocalDay(at)), ReadDate(date));
    DateTextOrder(ReadDate(date), CivilOf(LocalDay(at)));
  }

  lemma TimeAgainst(at: int, time: string)
    requires Covered(at) && IsTimeText(time)
    ensures LexLess(LocalParts(at).time, time) <==> LocalMinute(at) < ReadTime(time)
    ensures LexLess(time, LocalParts(at).time) <==> ReadTime(time) < LocalMinute(at)
  {
    TimeRead(time);
    TimeTextOrder(LocalMinute(at), ReadTime(time));
    TimeTextOrder(ReadTime(time), LocalMinute(at));
  }

  predicate InWindow(slot: SlotWindow, at: int)
    requires WindowOk(slot)
  {
    FirstDay(slot) <= LocalDay(at) <= LastDay(slot)
    && ReadTime(slot.startTime) <= LocalMinute(at) <= ReadTime(slot.endTime)
  }

  lemma ActiveMeaning(slot: SlotWindow, at: int)
    requires WindowOk(slot) && Covered(at)
    ensures IsActiveAt(slot, at) <==> InWindow(slot, at)
  {
    DateAgainst(at, slot.startDate);
    DateAgainst(at, slot.endDate);
    TimeAgainst(at, slot.startTime);
    TimeAgainst(at, slot.endTime);
  }

  // The opening of the window on one day.
  function OpenOn(slot: SlotWindow, day: nat): int
    requires IsTimeText(slot.startTime)
  {
    day * MS_DAY + ReadTime(slot.startTime) * MS_MINUTE - OFFSET
  }

  lemma OpenOnParts(slot: SlotWindow, day: nat)
    requires IsTimeText(slot.startTime)
    ensures LocalDay(OpenOn(slot, day)) == day && LocalMinute(OpenOn(slot, day)) == ReadTime(slot.startTime)
  {
    assert OpenOn(slot, day) + OFFSET == day * MS_DAY + ReadTime(slot.startTime) * MS_MINUTE;
  }

  // The day on which the window opens next, if there is one.
  function OpenDay(slot: SlotWindow, at: int): Option<nat>
    requires WindowOk(slot) && Covered(at)
  {
    var d := LocalDay(at);
    if d < FirstDay(slot) then Some(FirstDay(slot))
    else if d > LastDay(slot) then None
    else if LocalMinute(at) <= ReadTime(slot.endTime) then Some(d)
    else if d + 1 <= LastDay(slot) then Some(d + 1)
    else None
  }

  lemma TodayInstant(slot: SlotWindow, at: int)
    requires WindowOk(slot) && Covered(at)
    ensures IsDateText(LocalParts(at).date) && DayNumber(ReadDate(LocalParts(at).date)) == LocalDay(at)
    ensures ToInstant(LocalParts(at).date, slot.startTime) == OpenOn(slot, LocalDay(at))
  {
    PartsRead(at);
  }

  lemma TomorrowInstant(slot: SlotWindow, date: string)
    requires WindowOk(slot) && IsDateText(date) && Covered(Shifted(date, 1))
    ensures OpensTomorrow(slot, date).Some? <==> DayNumber(ReadDate(date)) + 1 <= LastDay(slot)
    ensures OpensTomorrow(slot, date).Some? ==>
              OpensTomorrow(slot, date).value == OpenOn(slot, DayNumber(ReadDate(date)) + 1)
  {
    ShiftedIsDate(date, 1);
    ShiftedDay(date, 1);
    DateAgainst(Shifted(date, 1), slot.endDate);
  }

  lemma NextOpenMeaning(slot: SlotWindow, at: int)
    requires WindowOk(slot) && CoveredNext(at)
    ensures NextOpenAt(slot, at).Some? <==> OpenDay(slot, at).Some?
    ensures NextOpenAt(slot, at).Some? ==> NextOpenAt(slot, at).value == OpenOn(slot, OpenDay(slot, at).value)
  {
    WindowInNumbers(slot);
    if LocalDay(at) < FirstDay(slot) || LocalDay(at) > LastDay(slot) {
      OutsideDays(slot, at);
    } else if LocalMinute(at) <= ReadTime(slot.endTime) {
      OnADay(slot, at);
    } else {
      AfterClose(slot, at);
      PartsRead(at);
      TomorrowInstant(slot, LocalParts(at).date);
    }
  }

  lemma OutsideDays(slot: SlotWindow, at: int)
    requires WindowOk(slot) && CoveredNext(at) && (LocalDay(at) < FirstDay(slot) || LocalDay(at) > LastDay(slot))
    ensures NextOpenAt(slot, at).Some? <==> LocalDay(at) < FirstDay(slot)
    ensures NextOpenAt(slot, at).Some? ==> NextOpenAt(slot, at).value == OpenOn(slot, FirstDay(slot))
  {
    DateAgainst(at, slot.startDate);
    DateAgainst(at, slot.endDate);
    WindowInNumbers(slot);
  }

  lemma OnADay(slot: SlotWindow, at: int)
    requires WindowOk(slot) && CoveredNext(at) && FirstDay(slot) <= LocalDay(at) <= LastDay(slot)
    requires LocalMinute(at) <= ReadTime(slot.endTime)
    ensures NextOpenAt(slot, at).Some? && NextOpenAt(slot, at).value == OpenOn(slot, LocalDay(at))
  {
    DateAgainst(at, slot.startDate);
    DateAgainst(at, slot.endDate);
    TimeAgainst(at, slot.endTime);
    TodayInstant(slot, at);
  }

  lemma AfterClose(slot: SlotWindow, at: int)
    requires WindowOk(slot) && CoveredNext(at) && FirstDay(slot) <= LocalDay(at) <= LastDay(slot)
    requires LocalMinute(at) > ReadTime(slot.endTime)
    ensures IsDateText(LocalParts(at).date) && Covered(Shifted(LocalParts(at).date, 1))
    ensures NextOpenAt(slot, at) == OpensTomorrow(slot, LocalParts(at).date)
  {
    DateAgainst(at, slot.startDate);
    DateAgainst(at, slot.endDate);
    TimeAgainst(at, slot.startTime);
    TimeAgainst(at, slot.endTime);
    WindowInNumbers(slot);
    NextIsCovered(at);
  }

  lemma OpenDayPrintable(slot: SlotWindow, at: int)
    requires WindowOk(slot) && CoveredNext(at) && OpenDay(slot, at).Some?
    ensures FIRST_PRINTABLE <= OpenDay(slot, at).value <= LAST_PRINTABLE
  {
    DatePrintable(slot.startDate);
  }

  lemma NextOpenCovered(slot: SlotWindow, at: int)
    requires WindowOk(slot) && CoveredNext(at)
    ensures NextOpenAt(slot, at).Some? ==> Covered(NextOpenAt(slot, at).value)
  {
    NextOpenMeaning(slot, at);
    if NextOpenAt(slot, at).Some? {
      OpenOnParts(slot, OpenDay(slot, at).value);
      OpenDayPrintable(slot, at);
    }
  }

  // ---- Next opening is exact ----

  lemma Later(t: int, u: int)
    requires t <= u
    ensures LocalDay(t) < LocalDay(u) || (LocalDay(t) == LocalDay(u) && LocalMinute(t) <= LocalMinute(u))
  {
  }

  // Between two instants of four-digit years every instant has one.
  lemma CoveredBetween(t: int, u: int, v: int)
    requires Covered(t) && Covered(v) && t <= u <= v
    ensures Covered(u)
  {
  }

  // Null exactly when nothing is active from `at` on.
  lemma NoOpeningLeft(slot: SlotWindow, at: int)
    requires WindowOk(slot) && CoveredNext(at)
    ensures NextOpenAt(slot, at).None? <==> forall u :: u >= at && Covered(u) ==> !IsActiveAt(slot, u)
  {
    NextOpenMeaning(slot, at);
    if NextOpenAt(slot, at).None? {
      forall u | u >= at && Covered(u) ensures !IsActiveAt(slot, u) {
        ActiveMeaning(slot, u);
        Later(at, u);
      }
    } else {
      var u := ActiveLater(slot, at);
    }
  }

  // Some instant from `at` on is active: `at` itself, or the next opening.
  lemma ActiveLater(slot: SlotWindow, at: int) returns (u: int)
    requires WindowOk(slot) && CoveredNext(at) && NextOpenAt(slot, at).Some?
    ensures u >= at && Covered(u) && IsActiveAt(slot, u)
  {
    ActiveMeaning(slot, at);
    if IsActiveAt(slot, at) {
      u := at;
    } else {
      OpeningAhead(slot, at);
      u := NextOpenAt(slot, at).value;
    }
  }

  // An inactive instant's next opening lies ahead and is active.
  lemma OpeningAhead(slot: SlotWindow, at: int)
    requires WindowOk(slot) && CoveredNext(at) && NextOpenAt(slot, at).Some? && !IsActiveAt(slot, at)
    ensures var open := NextOpenAt(slot, at).value; open > at && Covered(open) && IsActiveAt(slot, open)
  {
    var open := NextOpenAt(slot, at).value;
    NextOpenMeaning(slot, at);
    NextOpenCovered(slot, at);
    WindowInNumbers(slot);
    ActiveMeaning(slot, at);
    ActiveMeaning(slot, open);
    OpenOnParts(slot, OpenDay(slot, at).value);
    if open <= at { Later(open, at); }
  }

  // ... and nothing in between is.
  lemma NothingBetween(slot: SlotWindow, at: int, u: int)
    requires WindowOk(slot) && CoveredNext(at) && NextOpenAt(slot, at).Some? && !IsActiveAt(slot, at)
    requires at <= u < NextOpenAt(slot, at).value
    ensures Covered(u) && !IsActiveAt(slot, u)
  {
    var open := NextOpenAt(slot, at).value;
    NextOpenMeaning(slot, at);
    NextOpenCovered(slot, at);
    OpenOnParts(slot, OpenDay(slot, at).value);
    CoveredBetween(at, u, open);
    ActiveMeaning(slot, at);
    ActiveMeaning(slot, u);
    Later(at, u);
    Later(u, open);
    NotYetOpen(slot, OpenDay(slot, at).value, u);
  }

  // On its day nothing in the window comes before the opening.
  lemma OpeningFirst(slot: SlotWindow, day: nat, u: int)
    requires IsTimeText(slot.startTime) && LocalDay(u) == day && ReadTime(slot.startTime) <= LocalMinute(u)
    ensures OpenOn(slot, day) <= u
  {
  }

  lemma NotYetOpen(slot: SlotWindow, day: nat, u: int)
    requires IsTimeText(slot.startTime) && u < OpenOn(slot, day)
    ensures LocalDay(u) == day ==> LocalMinute(u) < ReadTime(slot.startTime)
  {
  }

  // The next opening, in one statement.
  lemma NextOpenExact(slot: SlotWindow, at: int)
    requires WindowOk(slot) && CoveredNext(at)
    ensures NextOpenAt(slot, at).None? <==> forall u :: u >= at && Covered(u) ==> !IsActiveAt(slot, u)
    ensures NextOpenAt(slot, at).Some? && !IsActiveAt(slot, at) ==>
      var open := NextOpenAt(slot, at).value;
      open > at && Covered(open) && IsActiveAt(slot, open)
      && forall u :: at <= u < open ==> Covered(u) && !IsActiveAt(slot, u)
    ensures IsActiveAt(slot, at) ==>
      NextOpenAt(slot, at).Some? && NextOpenAt(slot, at).value <= at
      && Covered(NextOpenAt(slot, at).value)
      && LocalParts(NextOpenAt(slot, at).value) == LocalDateTimeParts(LocalParts(at).date, slot.startTime)
  {
    NoOpeningLeft(slot, at);
    if IsActiveAt(slot, at) {
      OpeningOfToday(slot, at);
    } else if NextOpenAt(slot, at).Some? {
      OpeningAhead(slot, at);
      forall u | at <= u < NextOpenAt(slot, at).value
        ensures Covered(u) && !IsActiveAt(slot, u)
      {
        NothingBetween(slot, at, u);
      }
    }
  }

  lemma OpeningOfToday(slot: SlotWindow, at: int)
    requires WindowOk(slot) && CoveredNext(at) && IsActiveAt(slot, at)
    ensures NextOpenAt(slot, at).Some? && NextOpenAt(slot, at).value <= at && Covered(NextOpenAt(slot, at).value)
    ensures LocalParts(NextOpenAt(slot, at).value) == LocalDateTimeParts(LocalParts(at).date, slot.startTime)
  {
    ActiveMeaning(slot, at);
    NextOpenMeaning(slot, at);
    NextOpenCovered(slot, at);
    OpenOnParts(slot, LocalDay(at));
    OpeningFirst(slot, LocalDay(at), at);
    TimeRead(slot.startTime);
  }

  // ---- Close, and the three cases of an instant ----

  function CloseOn(slot: SlotWindow, day: nat): int
    requires IsTimeText(slot.endTime)
  {
    day * MS_DAY + ReadTime(slot.endTime) * MS_MINUTE - OFFSET
  }

  lemma CloseMeaning(slot: SlotWindow, at: int)
    requires WindowOk(slot) && CoveredNext(at)
    ensures EffectiveCloseAt(slot, at).Some? <==> OpenDay(slot, at).Some?
    ensures EffectiveCloseAt(slot, at).Some? ==>
              EffectiveCloseAt(slot, at).value == CloseOn(slot, OpenDay(slot, at).value)
  {
    NextOpenCovered(slot, at);
    NextOpenMeaning(slot, at);
    if OpenDay(slot, at).Some? {
      OpenOnParts(slot, OpenDay(slot, at).value);
      PartsRead(NextOpenAt(slot, at).value);
    }
  }

  // Every instant of the day's window, to the end of the closing minute, is active.
  lemma OpenToClose(slot: SlotWindow, at: int, u: int)
    requires WindowOk(slot) && CoveredNext(at) && OpenDay(slot, at).Some?
    requires OpenOn(slot, OpenDay(slot, at).value) <= u < CloseOn(slot, OpenDay(slot, at).value) + MS_MINUTE
    ensures Covered(u) && LocalDay(u) == OpenDay(slot, at).value && IsActiveAt(slot, u)
  {
    OpenDayPrintable(slot, at);
    OpenMinutes(slot, OpenDay(slot, at).value, u);
    WindowInNumbers(slot);
    ActiveMeaning(slot, u);
  }

  lemma OpenMinutes(slot: SlotWindow, day: nat, u: int)
    requires WindowOk(slot)
    requires OpenOn(slot, day) <= u < CloseOn(slot, day) + MS_MINUTE
    ensures LocalDay(u) == day && ReadTime(slot.startTime) <= LocalMinute(u) <= ReadTime(slot.endTime)
  {
    var past := u + OFFSET - day * MS_DAY;
    assert 0 <= past < MS_DAY;
    assert u + OFFSET == day * MS_DAY + past;
  }

  // The window opens and closes on one local date, opens before it closes, and
  // every instant between, and to the end of the closing minute, is active.
  lemma CloseBelongsToOpening(slot: SlotWindow, at: int)
    requires WindowOk(slot) && CoveredNext(at)
    ensures EffectiveCloseAt(slot, at).Some? <==> NextOpenAt(slot, at).Some?
    ensures EffectiveCloseAt(slot, at).Some? ==>
      var (open, close) := (NextOpenAt(slot, at).value, EffectiveCloseAt(slot, at).value);
      open < close && Covered(open) && Covered(close) && LocalParts(open).date == LocalParts(close).date
      && forall u :: open <= u < close + MS_MINUTE ==> Covered(u) && IsActiveAt(slot, u)
  {
    NextOpenMeaning(slot, at);
    CloseMeaning(slot, at);
    if OpenDay(slot, at).Some? {
      WindowInNumbers(slot);
      var open, close := NextOpenAt(slot, at).value, EffectiveCloseAt(slot, at).value;
      forall u | open <= u < close + MS_MINUTE
        ensures Covered(u) && LocalDay(u) == LocalDay(open) && IsActiveAt(slot, u)
      {
        OpenToClose(slot, at, open);
        OpenToClose(slot, at, u);
      }
      assert LocalDay(close) == LocalDay(open);
    }
  }

  // The window opens later, on the first date at or after today that it covers.
  predicate BeforeOpening(slot: SlotWindow, at: int)
    requires WindowOk(slot) && CoveredNext(at)
  {
    var day := if LocalDay(at) < FirstDay(slot) then FirstDay(slot) else LocalDay(at);
    day <= LastDay(slot) && NextOpenAt(slot, at).Some? && NextOpenAt(slot, at).value == OpenOn(slot, day)
    && at < OpenOn(slot, day)
  }

  // After the closing minute nothing is active until the window opens again.
  lemma ClosedUntilNextOpening(slot: SlotWindow, at: int, u: int)
    requires WindowOk(slot) && CoveredNext(at) && EffectiveCloseAt(slot, at).Some?
    requires CoveredNext(EffectiveCloseAt(slot, at).value + MS_MINUTE)
    requires u >= EffectiveCloseAt(slot, at).value + MS_MINUTE && Covered(u)
    requires var next := NextOpenAt(slot, EffectiveCloseAt(slot, at).value + MS_MINUTE); next.Some? ==> u < next.value
    ensures !IsActiveAt(slot, u)
  {
    NextOpenExact(slot, EffectiveCloseAt(slot, at).value + MS_MINUTE);
  }

  // The minute after the closing minute of a day is inactive, unless the window
  // fills whole days and has another day to come.
  lemma MinuteAfterClose(slot: SlotWindow, day: nat)
    requires WindowOk(slot) && FirstDay(slot) <= day <= LastDay(slot) && Covered(CloseOn(slot, day) + MS_MINUTE)
    ensures IsActiveAt(slot, CloseOn(slot, day) + MS_MINUTE)
            <==> ReadTime(slot.startTime) == 0 && ReadTime(slot.endTime) == 1439 && day < LastDay(slot)
  {
    AfterClosingMinute(slot, day);
    DayEndOnly(slot, day, CloseOn(slot, day) + MS_MINUTE);
  }

  lemma DayEndOnly(slot: SlotWindow, day: nat, u: int)
    requires WindowOk(slot) && FirstDay(slot) <= day <= LastDay(slot) && Covered(u)
    requires var m := ReadTime(slot.endTime);
             if m == 1439 then LocalDay(u) == day + 1 && LocalMinute(u) == 0
             else LocalDay(u) == day && LocalMinute(u) == m + 1
    ensures IsActiveAt(slot, u) <==>
              ReadTime(slot.startTime) == 0 && ReadTime(slot.endTime) == 1439 && day < LastDay(slot)
  {
    WindowInNumbers(slot);
    ActiveMeaning(slot, u);
  }

  lemma AfterClosingMinute(slot: SlotWindow, day: nat)
    requires IsTimeText(slot.endTime)
    ensures var (u, m) := (CloseOn(slot, day) + MS_MINUTE, ReadTime(slot.endTime));
            if m == 1439 then LocalDay(u) == day + 1 && LocalMinute(u) == 0
            else LocalDay(u) == day && LocalMinute(u) == m + 1
  {
    var m := ReadTime(slot.endTime);
    assert CloseOn(slot, day) + MS_MINUTE + OFFSET == day * MS_DAY + (m + 1) * MS_MINUTE;
  }

  lemma OutsideMeaning(slot: SlotWindow, at: int)
    requires WindowOk(slot) && Covered(at)
    ensures IsOutsideCurrentWindow(slot, at) <==>
            LocalDay(at) > LastDay(slot) || (FirstDay(slot) <= LocalDay(at) && LocalMinute(at) > ReadTime(slot.endTime))
  {
    ActiveMeaning(slot, at);
    DateAgainst(at, slot.startDate);
    DateAgainst(at, slot.endDate);
    TimeAgainst(at, slot.endTime);
    WindowInNumbers(slot);
  }

  lemma BeforeOpeningMeaning(slot: SlotWindow, at: int)
    requires WindowOk(slot) && CoveredNext(at)
    ensures BeforeOpening(slot, at) <==>
            LocalDay(at) < FirstDay(slot)
            || (LocalDay(at) <= LastDay(slot) && LocalMinute(at) < ReadTime(slot.startTime))
  {
    NextOpenMeaning(slot, at);
    WindowInNumbers(slot);
    var day := if LocalDay(at) < FirstDay(slot) then FirstDay(slot) else LocalDay(at);
    OpenOnParts(slot, day);
    if OpenOn(slot, day) <= at { Later(OpenOn(slot, day), at); } else { Later(at, OpenOn(slot, day)); }
    if LocalDay(at) == day && ReadTime(slot.startTime) <= LocalMinute(at) { OpeningFirst(slot, day, at); }
  }

  // Every instant is exactly one of active, outside and before an opening.
  lemma Trichotomy(slot: SlotWindow, at: int)
    requires WindowOk(slot) && CoveredNext(at)
    ensures IsActiveAt(slot, at) || IsOutsideCurrentWindow(slot, at) || BeforeOpening(slot, at)
    ensures !(IsActiveAt(slot, at) && IsOutsideCurrentWindow(slot, at))
    ensures !(IsActiveAt(slot, at) && BeforeOpening(slot, at))
    ensures !(IsOutsideCurrentWindow(slot, at) && BeforeOpening(slot, at))
  {
    WindowInNumbers(slot);
    ActiveMeaning(slot, at);
    OutsideMeaning(slot, at);
    BeforeOpeningMeaning(slot, at);
  }
}
