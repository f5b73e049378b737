// Class-section rows and the timetable conflict check of the API and of the worker.
module Timetable {
  import opened Prelude
  import opened WeekRange
  import opened Tables

  datatype SectionType = LT_BT | TN | TH | BT | LT | DA | TT | DATN | TTTN | TTKT | TTKS | DATNKS | KLTN | KLNC

  datatype SectionStatus = ADJUSTING_REGISTRATION | REGISTRATION_CLOSED | CANCELLED | SCHEDULING | OPEN_FOR_REGISTRATION

  // The columns of a class_sections row that registration does not change.
  datatype SectionRow = SectionRow(
    id: SectionId, code: string, course: CourseId,
    sectionType: Option<SectionType>, status: Option<SectionStatus>, requiresLab: bool, linkedCode: Option<string>,
    dayOfWeek: Option<int>, timeOfDay: Option<string>, startPeriod: Option<int>, endPeriod: Option<int>,
    weekRange: Option<string>)

  predicate Scheduled(r: SectionRow) {
    r.dayOfWeek.Some? && r.timeOfDay.Some? && r.startPeriod.Some? && r.endPeriod.Some?
  }

  // Two different section codes need the same place in a student's week.
  ghost predicate Conflict(a: SectionRow, b: SectionRow) {
    && Scheduled(a) && Scheduled(b)
    && a.code != b.code
    && a.dayOfWeek == b.dayOfWeek && a.timeOfDay == b.timeOfDay
    && a.startPeriod.value <= b.endPeriod.value && b.startPeriod.value <= a.endPeriod.value
    && Overlap(a.weekRange, b.weekRange)
  }

  // For rows whose periods run forwards: one period on one day belongs to both.
  lemma SharedPeriod(a: SectionRow, b: SectionRow)
    requires Scheduled(a) && a.startPeriod.value <= a.endPeriod.value
    requires Scheduled(b) && b.startPeriod.value <= b.endPeriod.value
    ensures Conflict(a, b) <==>
            a.code != b.code && a.dayOfWeek == b.dayOfWeek && a.timeOfDay == b.timeOfDay
            && Overlap(a.weekRange, b.weekRange) && exists p :: HasPeriod(a, p) && HasPeriod(b, p)
  {
    if Conflict(a, b) {
      var p := if a.startPeriod.value < b.startPeriod.value then b.startPeriod.value else a.startPeriod.value;
      assert HasPeriod(a, p) && HasPeriod(b, p);
    }
  }

  predicate HasPeriod(r: SectionRow, p: int)
    requires Scheduled(r)
  {
    r.startPeriod.value <= p <= r.endPeriod.value
  }

  lemma ConflictSymmetric(a: SectionRow, b: SectionRow)
    ensures Conflict(a, b) <==> Conflict(b, a)
  {
    OverlapSymmetric(a.weekRange, b.weekRange);
  }

  ghost predicate ConflictFree(rows: set<SectionRow>) {
    forall a, b :: a in rows && b in rows ==> !Conflict(a, b)
  }

  function RowSet(rows: seq<SectionRow>): set<SectionRow> { set r | r in rows }

  // ---- The bucket key ----

  const DIGITS := "0123456789"

  function NatText(n: nat): string {
    if n < 10 then [DIGITS[n]] else NatText(n / 10) + [DIGITS[n % 10]]
  }

  function IntText(n: int): string {
    if n < 0 then "-" + NatText(-n) else NatText(n)
  }

  // The bucket key of a row: its day and time of day with two underscores between.
  function Key(r: SectionRow): string
    requires Scheduled(r)
  {
    IntText(r.dayOfWeek.value) + "__" + r.timeOfDay.value
  }

  lemma {:induction false} NatTextDigits(n: nat)
    ensures NatText(n) != "" && forall i :: 0 <= i < |NatText(n)| ==> IsDigit(NatText(n)[i])
  {
    if n >= 10 { NatTextDigits(n / 10); }
  }

  lemma {:induction false} NatTextInjective(m: nat, n: nat)
    requires NatText(m) == NatText(n)
    ensures m == n
  {
    NatTextDigits(m / 10);
    NatTextDigits(n / 10);
    var last := |NatText(m)| - 1;
    assert NatText(m)[last] == DIGITS[m % 10] && NatText(n)[last] == DIGITS[n % 10];
    DigitInjective(m % 10, n % 10);
    if m >= 10 {
      assert NatText(m)[..last] == NatText(m / 10) && NatText(n)[..last] == NatText(n / 10);
      NatTextInjective(m / 10, n / 10);
    }
  }

  lemma DigitInjective(d: nat, e: nat)
    requires d < 10 && e < 10 && DIGITS[d] == DIGITS[e]
    ensures d == e
  {
  }

  lemma IntTextInjective(m: int, n: int)
    requires IntText(m) == IntText(n)
    ensures m == n
  {
    var p, q := if m < 0 then -m else m, if n < 0 then -n else n;
    NatTextDigits(p);
    NatTextDigits(q);
    if m < 0 {
      assert IntText(m)[0] == '-' && IntText(m)[1..] == NatText(p);
    }
    if n < 0 {
      assert IntText(n)[0] == '-' && IntText(n)[1..] == NatText(q);
    }
    NatTextInjective(p, q);
  }

  // Equal keys mean the same day and the same time of day: day numbers have no underscore.
  lemma KeyInjective(a: SectionRow, b: SectionRow)
    requires Scheduled(a) && Scheduled(b)
    ensures Key(a) == Key(b) <==> a.dayOfWeek == b.dayOfWeek && a.timeOfDay == b.timeOfDay
  {
    if Key(a) == Key(b) {
      var s, t := IntText(a.dayOfWeek.value), IntText(b.dayOfWeek.value);
      NatTextDigits(if a.dayOfWeek.value < 0 then -a.dayOfWeek.value else a.dayOfWeek.value);
      NatTextDigits(if b.dayOfWeek.value < 0 then -b.dayOfWeek.value else b.dayOfWeek.value);
      SameCut(s, a.timeOfDay.value, t, b.timeOfDay.value);
      IntTextInjective(a.dayOfWeek.value, b.dayOfWeek.value);
    }
  }

  lemma SameCut(s: string, x: string, t: string, y: string)
    requires '_' !in s && '_' !in t
    requires s + "__" + x == t + "__" + y
    ensures s == t && x == y
  {
    var whole := s + "__" + x;
    assert whole[|s|] == '_' && whole[|t|] == '_';
    assert forall i :: 0 <= i < |s| ==> whole[i] == s[i];
    assert forall i :: 0 <= i < |t| ==> whole[i] == t[i];
    assert |s| == |t|;
    assert s == whole[..|s|] && t == whole[..|t|];
    assert x == whole[|s| + 2..] && y == whole[|t| + 2..];
  }

  // ---- assertNoScheduleConflict ----

  // Every scheduled row is in the bucket of its key, and nothing else is.
  ghost predicate Buckets(rows: seq<SectionRow>, bySlot: map<string, seq<SectionRow>>) {
    && (forall key, r :: key in bySlot && r in bySlot[key] ==> r in rows && Scheduled(r) && Key(r) == key)
    && (forall r :: r in rows && Scheduled(r) ==> Key(r) in bySlot && r in bySlot[Key(r)])
  }

  // Fully scheduled rows of one day and time of day.
  ghost predicate OneSlot(group: seq<SectionRow>) {
    forall a, b :: a in group && b in group ==>
      Scheduled(a) && Scheduled(b) && a.dayOfWeek == b.dayOfWeek && a.timeOfDay == b.timeOfDay
  }

  lemma BucketIsOneSlot(rows: seq<SectionRow>, bySlot: map<string, seq<SectionRow>>, key: string)
    requires Buckets(rows, bySlot) && key in bySlot
    ensures OneSlot(bySlot[key])
  {
    OneKey(bySlot[key], key);
  }

  lemma OneKey(group: seq<SectionRow>, key: string)
    requires forall r :: r in group ==> Scheduled(r) && Key(r) == key
    ensures OneSlot(group)
  {
    forall a, b | a in group && b in group
      ensures Scheduled(a) && Scheduled(b) && a.dayOfWeek == b.dayOfWeek && a.timeOfDay == b.timeOfDay
    {
      KeyInjective(a, b);
    }
  }

  ghost predicate BucketFree(bySlot: map<string, seq<SectionRow>>, key: string)
    requires key in bySlot
  {
    ConflictFree(RowSet(bySlot[key]))
  }

  // A conflict inside one bucket is a conflict of the list.
  lemma BucketConflict(rows: seq<SectionRow>, bySlot: map<string, seq<SectionRow>>, key: string, a: SectionRow,
                       b: SectionRow)
    requires Buckets(rows, bySlot) && key in bySlot && a in bySlot[key] && b in bySlot[key] && Conflict(a, b)
    ensures a in rows && b in rows && !ConflictFree(RowSet(rows))
  {
    assert a in RowSet(rows) && b in RowSet(rows);
  }

  lemma BucketsSuffice(rows: seq<SectionRow>, bySlot: map<string, seq<SectionRow>>)
    requires Buckets(rows, bySlot)
    requires forall key :: key in bySlot ==> BucketFree(bySlot, key)
    ensures ConflictFree(RowSet(rows))
  {
    forall a, b | a in rows && b in rows ensures !Conflict(a, b) {
      if Scheduled(a) && Scheduled(b) && a.dayOfWeek == b.dayOfWeek && a.timeOfDay == b.timeOfDay {
        KeyInjective(a, b);
        var group := RowSet(bySlot[Key(a)]);
        assert BucketFree(bySlot, Key(a));
        assert a in group && b in group;
      }
    }
  }

  class ConflictValidator {
    constructor () {}

    // Group the scheduled rows by (day, time of day), then compare inside each group.
    method AssertNoScheduleConflict(rows: seq<SectionRow>) returns (clash: Option<(SectionRow, SectionRow)>)
      ensures clash.None? <==> ConflictFree(RowSet(rows))
      ensures clash.Some? ==> clash.value.0 in rows && clash.value.1 in rows && Conflict(clash.value.0, clash.value.1)
    {
      var bySlot := GroupBySlot(rows);
      var keys := bySlot.Keys;
      while keys != {}
        invariant keys <= bySlot.Keys
        invariant forall key :: key in bySlot && key !in keys ==> BucketFree(bySlot, key)
        decreases |keys|
      {
        var key :| key in keys;
        BucketIsOneSlot(rows, bySlot, key);
        clash := CheckGroup(bySlot[key]);
        if clash.Some? {
          BucketConflict(rows, bySlot, key, clash.value.0, clash.value.1);
          return;
        }
        keys := keys - {key};
      }
      clash := None;
      BucketsSuffice(rows, bySlot);
    }

    method GroupBySlot(rows: seq<SectionRow>) returns (bySlot: map<string, seq<SectionRow>>)
      ensures Buckets(rows, bySlot)
    {
      bySlot := map[];
      for n := 0 to |rows|
        invariant Buckets(rows[..n], bySlot)
      {
        var row := rows[n];
        assert rows[..n + 1] == rows[..n] + [row];
        if Scheduled(row) {
          var key := Key(row);
          var group := if key in bySlot then bySlot[key] else [];
          bySlot := bySlot[key := group + [row]];
        }
      }
      assert rows[..|rows|] == rows;
    }

    method ComparePair(a: SectionRow, b: SectionRow) returns (found: bool)
      requires OneSlot([a, b])
      ensures found <==> Conflict(a, b)
    {
      assert a in [a, b] && b in [a, b];
      if a.code == b.code { return false; }
      var periodsOverlap := a.startPeriod.value <= b.endPeriod.value && b.startPeriod.value <= a.endPeriod.value;
      var weeksOverlap := WeekRangesOverlap(a.weekRange, b.weekRange);
      return periodsOverlap && weeksOverlap;
    }

    // Every pair i < j of one group, skipping pairs of one section code.
    method CheckGroup(group: seq<SectionRow>) returns (clash: Option<(SectionRow, SectionRow)>)
      requires OneSlot(group)
      ensures clash.None? <==> ConflictFree(RowSet(group))
      ensures clash.Some? ==> clash.value.0 in group && clash.value.1 in group && Conflict(clash.value.0, clash.value.1)
    {
      var i := 0;
      while i < |group|
        invariant i <= |group|
        invariant forall p, q :: 0 <= p < i && p < q < |group| ==> !Conflict(group[p], group[q])
      {
        var j := i + 1;
        while j < |group|
          invariant i < j <= |group|
          invariant forall q :: i < q < j ==> !Conflict(group[i], group[q])
        {
          var found := ComparePair(group[i], group[j]);
          if found { return Some((group[i], group[j])); }
          j := j + 1;
        }
        i := i + 1;
      }
      PairsSuffice(group);
      return None;
    }
  }

  // Conflict is symmetric and no row conflicts with itself, so ordered pairs suffice.
  lemma PairsSuffice(rows: seq<SectionRow>)
    ensures ConflictFree(RowSet(rows)) <==> forall i, j :: 0 <= i < j < |rows| ==> !Conflict(rows[i], rows[j])
  {
    if forall i, j :: 0 <= i < j < |rows| ==> !Conflict(rows[i], rows[j]) {
      forall a, b | a in rows && b in rows ensures !Conflict(a, b) {
        ConflictSymmetric(a, b);
        var i :| 0 <= i < |rows| && rows[i] == a;
        var j :| 0 <= j < |rows| && rows[j] == b;
      }
    }
    if ConflictFree(RowSet(rows)) {
      forall i, j | 0 <= i < j < |rows| ensures !Conflict(rows[i], rows[j]) {
        assert rows[i] in RowSet(rows) && rows[j] in RowSet(rows);
      }
    }
  }

  // The order in which rows are given does not matter.
  lemma ConflictOrderIrrelevant(p: seq<SectionRow>, q: seq<SectionRow>)
    requires multiset(p) == multiset(q)
    ensures RowSet(p) == RowSet(q)
    ensures ConflictFree(RowSet(p)) <==> ConflictFree(RowSet(q))
  {
    forall r ensures r in p <==> r in q {
      assert r in multiset(p) <==> r in multiset(q);
    }
  }

  // ---- checkScheduleConflict of the worker ----

  // A JavaScript number field that is null or 0 is falsy.
  predicate Truthy(x: Option<int>) { x.Some? && x.value != 0 }

  ghost predicate Clashes(section: SectionRow, s: SectionRow) {
    && s.dayOfWeek == section.dayOfWeek && s.timeOfDay == section.timeOfDay
    && Overlap(s.weekRange, section.weekRange)
    && s.startPeriod.Some? && s.endPeriod.Some? && section.startPeriod.Some? && section.endPeriod.Some?
    && s.startPeriod.value <= section.endPeriod.value && s.endPeriod.value >= section.startPeriod.value
  }

  method CheckScheduleConflict(section: SectionRow, existing: seq<SectionRow>) returns (r: bool)
    ensures r <==> Truthy(section.dayOfWeek) && Truthy(section.startPeriod) && Truthy(section.endPeriod)
                   && exists s :: s in existing && Clashes(section, s)
  {
    if !Truthy(section.dayOfWeek) || !Truthy(section.startPeriod) || !Truthy(section.endPeriod) { return false; }
    for n := 0 to |existing|
      invariant forall k :: 0 <= k < n ==> !Clashes(section, existing[k])
    {
      assert existing[n] in existing;
      var clash := ClashesWith(section, existing[n]);
      if clash { return true; }
    }
    return false;
  }

  // The body of the loop.
  method ClashesWith(section: SectionRow, s: SectionRow) returns (r: bool)
    requires section.startPeriod.Some? && section.endPeriod.Some?
    ensures r <==> Clashes(section, s)
  {
    if s.dayOfWeek != section.dayOfWeek || s.timeOfDay != section.timeOfDay { return false; }
    if s.startPeriod.None? || s.endPeriod.None? { return false; }
    r := WeekRangesOverlap(s.weekRange, section.weekRange);
    r := r && s.startPeriod.value <= section.endPeriod.value && s.endPeriod.value >= section.startPeriod.value;
  }

  // The API and the worker agree on two rows of different codes exactly when
  // the rows do not clash, or "no field of the section is 0" and "the time of
  // day is known" are both true or both false.
  lemma WorkerAgrees(a: SectionRow, b: SectionRow)
    requires a.code != b.code
    ensures var worker := Truthy(a.dayOfWeek) && Truthy(a.startPeriod) && Truthy(a.endPeriod) && Clashes(a, b);
            (worker <==> Conflict(a, b))
            <==> !(Clashes(a, b) && a.dayOfWeek.Some?
                   && ((a.dayOfWeek != Some(0) && a.startPeriod != Some(0)
                         && a.endPeriod != Some(0)) != a.timeOfDay.Some?))
  {
    OverlapSymmetric(a.weekRange, b.weekRange);
  }
}
