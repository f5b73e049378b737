// The lab and theory limits by counting, with the section types spelt out.
module PairingCount {
  import opened Prelude
  import opened Tables
  import opened Timetable
  import opened Pairing

  function Labs(rows: seq<SectionRow>, course: CourseId): set<nat> {
    set i | 0 <= i < |rows| && rows[i].course == course
            && (rows[i].sectionType == Some(SectionType.TN) || rows[i].sectionType == Some(SectionType.TH))
  }

  function Theories(rows: seq<SectionRow>, course: CourseId): set<nat> {
    set i | 0 <= i < |rows| && rows[i].course == course
            && (rows[i].sectionType == Some(SectionType.LT) || rows[i].sectionType == Some(SectionType.LT_BT)
                || rows[i].sectionType == Some(SectionType.BT))
  }

  function NeedLab(rows: seq<SectionRow>, course: CourseId): set<nat> {
    set i | 0 <= i < |rows| && rows[i].course == course && rows[i].requiresLab
  }

  // Two rows that name each other's code, in at least one direction.
  predicate GoTogether(a: SectionRow, b: SectionRow) {
    a.linkedCode == Some(b.code) || b.linkedCode == Some(a.code)
  }

  // Per course: at most one lab row; at most two theory rows, and two only if
  // they go together; a lab where one is needed; a theory row beside a lab.
  ghost predicate PairingRule(rows: seq<SectionRow>) {
    forall course :: CourseRule(rows, course)
  }

  ghost predicate CourseRule(rows: seq<SectionRow>, course: CourseId) {
    && |Labs(rows, course)| <= 1
    && |Theories(rows, course)| <= 2
    && (forall i, j :: i in Theories(rows, course) && j in Theories(rows, course) && i != j ==>
          GoTogether(rows[i], rows[j]))
    && (NeedLab(rows, course) != {} ==> Labs(rows, course) != {})
    && (Labs(rows, course) != {} ==> Theories(rows, course) != {})
  }

  lemma TwoIn(s: set<nat>)
    ensures |s| <= 1 <==> forall i, j :: i in s && j in s ==> i == j
  {
    if i, j :| i in s && j in s && i != j {
      assert {i, j} <= s;
      Subset({i, j}, s);
    } else if s != {} {
      var i :| i in s;
      assert s == {i};
    }
  }

  // Three different members.
  predicate Triple(s: set<nat>, i: nat, j: nat, k: nat) {
    i in s && j in s && k in s && i != j && j != k && i != k
  }

  lemma ThreeIn(s: set<nat>)
    ensures |s| <= 2 <==> forall i, j, k :: !Triple(s, i, j, k)
  {
    if |s| > 2 {
      var i, j, k := SomeTriple(s);
    } else {
      forall i, j, k ensures !Triple(s, i, j, k) {
        if Triple(s, i, j, k) { TripleIsThree(s, i, j, k); }
      }
    }
  }

  lemma SomeTriple(s: set<nat>) returns (i: nat, j: nat, k: nat)
    requires |s| > 2
    ensures Triple(s, i, j, k)
  {
    i :| i in s;
    assert |s - {i}| > 1;
    j :| j in s - {i};
    assert |s - {i} - {j}| > 0;
    k :| k in s - {i} - {j};
  }

  lemma TripleIsThree(s: set<nat>, i: nat, j: nat, k: nat)
    requires Triple(s, i, j, k)
    ensures |s| >= 3
  {
    assert {i, j, k} <= s;
    Subset({i, j, k}, s);
  }

  lemma {:induction false} Subset(a: set<nat>, b: set<nat>)
    requires a <= b
    ensures |a| <= |b|
    decreases |a|
  {
    if a != {} {
      var x :| x in a;
      Subset(a - {x}, b - {x});
    }
  }

  lemma LabsCount(rows: seq<SectionRow>)
    ensures OneLab(rows) <==> forall course :: |Labs(rows, course)| <= 1
  {
    forall course ensures |Labs(rows, course)| <= 1 <==>
                          forall i, j :: i in Labs(rows, course) && j in Labs(rows, course) ==> i == j
    {
      TwoIn(Labs(rows, course));
    }
    if OneLab(rows) {
      forall course ensures |Labs(rows, course)| <= 1 {
        forall i, j | i in Labs(rows, course) && j in Labs(rows, course) ensures i == j {
          if i < j { assert SameCourse(rows, i, j); }
          if j < i { assert SameCourse(rows, j, i); }
        }
      }
    } else {
      var i, j :| 0 <= i < j < |rows| && SameCourse(rows, i, j) && IsLab(rows[i]) && IsLab(rows[j]);
      assert i in Labs(rows, rows[i].course) && j in Labs(rows, rows[i].course);
    }
  }

  lemma TheoriesCount(rows: seq<SectionRow>)
    ensures AtMostTwoTheory(rows) <==> forall course :: |Theories(rows, course)| <= 2
  {
    if AtMostTwoTheory(rows) {
      forall course ensures |Theories(rows, course)| <= 2 {
        ThreeIn(Theories(rows, course));
        forall i, j, k ensures !Triple(Theories(rows, course), i, j, k) {
          if Triple(Theories(rows, course), i, j, k) { TooManyTheories(rows, course, i, j, k); }
        }
      }
    } else {
      var i, j, k :| 0 <= i < j < k < |rows| && SameCourse(rows, i, j) && SameCourse(rows, j, k)
        && IsTheory(rows[i]) && IsTheory(rows[j]) && IsTheory(rows[k]);
      assert Triple(Theories(rows, rows[i].course), i, j, k);
      ThreeIn(Theories(rows, rows[i].course));
    }
  }

  lemma TooManyTheories(rows: seq<SectionRow>, course: CourseId, i: nat, j: nat, k: nat)
    requires Triple(Theories(rows, course), i, j, k)
    ensures !AtMostTwoTheory(rows)
  {
    var a, b, c := Sorted(i, j, k);
    assert a in {i, j, k} && b in {i, j, k} && c in {i, j, k};
    assert SameCourse(rows, a, b) && SameCourse(rows, b, c);
  }

  lemma Sorted(i: nat, j: nat, k: nat) returns (a: nat, b: nat, c: nat)
    requires i != j && j != k && i != k
    ensures a < b < c && {a, b, c} == {i, j, k}
  {
    a := if i < j && i < k then i else if j < k then j else k;
    c := if i > j && i > k then i else if j > k then j else k;
    b := if i != a && i != c then i else if j != a && j != c then j else k;
  }

  lemma LinksFollow(rows: seq<SectionRow>, course: CourseId)
    requires TheoryLinked(rows)
    ensures forall i, j :: i in Theories(rows, course) && j in Theories(rows, course) && i != j ==>
              GoTogether(rows[i], rows[j])
  {
    forall i, j | i in Theories(rows, course) && j in Theories(rows, course) && i != j
      ensures GoTogether(rows[i], rows[j])
    {
      if i < j { assert SameCourse(rows, i, j); } else { assert SameCourse(rows, j, i); }
    }
  }

  lemma LabsNeeded(rows: seq<SectionRow>)
    ensures LabPresent(rows) <==> forall course :: NeedLab(rows, course) != {} ==> Labs(rows, course) != {}
  {
    if LabPresent(rows) {
      forall course | NeedLab(rows, course) != {} ensures Labs(rows, course) != {} {
        var i :| i in NeedLab(rows, course);
        var j :| 0 <= j < |rows| && SameCourse(rows, i, j) && IsLab(rows[j]);
        assert j in Labs(rows, course);
      }
    } else {
      var i :| 0 <= i < |rows| && rows[i].requiresLab
        && !exists j :: 0 <= j < |rows| && SameCourse(rows, i, j) && IsLab(rows[j]);
      assert i in NeedLab(rows, rows[i].course);
      if j :| j in Labs(rows, rows[i].course) { assert SameCourse(rows, i, j); }
    }
  }

  lemma TheoriesNeeded(rows: seq<SectionRow>)
    ensures TheoryPresent(rows) <==> forall course :: Labs(rows, course) != {} ==> Theories(rows, course) != {}
  {
    if TheoryPresent(rows) {
      forall course | Labs(rows, course) != {} ensures Theories(rows, course) != {} {
        var i :| i in Labs(rows, course);
        var j :| 0 <= j < |rows| && SameCourse(rows, i, j) && IsTheory(rows[j]);
        assert j in Theories(rows, course);
      }
    } else {
      var i :| 0 <= i < |rows| && IsLab(rows[i])
        && !exists j :: 0 <= j < |rows| && SameCourse(rows, i, j) && IsTheory(rows[j]);
      assert i in Labs(rows, rows[i].course);
      if j :| j in Theories(rows, rows[i].course) { assert SameCourse(rows, i, j); }
    }
  }

  // The check's positional rule is the rule by counting.
  lemma PairingIsCounting(rows: seq<SectionRow>)
    ensures PairingOk(rows) <==> PairingRule(rows)
  {
    LabsCount(rows);
    TheoriesCount(rows);
    LabsNeeded(rows);
    TheoriesNeeded(rows);
    if PairingOk(rows) {
      forall course ensures CourseRule(rows, course) { LinksFollow(rows, course); }
    }
    if PairingRule(rows) {
      forall course
        ensures |Labs(rows, course)| <= 1 && |Theories(rows, course)| <= 2
        ensures NeedLab(rows, course) != {} ==> Labs(rows, course) != {}
        ensures Labs(rows, course) != {} ==> Theories(rows, course) != {}
      {
        assert CourseRule(rows, course);
      }
      LinkedByRule(rows);
    }
  }

  lemma LinkedByRule(rows: seq<SectionRow>)
    requires PairingRule(rows)
    ensures TheoryLinked(rows)
  {
    forall i, j | 0 <= i < j < |rows| && SameCourse(rows, i, j) && IsTheory(rows[i]) && IsTheory(rows[j])
      ensures Linked(rows[i], rows[j])
    {
      assert CourseRule(rows, rows[i].course);
      assert i in Theories(rows, rows[i].course) && j in Theories(rows, rows[i].course);
    }
  }
}
