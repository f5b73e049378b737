// The lab and theory limits of one course: assertLabPairing.
module Pairing {
  import opened Prelude
  import opened Tables
  import opened Timetable

  datatype PairingError = TooManyLabs | UnlinkedTheory | TooManyTheory | LabMissing | TheoryMissing

  predicate IsLab(r: SectionRow) { r.sectionType == Some(TN) || r.sectionType == Some(TH) }

  predicate IsTheory(r: SectionRow) {
    r.sectionType == Some(LT) || r.sectionType == Some(LT_BT) || r.sectionType == Some(BT)
  }

  predicate Linked(a: SectionRow, b: SectionRow) {
    a.linkedCode == Some(b.code) || b.linkedCode == Some(a.code)
  }

  // ---- The rule, as a statement about positions in the list ----

  predicate SameCourse(rows: seq<SectionRow>, i: nat, j: nat)
    requires i < |rows| && j < |rows|
  {
    rows[i].course == rows[j].course
  }

  ghost predicate OneLab(rows: seq<SectionRow>) {
    forall i, j :: 0 <= i < j < |rows| && SameCourse(rows, i, j) ==> !(IsLab(rows[i]) && IsLab(rows[j]))
  }

  ghost predicate TheoryLinked(rows: seq<SectionRow>) {
    forall i, j :: 0 <= i < j < |rows| && SameCourse(rows, i, j) && IsTheory(rows[i]) && IsTheory(rows[j]) ==>
      Linked(rows[i], rows[j])
  }

  ghost predicate AtMostTwoTheory(rows: seq<SectionRow>) {
    forall i, j, k :: 0 <= i < j < k < |rows| && SameCourse(rows, i, j) && SameCourse(rows, j, k) ==>
      !(IsTheory(rows[i]) && IsTheory(rows[j]) && IsTheory(rows[k]))
  }

  ghost predicate LabPresent(rows: seq<SectionRow>) {
    forall i :: 0 <= i < |rows| && rows[i].requiresLab ==>
      exists j :: 0 <= j < |rows| && SameCourse(rows, i, j) && IsLab(rows[j])
  }

  ghost predicate TheoryPresent(rows: seq<SectionRow>) {
    forall i :: 0 <= i < |rows| && IsLab(rows[i]) ==>
      exists j :: 0 <= j < |rows| && SameCourse(rows, i, j) && IsTheory(rows[j])
  }

  // Per course: at most one lab row, at most two theory rows and then linked,
  // a lab where one is required, and a theory row beside every lab.
  ghost predicate PairingOk(rows: seq<SectionRow>) {
    OneLab(rows) && TheoryLinked(rows) && AtMostTwoTheory(rows) && LabPresent(rows) && TheoryPresent(rows)
  }

  // ---- filter, with the positions it keeps ----

  // The positions below `n` whose rows satisfy `p`, in increasing order.
  ghost function Positions(rows: seq<SectionRow>, p: SectionRow -> bool, n: nat): (r: seq<nat>)
    requires n <= |rows|
    ensures forall k :: 0 <= k < |r| ==> r[k] < n && p(rows[r[k]])
    ensures forall j, k :: 0 <= j < k < |r| ==> r[j] < r[k]
    ensures forall i :: 0 <= i < n && p(rows[i]) ==> i in r
  {
    if n == 0 then []
    else if p(rows[n - 1]) then Positions(rows, p, n - 1) + [n - 1]
    else Positions(rows, p, n - 1)
  }

  // `kept` lists the rows that satisfy `p`, in order.
  ghost predicate Filtered(rows: seq<SectionRow>, p: SectionRow -> bool, kept: seq<SectionRow>) {
    var at := Positions(rows, p, |rows|);
    |kept| == |at| && forall k :: 0 <= k < |at| ==> kept[k] == rows[at[k]]
  }

  method Filter(rows: seq<SectionRow>, p: SectionRow -> bool) returns (kept: seq<SectionRow>)
    ensures Filtered(rows, p, kept)
  {
    kept := [];
    for n := 0 to |rows|
      invariant KeptBelow(rows, p, n, kept)
    {
      KeptStep(rows, p, n, kept);
      if p(rows[n]) { kept := kept + [rows[n]]; }
    }
  }

  // ---- What a filtered list says about the rows ----

  lemma NoneKept(rows: seq<SectionRow>, p: SectionRow -> bool, kept: seq<SectionRow>)
    requires Filtered(rows, p, kept)
    ensures |kept| == 0 <==> forall i :: 0 <= i < |rows| ==> !p(rows[i])
  {
    var at := Positions(rows, p, |rows|);
    if |kept| > 0 { assert p(rows[at[0]]); }
  }

  lemma TwoKept(rows: seq<SectionRow>, p: SectionRow -> bool, kept: seq<SectionRow>)
    requires Filtered(rows, p, kept)
    ensures |kept| > 1 <==> exists i, j :: 0 <= i < j < |rows| && p(rows[i]) && p(rows[j])
  {
    var at := Positions(rows, p, |rows|);
    if |kept| > 1 { assert 0 <= at[0] < at[1] < |rows| && p(rows[at[0]]) && p(rows[at[1]]); }
    if i, j :| 0 <= i < j < |rows| && p(rows[i]) && p(rows[j]) {
      assert i in at && j in at;
    }
  }

  lemma ThreeKept(rows: seq<SectionRow>, p: SectionRow -> bool, kept: seq<SectionRow>)
    requires Filtered(rows, p, kept)
    ensures |kept| > 2 <==> exists i, j, k :: 0 <= i < j < k < |rows| && p(rows[i]) && p(rows[j]) && p(rows[k])
  {
    var at := Positions(rows, p, |rows|);
    if |kept| > 2 { assert 0 <= at[0] < at[1] < at[2] < |rows| && p(rows[at[0]]) && p(rows[at[1]]) && p(rows[at[2]]); }
    if i, j, k :| 0 <= i < j < k < |rows| && p(rows[i]) && p(rows[j]) && p(rows[k]) {
      var x :| 0 <= x < |at| && at[x] == i;
      var y :| 0 <= y < |at| && at[y] == j;
      var z :| 0 <= z < |at| && at[z] == k;
      assert x != y && y != z && x != z;
    }
  }

  lemma ExactlyTwo(rows: seq<SectionRow>, p: SectionRow -> bool, kept: seq<SectionRow>, i: nat, j: nat)
    requires Filtered(rows, p, kept) && |kept| == 2
    requires i < j < |rows| && p(rows[i]) && p(rows[j])
    ensures kept[0] == rows[i] && kept[1] == rows[j]
  {
    var at := Positions(rows, p, |rows|);
    assert i in at && j in at;
  }

  // ---- assertLabPairing ----

  function OfCourse(c: CourseId): SectionRow -> bool { (r: SectionRow) => r.course == c }

  ghost predicate Grouped(rows: seq<SectionRow>, byCourse: map<CourseId, seq<SectionRow>>) {
    && (forall r :: r in rows ==> r.course in byCourse)
    && (forall c :: c in byCourse ==> Filtered(rows, OfCourse(c), byCourse[c]))
  }

  ghost predicate OneCourse(group: seq<SectionRow>) {
    forall i, j :: 0 <= i < j < |group| ==> SameCourse(group, i, j)
  }

  method GroupByCourse(rows: seq<SectionRow>) returns (byCourse: map<CourseId, seq<SectionRow>>)
    ensures Grouped(rows, byCourse)
  {
    byCourse := map[];
    for n := 0 to |rows|
      invariant GroupedBelow(rows, n, byCourse)
    {
      var s := rows[n];
      var group := if s.course in byCourse then byCourse[s.course] else [];
      GroupStep(rows, n, byCourse);
      byCourse := byCourse[s.course := group + [s]];
    }
  }

  ghost predicate GroupedBelow(rows: seq<SectionRow>, n: nat, byCourse: map<CourseId, seq<SectionRow>>)
    requires n <= |rows|
  {
    && (forall i :: 0 <= i < n ==> rows[i].course in byCourse)
    && (forall c {:trigger byCourse[c]} :: c in byCourse ==> KeptBelow(rows, OfCourse(c), n, byCourse[c]))
  }

  function WithRow(byCourse: map<CourseId, seq<SectionRow>>, s: SectionRow): map<CourseId, seq<SectionRow>> {
    byCourse[s.course := (if s.course in byCourse then byCourse[s.course] else []) + [s]]
  }

  lemma GroupStep(rows: seq<SectionRow>, n: nat, byCourse: map<CourseId, seq<SectionRow>>)
    requires n < |rows| && GroupedBelow(rows, n, byCourse)
    ensures GroupedBelow(rows, n + 1, WithRow(byCourse, rows[n]))
  {
    var after := WithRow(byCourse, rows[n]);
    forall i | 0 <= i < n + 1 ensures rows[i].course in after {}
    forall c | c in after ensures KeptBelow(rows, OfCourse(c), n + 1, after[c]) {
      if c == rows[n].course { OwnGroup(rows, n, byCourse); } else { OtherGroup(rows, n, c, byCourse[c]); }
    }
  }

  lemma OwnGroup(rows: seq<SectionRow>, n: nat, byCourse: map<CourseId, seq<SectionRow>>)
    requires n < |rows| && GroupedBelow(rows, n, byCourse)
    ensures KeptBelow(rows, OfCourse(rows[n].course), n + 1, WithRow(byCourse, rows[n])[rows[n].course])
  {
    var own := rows[n].course;
    if own !in byCourse { NothingBelow(rows, own, n); }
    assert OfCourse(own)(rows[n]);
    KeptStep(rows, OfCourse(own), n, if own in byCourse then byCourse[own] else []);
  }

  lemma OtherGroup(rows: seq<SectionRow>, n: nat, c: CourseId, group: seq<SectionRow>)
    requires n < |rows| && rows[n].course != c && KeptBelow(rows, OfCourse(c), n, group)
    ensures KeptBelow(rows, OfCourse(c), n + 1, group)
  {
    assert !OfCourse(c)(rows[n]);
    KeptStep(rows, OfCourse(c), n, group);
  }

  ghost predicate KeptBelow(rows: seq<SectionRow>, p: SectionRow -> bool, n: nat, kept: seq<SectionRow>)
    requires n <= |rows|
  {
    var at := Positions(rows, p, n);
    |kept| == |at| && forall k :: 0 <= k < |at| ==> kept[k] == rows[at[k]]
  }

  lemma KeptStep(rows: seq<SectionRow>, p: SectionRow -> bool, n: nat, kept: seq<SectionRow>)
    requires n < |rows| && KeptBelow(rows, p, n, kept)
    ensures KeptBelow(rows, p, n + 1, if p(rows[n]) then kept + [rows[n]] else kept)
  {
  }

  lemma {:induction false} NothingBelow(rows: seq<SectionRow>, c: CourseId, n: nat)
    requires n <= |rows| && forall i :: 0 <= i < n ==> rows[i].course != c
    ensures KeptBelow(rows, OfCourse(c), n, [])
  {
    if n > 0 { NothingBelow(rows, c, n - 1); }
  }

  method CheckCourse(group: seq<SectionRow>) returns (error: Option<PairingError>)
    requires OneCourse(group)
    ensures error.None? <==> PairingOk(group)
  {
    var labSections := Filter(group, IsLab);
    var theorySections := Filter(group, IsTheory);
    var mainSectionsRequiringLab := Filter(group, (r: SectionRow) => r.requiresLab);
    TwoKept(group, IsLab, labSections);
    NoneKept(group, IsLab, labSections);
    TwoKept(group, IsTheory, theorySections);
    ThreeKept(group, IsTheory, theorySections);
    NoneKept(group, IsTheory, theorySections);
    NoneKept(group, (r: SectionRow) => r.requiresLab, mainSectionsRequiringLab);
    OneCourseRule(group, labSections, theorySections, mainSectionsRequiringLab);
    if |labSections| > 1 { return Some(TooManyLabs); }
    if |theorySections| > 1 {
      if |theorySections| == 2 {
        if !Linked(theorySections[0], theorySections[1]) { return Some(UnlinkedTheory); }
      } else {
        return Some(TooManyTheory);
      }
    }
    if |mainSectionsRequiringLab| > 0 && |labSections| == 0 { return Some(LabMissing); }
    if |labSections| > 0 && |theorySections| == 0 { return Some(TheoryMissing); }
    return None;
  }

  // Inside one course the rule is a rule about three counts and one link.
  lemma OneCourseRule(group: seq<SectionRow>, labs: seq<SectionRow>, theory: seq<SectionRow>, mains: seq<SectionRow>)
    requires OneCourse(group)
    requires Filtered(group, IsLab, labs) && Filtered(group, IsTheory, theory)
    requires Filtered(group, (r: SectionRow) => r.requiresLab, mains)
    ensures PairingOk(group) <==>
            && |labs| <= 1 && |theory| <= 2
            && (|theory| == 2 ==> Linked(theory[0], theory[1]))
            && !(|mains| > 0 && |labs| == 0) && !(|labs| > 0 && |theory| == 0)
  {
    OneLabCount(group, labs);
    TheoryCount(group, theory);
    if |theory| <= 2 { TheoryLink(group, theory); }
    LabPresentCount(group, labs, mains);
    TheoryPresentCount(group, labs, theory);
  }

  lemma OneLabCount(group: seq<SectionRow>, labs: seq<SectionRow>)
    requires OneCourse(group) && Filtered(group, IsLab, labs)
    ensures OneLab(group) <==> |labs| <= 1
  {
    TwoKept(group, IsLab, labs);
    if |labs| > 1 {
      var i, j :| 0 <= i < j < |group| && IsLab(group[i]) && IsLab(group[j]);
      assert SameCourse(group, i, j);
    }
  }

  lemma TheoryCount(group: seq<SectionRow>, theory: seq<SectionRow>)
    requires OneCourse(group) && Filtered(group, IsTheory, theory)
    ensures AtMostTwoTheory(group) <==> |theory| <= 2
  {
    ThreeKept(group, IsTheory, theory);
    if |theory| > 2 {
      var i, j, k :| 0 <= i < j < k < |group| && IsTheory(group[i]) && IsTheory(group[j]) && IsTheory(group[k]);
      assert SameCourse(group, i, j) && SameCourse(group, j, k);
    }
  }

  lemma LabPresentCount(group: seq<SectionRow>, labs: seq<SectionRow>, mains: seq<SectionRow>)
    requires OneCourse(group) && Filtered(group, IsLab, labs)
             && Filtered(group, (r: SectionRow) => r.requiresLab, mains)
    ensures LabPresent(group) <==> !(|mains| > 0 && |labs| == 0)
  {
    NoneKept(group, IsLab, labs);
    NoneKept(group, (r: SectionRow) => r.requiresLab, mains);
    if |labs| > 0 {
      var j :| 0 <= j < |group| && IsLab(group[j]);
      forall i | 0 <= i < |group| ensures SameCourse(group, i, j) {
        if i < j { assert SameCourse(group, i, j); } else if j < i { assert SameCourse(group, j, i); }
      }
    }
  }

  lemma TheoryPresentCount(group: seq<SectionRow>, labs: seq<SectionRow>, theory: seq<SectionRow>)
    requires OneCourse(group) && Filtered(group, IsLab, labs) && Filtered(group, IsTheory, theory)
    ensures TheoryPresent(group) <==> !(|labs| > 0 && |theory| == 0)
  {
    NoneKept(group, IsLab, labs);
    NoneKept(group, IsTheory, theory);
    if |theory| > 0 {
      var j :| 0 <= j < |group| && IsTheory(group[j]);
      forall i | 0 <= i < |group| ensures SameCourse(group, i, j) {
        if i < j { assert SameCourse(group, i, j); } else if j < i { assert SameCourse(group, j, i); }
      }
    }
  }

  lemma TheoryLink(group: seq<SectionRow>, theory: seq<SectionRow>)
    requires OneCourse(group) && Filtered(group, IsTheory, theory) && |theory| <= 2
    ensures TheoryLinked(group) <==> (|theory| == 2 ==> Linked(theory[0], theory[1]))
  {
    var at := Positions(group, IsTheory, |group|);
    TwoKept(group, IsTheory, theory);
    if |theory| == 2 {
      assert SameCourse(group, at[0], at[1]);
      forall i, j | 0 <= i < j < |group| && IsTheory(group[i]) && IsTheory(group[j])
        ensures group[i] == theory[0] && group[j] == theory[1]
      {
        ExactlyTwo(group, IsTheory, theory, i, j);
      }
    }
  }

  // Checking course by course checks the whole list.
  method AssertLabPairing(rows: seq<SectionRow>) returns (error: Option<PairingError>)
    ensures error.None? <==> PairingOk(rows)
  {
    var byCourse := GroupByCourse(rows);
    var courses := byCourse.Keys;
    while courses != {}
      invariant courses <= byCourse.Keys
      invariant forall c :: c in byCourse && c !in courses ==> PairingOk(byCourse[c])
      decreases |courses|
    {
      var c :| c in courses;
      GroupOneCourse(rows, c, byCourse[c]);
      error := CheckCourse(byCourse[c]);
      if error.Some? {
        if PairingOk(rows) { GroupPasses(rows, c, byCourse[c]); }
        return;
      }
      courses := courses - {c};
    }
    GroupsSuffice(rows, byCourse);
    error := None;
  }

  lemma GroupOneCourse(rows: seq<SectionRow>, c: CourseId, group: seq<SectionRow>)
    requires Filtered(rows, OfCourse(c), group)
    ensures OneCourse(group)
    ensures forall k :: 0 <= k < |group| ==> group[k].course == c
  {
    var at := Positions(rows, OfCourse(c), |rows|);
    forall k | 0 <= k < |group| ensures group[k].course == c { assert OfCourse(c)(rows[at[k]]); }
  }

  // The place in its group of a row of course `c`.
  lemma PlaceInGroup(rows: seq<SectionRow>, c: CourseId, group: seq<SectionRow>, i: nat) returns (k: nat)
    requires Filtered(rows, OfCourse(c), group) && i < |rows| && rows[i].course == c
    ensures k < |group| && group[k] == rows[i] && Positions(rows, OfCourse(c), |rows|)[k] == i
  {
    var at := Positions(rows, OfCourse(c), |rows|);
    assert OfCourse(c)(rows[i]) && i in at;
    k :| 0 <= k < |at| && at[k] == i;
  }

  lemma InGroupOrder(rows: seq<SectionRow>, c: CourseId, i: nat, j: nat, k: nat, l: nat)
    requires var at := Positions(rows, OfCourse(c), |rows|); k < |at| && l < |at| && at[k] == i && at[l] == j
    ensures i < j <==> k < l
  {
    var at := Positions(rows, OfCourse(c), |rows|);
    if l < k { assert at[l] < at[k]; }
  }

  lemma GroupPasses(rows: seq<SectionRow>, c: CourseId, group: seq<SectionRow>)
    requires Filtered(rows, OfCourse(c), group) && PairingOk(rows)
    ensures PairingOk(group)
  {
    GroupOneCourse(rows, c, group);
    var at := Positions(rows, OfCourse(c), |rows|);
    forall i, j | 0 <= i < j < |group| && SameCourse(group, i, j) ensures SameCourse(rows, at[i], at[j]) {}
    assert OneLab(group) && TheoryLinked(group);
    forall i | 0 <= i < |group| && group[i].requiresLab
      ensures exists j :: 0 <= j < |group| && SameCourse(group, i, j) && IsLab(group[j])
    {
      var n :| 0 <= n < |rows| && SameCourse(rows, at[i], n) && IsLab(rows[n]);
      var k := PlaceInGroup(rows, c, group, n);
      assert SameCourse(group, i, k);
    }
    forall i | 0 <= i < |group| && IsLab(group[i])
      ensures exists j :: 0 <= j < |group| && SameCourse(group, i, j) && IsTheory(group[j])
    {
      var n :| 0 <= n < |rows| && SameCourse(rows, at[i], n) && IsTheory(rows[n]);
      var k := PlaceInGroup(rows, c, group, n);
      assert SameCourse(group, i, k);
    }
  }

  lemma GroupsSuffice(rows: seq<SectionRow>, byCourse: map<CourseId, seq<SectionRow>>)
    requires Grouped(rows, byCourse)
    requires forall c :: c in byCourse ==> PairingOk(byCourse[c])
    ensures PairingOk(rows)
  {
    forall i, j | 0 <= i < j < |rows| && SameCourse(rows, i, j)
      ensures !(IsLab(rows[i]) && IsLab(rows[j]))
      ensures IsTheory(rows[i]) && IsTheory(rows[j]) ==> Linked(rows[i], rows[j])
    {
      PairFromGroup(rows, byCourse, i, j);
    }
    forall i, j, k | 0 <= i < j < k < |rows| && SameCourse(rows, i, j) && SameCourse(rows, j, k)
      ensures !(IsTheory(rows[i]) && IsTheory(rows[j]) && IsTheory(rows[k]))
    {
      TripleFromGroup(rows, byCourse, i, j, k);
    }
    forall i | 0 <= i < |rows|
      ensures rows[i].requiresLab ==> exists j :: 0 <= j < |rows| && SameCourse(rows, i, j) && IsLab(rows[j])
      ensures IsLab(rows[i]) ==> exists j :: 0 <= j < |rows| && SameCourse(rows, i, j) && IsTheory(rows[j])
    {
      PresenceFromGroup(rows, byCourse, i);
    }
  }

  lemma PairFromGroup(rows: seq<SectionRow>, byCourse: map<CourseId, seq<SectionRow>>, i: nat, j: nat)
    requires Grouped(rows, byCourse) && i < j < |rows| && SameCourse(rows, i, j)
    requires forall c :: c in byCourse ==> PairingOk(byCourse[c])
    ensures !(IsLab(rows[i]) && IsLab(rows[j]))
    ensures IsTheory(rows[i]) && IsTheory(rows[j]) ==> Linked(rows[i], rows[j])
  {
    var c := rows[i].course;
    assert rows[i] in rows;
    var k := PlaceInGroup(rows, c, byCourse[c], i);
    var l := PlaceInGroup(rows, c, byCourse[c], j);
    InGroupOrder(rows, c, i, j, k, l);
    assert SameCourse(byCourse[c], k, l);
  }

  lemma TripleFromGroup(rows: seq<SectionRow>, byCourse: map<CourseId, seq<SectionRow>>, i: nat, j: nat, n: nat)
    requires Grouped(rows, byCourse) && i < j < n < |rows| && SameCourse(rows, i, j) && SameCourse(rows, j, n)
    requires forall c :: c in byCourse ==> PairingOk(byCourse[c])
    ensures !(IsTheory(rows[i]) && IsTheory(rows[j]) && IsTheory(rows[n]))
  {
    var c := rows[i].course;
    assert rows[i] in rows;
    var k := PlaceInGroup(rows, c, byCourse[c], i);
    var l := PlaceInGroup(rows, c, byCourse[c], j);
    var m := PlaceInGroup(rows, c, byCourse[c], n);
    InGroupOrder(rows, c, i, j, k, l);
    InGroupOrder(rows, c, j, n, l, m);
    assert SameCourse(byCourse[c], k, l) && SameCourse(byCourse[c], l, m);
  }

  lemma PresenceFromGroup(rows: seq<SectionRow>, byCourse: map<CourseId, seq<SectionRow>>, i: nat)
    requires Grouped(rows, byCourse) && i < |rows|
    requires forall c :: c in byCourse ==> PairingOk(byCourse[c])
    ensures rows[i].requiresLab ==> exists j :: 0 <= j < |rows| && SameCourse(rows, i, j) && IsLab(rows[j])
    ensures IsLab(rows[i]) ==> exists j :: 0 <= j < |rows| && SameCourse(rows, i, j) && IsTheory(rows[j])
  {
    var c := rows[i].course;
    assert rows[i] in rows;
    var group := byCourse[c];
    var k := PlaceInGroup(rows, c, group, i);
    if rows[i].requiresLab {
      var l :| 0 <= l < |group| && SameCourse(group, k, l) && IsLab(group[l]);
      var j := PlaceInList(rows, c, group, l);
      assert SameCourse(rows, i, j);
    }
    if IsLab(rows[i]) {
      var l :| 0 <= l < |group| && SameCourse(group, k, l) && IsTheory(group[l]);
      var j := PlaceInList(rows, c, group, l);
      assert SameCourse(rows, i, j);
    }
  }

  // The place in the list of a row of a group.
  lemma PlaceInList(rows: seq<SectionRow>, c: CourseId, group: seq<SectionRow>, l: nat) returns (j: nat)
    requires Filtered(rows, OfCourse(c), group) && l < |group|
    ensures j < |rows| && rows[j] == group[l] && rows[j].course == c
  {
    j := Positions(rows, OfCourse(c), |rows|)[l];
    assert OfCourse(c)(rows[j]);
  }

  // ---- Rows against codes ----

  predicate SameCode(rows: seq<SectionRow>, i: nat, j: nat)
    requires i < |rows| && j < |rows|
  {
    rows[i].code == rows[j].code
  }

  ghost predicate OneLabCode(rows: seq<SectionRow>) {
    forall i, j :: 0 <= i < j < |rows| && SameCourse(rows, i, j) && IsLab(rows[i]) && IsLab(rows[j]) ==>
      SameCode(rows, i, j)
  }

  ghost predicate TheoryCodesLinked(rows: seq<SectionRow>) {
    forall i, j :: 0 <= i < j < |rows| && SameCourse(rows, i, j) && IsTheory(rows[i]) && IsTheory(rows[j]) ==>
      SameCode(rows, i, j) || Linked(rows[i], rows[j])
  }

  predicate TheoryTriple(rows: seq<SectionRow>, i: nat, j: nat, k: nat) {
    && i < j < k < |rows| && SameCourse(rows, i, j) && SameCourse(rows, j, k)
    && IsTheory(rows[i]) && IsTheory(rows[j]) && IsTheory(rows[k])
  }

  predicate ThreeCodes(rows: seq<SectionRow>, i: nat, j: nat, k: nat)
    requires i < |rows| && j < |rows| && k < |rows|
  {
    !SameCode(rows, i, j) && !SameCode(rows, j, k) && !SameCode(rows, i, k)
  }

  ghost predicate TwoTheoryCodes(rows: seq<SectionRow>) {
    forall i: nat, j: nat, k: nat :: TheoryTriple(rows, i, j, k) ==> !ThreeCodes(rows, i, j, k)
  }

  // The rule as a limit on section codes, however many rows a code has.
  ghost predicate CodePairingOk(rows: seq<SectionRow>) {
    OneLabCode(rows) && TheoryCodesLinked(rows) && TwoTheoryCodes(rows) && LabPresent(rows) && TheoryPresent(rows)
  }

  // A lab code listed with two rows.
  ghost predicate RepeatedLab(rows: seq<SectionRow>) {
    exists i, j :: 0 <= i < j < |rows| && SameCourse(rows, i, j) && SameCode(rows, i, j) && IsLab(rows[i])
      && IsLab(rows[j])
  }

  // A theory code listed with two rows and not linked to itself.
  ghost predicate RepeatedTheory(rows: seq<SectionRow>) {
    exists i, j :: 0 <= i < j < |rows| && SameCourse(rows, i, j) && SameCode(rows, i, j)
                   && IsTheory(rows[i]) && IsTheory(rows[j]) && !Linked(rows[i], rows[j])
  }

  // Three theory rows of a course with fewer than three codes.
  ghost predicate CrowdedTheory(rows: seq<SectionRow>) {
    exists i: nat, j: nat, k: nat :: TheoryTriple(rows, i, j, k) && !ThreeCodes(rows, i, j, k)
  }

  ghost predicate RepeatedCode(rows: seq<SectionRow>) {
    RepeatedLab(rows) || RepeatedTheory(rows) || CrowdedTheory(rows)
  }

  // The check counts rows: it is the rule about codes exactly where no code of
  // the rule is listed twice.
  lemma RowsVersusCodes(rows: seq<SectionRow>)
    ensures PairingOk(rows) <==> CodePairingOk(rows) && !RepeatedCode(rows)
  {
    LabRowsVersusCodes(rows);
    TheoryRowsVersusCodes(rows);
    TheoryCountVersusCodes(rows);
  }

  lemma LabRowsVersusCodes(rows: seq<SectionRow>)
    ensures OneLab(rows) <==> OneLabCode(rows) && !RepeatedLab(rows)
  {
  }

  lemma TheoryRowsVersusCodes(rows: seq<SectionRow>)
    ensures TheoryLinked(rows) <==> TheoryCodesLinked(rows) && !RepeatedTheory(rows)
  {
  }

  lemma TheoryCountVersusCodes(rows: seq<SectionRow>)
    ensures AtMostTwoTheory(rows) <==> TwoTheoryCodes(rows) && !CrowdedTheory(rows)
  {
    if AtMostTwoTheory(rows) {
      forall i: nat, j: nat, k: nat | i < |rows| && j < |rows| && k < |rows| ensures !TheoryTriple(rows, i, j, k) {}
    } else {
      var i, j, k :| 0 <= i < j < k < |rows| && SameCourse(rows, i, j) && SameCourse(rows, j, k)
                     && IsTheory(rows[i]) && IsTheory(rows[j]) && IsTheory(rows[k]);
      assert TheoryTriple(rows, i, j, k);
    }
  }

  // The limits of a longer list are limits of its last part.
  lemma LimitsInherited(asked: seq<SectionRow>, held: seq<SectionRow>)
    requires PairingOk(asked + held)
    ensures OneLab(held) && TheoryLinked(held) && AtMostTwoTheory(held)
  {
    PairsInherited(asked, held);
    TriplesInherited(asked, held);
  }

  lemma PairsInherited(asked: seq<SectionRow>, held: seq<SectionRow>)
    ensures OneLab(asked + held) ==> OneLab(held)
    ensures TheoryLinked(asked + held) ==> TheoryLinked(held)
  {
    var rows, n := asked + held, |asked|;
    forall i, j | 0 <= i < j < |held| && SameCourse(held, i, j)
      ensures SameCourse(rows, n + i, n + j) && rows[n + i] == held[i] && rows[n + j] == held[j]
    {
    }
  }

  lemma TriplesInherited(asked: seq<SectionRow>, held: seq<SectionRow>)
    requires AtMostTwoTheory(asked + held)
    ensures AtMostTwoTheory(held)
  {
    var n := |asked|;
    forall i, j, k | 0 <= i < j < k < |held| && SameCourse(held, i, j) && SameCourse(held, j, k)
      ensures !(IsTheory(held[i]) && IsTheory(held[j]) && IsTheory(held[k]))
    {
      NoTripleAt(asked + held, n + i, n + j, n + k);
    }
  }

  lemma NoTripleAt(rows: seq<SectionRow>, i: nat, j: nat, k: nat)
    requires AtMostTwoTheory(rows) && i < j < k < |rows| && SameCourse(rows, i, j) && SameCourse(rows, j, k)
    ensures !(IsTheory(rows[i]) && IsTheory(rows[j]) && IsTheory(rows[k]))
  {
  }

  // A student registered for all rows of such a code can add nothing more, not
  // even another course.
  lemma RepeatedCodeFails(asked: seq<SectionRow>, held: seq<SectionRow>)
    requires RepeatedCode(held)
    ensures !PairingOk(asked + held)
  {
    if PairingOk(asked + held) {
      LimitsInherited(asked, held);
      LabRowsVersusCodes(held);
      TheoryRowsVersusCodes(held);
      TheoryCountVersusCodes(held);
    }
  }

  // A lab code with two meetings: its first row passes beside its theory class,
  // and once both rows are registered the check fails on the same choice of codes.
  lemma TwoRowLabExample(theory: SectionRow, first: SectionRow, second: SectionRow)
    requires IsTheory(theory) && IsLab(first) && second == first.(id := second.id) && theory.course == first.course
    ensures PairingOk([theory, first]) && CodePairingOk([theory, first, second]) && !PairingOk([theory, first, second])
  {
    FirstRowPasses(theory, first);
    BothRowsPassAsCodes(theory, first, second);
    var held := [first, second];
    assert SameCourse(held, 0, 1) && SameCode(held, 0, 1);
    RepeatedCodeFails([theory], held);
    assert [theory] + held == [theory, first, second];
  }

  lemma FirstRowPasses(theory: SectionRow, first: SectionRow)
    requires IsTheory(theory) && IsLab(first) && theory.course == first.course
    ensures PairingOk([theory, first])
  {
    var one := [theory, first];
    assert SameCourse(one, 0, 1) && SameCourse(one, 1, 1) && SameCourse(one, 1, 0);
  }

  lemma BothRowsPassAsCodes(theory: SectionRow, first: SectionRow, second: SectionRow)
    requires IsTheory(theory) && IsLab(first) && second == first.(id := second.id) && theory.course == first.course
    ensures CodePairingOk([theory, first, second])
  {
    var two := [theory, first, second];
    assert OneLabCode(two) by {
      forall i, j | 0 <= i < j < 3 && IsLab(two[i]) && IsLab(two[j])
        ensures SameCode(two, i, j)
      {
        assert i == 1 && j == 2;
      }
    }
    PresentForAll(two, 1, 0);
  }

  // One lab row and one theory row of the same course serve every row of it.
  lemma PresentForAll(rows: seq<SectionRow>, lab: nat, theory: nat)
    requires lab < |rows| && theory < |rows| && IsLab(rows[lab]) && IsTheory(rows[theory])
    requires forall i :: 0 <= i < |rows| ==> rows[i].course == rows[lab].course && rows[i].course == rows[theory].course
    ensures LabPresent(rows) && TheoryPresent(rows)
  {
    forall i | 0 <= i < |rows| ensures SameCourse(rows, i, lab) && SameCourse(rows, i, theory) {}
  }
}
