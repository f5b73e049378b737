// Week lists as people write them: printed from numbers, they read back as the
// weeks they name.
module WeekText {
  import opened Prelude
  import opened WeekRange
  import opened Timetable

  // ---- Decimal text ----

  lemma DigitsMore(s: string, c: char)
    requires (forall i :: 0 <= i < |s| ==> IsDigit(s[i])) && IsDigit(c)
    ensures forall i :: 0 <= i < |s + [c]| ==> IsDigit((s + [c])[i])
    ensures DigitsValue(s + [c]) == 10 * DigitsValue(s) + (c as int - '0' as int)
  {
    assert (s + [c])[..|s|] == s;
  }

  // The decimal text of a number is digits, and reads back as the number.
  lemma {:induction false} DecimalReads(n: nat)
    ensures AllDigits(NatText(n)) && DigitsValue(NatText(n)) == n
  {
    NatTextDigits(n);
    if n < 10 {
      assert NatText(n) == "" + NatText(n);
      DigitsMore("", DIGITS[n]);
    } else {
      DecimalReads(n / 10);
      DigitsMore(NatText(n / 10), DIGITS[n % 10]);
    }
  }

  // ---- Printing ----

  // One entry between separators, with its blanks: nothing, a week, or a range.
  datatype Piece =
    | Gap(blank: string)
    | One(left: string, week: nat, right: string)
    | Span(left: string, a: nat, before: string, dash: char, after: string, b: nat, right: string)

  const HYPHEN := '-'
  const EN_DASH := '\U{2013}'
  const EM_DASH := '\U{2014}'
  const MINUS := '\U{2212}'

  predicate Blanks(s: string) { forall i :: 0 <= i < |s| ==> s[i] == ' ' || s[i] == '\t' || s[i] == '\n' }

  predicate Writable(p: Piece) {
    match p
    case Gap(blank) => Blanks(blank)
    case One(left, _, right) => Blanks(left) && Blanks(right)
    case Span(left, _, before, dash, after, _, right) =>
      Blanks(left) && Blanks(before) && Blanks(after) && Blanks(right)
      && (dash == HYPHEN || dash == EN_DASH || dash == EM_DASH || dash == MINUS)
  }

  // The part between the outer blanks.
  function Core(p: Piece): string {
    match p
    case Gap(_) => ""
    case One(_, week, _) => NatText(week)
    case Span(_, a, before, dash, after, b, _) => NatText(a) + before + [dash] + after + NatText(b)
  }

  function PieceText(p: Piece): string {
    match p
    case Gap(blank) => blank
    case One(left, _, right) => left + Core(p) + right
    case Span(left, _, _, _, _, _, right) => left + Core(p) + right
  }

  // The entries in order, each after the first behind its separator.
  function ListText(first: Piece, rest: seq<(char, Piece)>): string
    decreases |rest|
  {
    if rest == [] then PieceText(first)
    else PieceText(first) + [rest[0].0] + ListText(rest[0].1, rest[1..])
  }

  predicate Separated(rest: seq<(char, Piece)>) {
    forall i :: 0 <= i < |rest| ==> (rest[i].0 == ';' || rest[i].0 == ',') && Writable(rest[i].1)
  }

  // The numbers JavaScript holds exactly.
  predicate SafePiece(p: Piece) {
    match p
    case Gap(_) => true
    case One(_, week, _) => week <= 9007199254740991
    case Span(_, a, _, _, _, b, _) => a <= 9007199254740991 && b <= 9007199254740991
  }

  // The weeks an entry names.
  predicate Names(p: Piece, week: nat) {
    match p
    case Gap(_) => false
    case One(_, w, _) => week == w
    case Span(_, a, _, _, _, b, _) => a <= week <= b || b <= week <= a
  }

  // ---- Characters of the text ----

  // A dash is neither a blank nor a separator, so replacing dashes goes piece by piece.
  lemma PlainPlus(s: string, t: string)
    ensures PlainDashes(s + t) == PlainDashes(s) + PlainDashes(t)
  {
  }

  lemma PlainSame(s: string)
    requires forall i :: 0 <= i < |s| ==> !IsDash(s[i])
    ensures PlainDashes(s) == s
  {
  }

  lemma {:induction false} PlainTrimStart(s: string)
    ensures PlainDashes(TrimStart(s)) == TrimStart(PlainDashes(s))
  {
    if s != "" && IsSpace(s[0]) {
      assert PlainDashes(s)[1..] == PlainDashes(s[1..]);
      PlainTrimStart(s[1..]);
    }
  }

  lemma {:induction false} PlainTrimEnd(s: string)
    ensures PlainDashes(TrimEnd(s)) == TrimEnd(PlainDashes(s))
  {
    if s != "" && IsSpace(s[|s| - 1]) {
      assert PlainDashes(s)[..|s| - 1] == PlainDashes(s[..|s| - 1]);
      PlainTrimEnd(s[..|s| - 1]);
    }
  }

  lemma PlainTrim(s: string)
    ensures PlainDashes(Trim(s)) == Trim(PlainDashes(s))
  {
    PlainTrimStart(s);
    PlainTrimEnd(TrimStart(s));
  }

  // ---- Trimming ----

  lemma {:induction false} StartsAfter(left: string, s: string)
    requires AllSpaces(left) && (s != "" ==> !IsSpace(s[0]))
    ensures TrimStart(left + s) == s
  {
    if left == "" { assert left + s == s; }
    else {
      assert (left + s)[1..] == left[1..] + s;
      StartsAfter(left[1..], s);
    }
  }

  lemma {:induction false} EndsBefore(s: string, right: string)
    requires AllSpaces(right) && (s != "" ==> !IsSpace(s[|s| - 1]))
    ensures TrimEnd(s + right) == s
  {
    if right == "" { assert s + right == s; }
    else {
      assert (s + right)[..|s + right| - 1] == s + right[..|right| - 1];
      EndsBefore(s, right[..|right| - 1]);
    }
  }

  lemma TrimsTo(left: string, core: string, right: string)
    requires AllSpaces(left) && AllSpaces(right) && core != "" && !IsSpace(core[0]) && !IsSpace(core[|core| - 1])
    ensures Trim(left + core + right) == core
  {
    assert left + core + right == left + (core + right);
    StartsAfter(left, core + right);
    EndsBefore(core, right);
  }

  lemma BlankTrims(blank: string)
    requires AllSpaces(blank)
    ensures Trim(blank) == ""
  {
    assert blank + "" == blank;
    StartsAfter(blank, "");
  }

  // ---- Splitting ----

  predicate NoSeparator(s: string) { forall i :: 0 <= i < |s| ==> s[i] != ';' && s[i] != ',' }

  lemma {:induction false} SplitOnce(s: string, sep: char, t: string)
    requires NoSeparator(s) && (sep == ';' || sep == ',')
    ensures Split(s + [sep] + t) == [s] + Split(t)
  {
    var all := s + [sep] + t;
    if s == "" {
      assert all[1..] == t;
    } else {
      assert all[1..] == s[1..] + [sep] + t;
      SplitOnce(s[1..], sep, t);
      assert [s[0]] + s[1..] == s;
    }
  }

  lemma {:induction false} SplitNone(s: string)
    requires NoSeparator(s)
    ensures Split(s) == [s]
  {
    if s != "" {
      SplitNone(s[1..]);
      assert [s[0]] + s[1..] == s;
    }
  }

  // ---- Trimming the whole text changes no token ----

  function Reads(raws: seq<string>): seq<Token> {
    seq(|raws|, i requires 0 <= i < |raws| => ReadToken(raws[i]))
  }

  lemma SpaceBefore(c: char, s: string)
    requires IsSpace(c)
    ensures ReadToken([c] + s) == ReadToken(s)
  {
    assert ([c] + s)[1..] == s;
  }

  lemma TrimmedEnd(s: string, c: char)
    requires IsSpace(c)
    ensures TrimEnd(s + [c]) == TrimEnd(s)
  {
    assert (s + [c])[..|s|] == s;
  }

  lemma {:induction false} SpaceAfterStart(s: string, c: char)
    requires IsSpace(c)
    ensures TrimStart(s + [c]) == if TrimStart(s) == "" then "" else TrimStart(s) + [c]
  {
    if s == "" {
      assert s + [c] == [c] && [c][1..] == "";
    } else {
      assert (s + [c])[1..] == s[1..] + [c];
      if IsSpace(s[0]) { SpaceAfterStart(s[1..], c); }
    }
  }

  lemma SpaceAfter(s: string, c: char)
    requires IsSpace(c)
    ensures ReadToken(s + [c]) == ReadToken(s)
  {
    SpaceAfterStart(s, c);
    if TrimStart(s) != "" { TrimmedEnd(TrimStart(s), c); }
  }

  lemma {:induction false} ReadsStart(s: string)
    ensures Reads(Split(TrimStart(s))) == Reads(Split(s))
  {
    if s != "" && IsSpace(s[0]) {
      ReadsStart(s[1..]);
      SpaceBefore(s[0], Split(s[1..])[0]);
    }
  }

  lemma SplitHead(c: char, s: string)
    ensures Split([c] + s) == if c == ';' || c == ',' then [""] + Split(s) else [[c] + Split(s)[0]] + Split(s)[1..]
  {
    assert ([c] + s)[1..] == s;
  }

  // The last piece with `c` behind it.
  function LastLonger(r: seq<string>, c: char): seq<string>
    requires r != []
  {
    r[..|r| - 1] + [r[|r| - 1] + [c]]
  }

  lemma {:induction false} SplitLast(s: string, c: char)
    requires c != ';' && c != ','
    ensures Split(s + [c]) == LastLonger(Split(s), c)
  {
    if s == "" {
      SplitHead(c, "");
      assert [c] + "" == [c] && "" + [c] == [c];
    } else {
      SplitLast(s[1..], c);
      SplitHead(s[0], s[1..] + [c]);
      assert s + [c] == [s[0]] + (s[1..] + [c]);
      LongerHead(s[0], Split(s[1..]), c);
    }
  }

  lemma LongerHead(a: char, t: seq<string>, c: char)
    requires t != []
    ensures LastLonger([""] + t, c) == [""] + LastLonger(t, c)
    ensures LastLonger([[a] + t[0]] + t[1..], c) == [[a] + LastLonger(t, c)[0]] + LastLonger(t, c)[1..]
  {
    if |t| == 1 { assert [a] + (t[0] + [c]) == ([a] + t[0]) + [c]; }
  }

  lemma LongerReads(r: seq<string>, c: char)
    requires r != [] && IsSpace(c)
    ensures Reads(LastLonger(r, c)) == Reads(r)
  {
    SpaceAfter(r[|r| - 1], c);
    var more := LastLonger(r, c);
    forall i | 0 <= i < |r| ensures ReadToken(more[i]) == ReadToken(r[i]) {
      if i < |r| - 1 { assert more[i] == r[i]; }
    }
  }

  lemma {:induction false} ReadsEnd(s: string)
    ensures Reads(Split(TrimEnd(s))) == Reads(Split(s))
  {
    if s != "" && IsSpace(s[|s| - 1]) {
      var t, c := s[..|s| - 1], s[|s| - 1];
      ReadsEnd(t);
      assert s == t + [c];
      SplitLast(t, c);
      LongerReads(Split(t), c);
    }
  }

  // What the tokens of a text mean, whether the outer blanks are cut off first or not.
  lemma WholeText(text: string)
    ensures var all := Reads(Split(PlainDashes(text)));
            (Readable(ReadAll(Some(text))) <==> Readable(all))
            && forall week :: Listed(ReadAll(Some(text)), week) <==> Listed(all, week)
  {
    PlainTrim(text);
    var plain := PlainDashes(text);
    ReadsStart(plain);
    ReadsEnd(TrimStart(plain));
    if Trim(plain) == "" {
      assert Reads(Split("")) == [Blank];
    } else {
      assert ReadAll(Some(text)) == Reads(Split(Trim(plain)));
    }
  }

  // ---- Each piece ----

  lemma BlanksAreSpaces(s: string)
    requires Blanks(s)
    ensures AllSpaces(s) && NoSeparator(s) && PlainDashes(s) == s
  {
    PlainSame(s);
  }

  lemma DecimalPlain(n: nat)
    ensures var s := NatText(n); AllDigits(s) && DigitsValue(s) == n && NoSeparator(s) && PlainDashes(s) == s
  {
    DecimalReads(n);
    PlainSame(NatText(n));
  }

  // The core with a plain hyphen.
  function PlainCore(p: Piece): string {
    match p
    case Span(_, a, before, _, after, b, _) => NatText(a) + before + "-" + after + NatText(b)
    case _ => Core(p)
  }

  lemma SpanPlain(p: Piece)
    requires Writable(p) && p.Span?
    ensures PlainDashes(Core(p)) == PlainCore(p) && NoSeparator(Core(p))
  {
    var x, y := NatText(p.a), NatText(p.b);
    DecimalPlain(p.a);
    DecimalPlain(p.b);
    BlanksAreSpaces(p.before);
    BlanksAreSpaces(p.after);
    PlainPlus(x, p.before);
    PlainPlus(x + p.before, [p.dash]);
    PlainPlus(x + p.before + [p.dash], p.after);
    PlainPlus(x + p.before + [p.dash] + p.after, y);
    assert PlainDashes([p.dash]) == "-";
  }

  lemma PieceReads(p: Piece)
    requires Writable(p) && SafePiece(p)
    ensures NoSeparator(PieceText(p))
    ensures forall week :: Covers(ReadToken(PlainDashes(PieceText(p))), week) <==> Names(p, week)
    ensures ReadToken(PlainDashes(PieceText(p))) != Bad
  {
    match p
    case Gap(blank) =>
      BlanksAreSpaces(blank);
      BlankTrims(blank);
    case One(left, week, right) => OneReads(left, week, right);
    case Span(left, a, before, dash, after, b, right) => SpanReads(p);
  }

  lemma OneReads(left: string, week: nat, right: string)
    requires Blanks(left) && Blanks(right) && week <= MAX_SAFE
    ensures NoSeparator(left + NatText(week) + right)
    ensures ReadToken(PlainDashes(left + NatText(week) + right)) == Single(week)
  {
    BlanksAreSpaces(left);
    BlanksAreSpaces(right);
    DecimalPlain(week);
    PlainPlus(left, NatText(week));
    PlainPlus(left + NatText(week), right);
    TrimsTo(left, NatText(week), right);
    NoRange(NatText(week));
    SingleToken(left + NatText(week) + right);
  }

  lemma NoRange(s: string)
    requires AllDigits(s)
    ensures forall a, b :: !IsRange(s, a, b)
  {
    forall a, b ensures !IsRange(s, a, b) {
      if IsRange(s, a, b) { RangeHasHyphen(s, a, b); }
    }
  }

  lemma RangeHasHyphen(s: string, a: string, b: string)
    requires IsRange(s, a, b)
    ensures !AllDigits(s)
  {
    var x, y :| AllSpaces(x) && AllSpaces(y) && s == a + x + "-" + y + b;
    Pieces(a, x, y, b, s);
    assert !IsDigit(s[|a| + |x|]);
  }

  lemma SpanReads(p: Piece)
    requires Writable(p) && p.Span? && SafePiece(p)
    ensures NoSeparator(PieceText(p)) && ReadToken(PlainDashes(PieceText(p))) == Range(p.a, p.b)
  {
    SpanPlain(p);
    BlanksAreSpaces(p.left);
    BlanksAreSpaces(p.right);
    PlainPlus(p.left, Core(p));
    PlainPlus(p.left + Core(p), p.right);
    BlanksAreSpaces(p.before);
    BlanksAreSpaces(p.after);
    DecimalPlain(p.a);
    DecimalPlain(p.b);
    SpanToken(p.left, NatText(p.a), p.before, p.after, NatText(p.b), p.right);
  }

  lemma SpanToken(left: string, a: string, x: string, y: string, b: string, right: string)
    requires AllSpaces(left) && AllSpaces(x) && AllSpaces(y) && AllSpaces(right) && AllDigits(a) && AllDigits(b)
    requires DigitsValue(a) <= MAX_SAFE && DigitsValue(b) <= MAX_SAFE
    ensures ReadToken(left + (a + x + "-" + y + b) + right) == Range(DigitsValue(a), DigitsValue(b))
  {
    var core := a + x + "-" + y + b;
    assert core[0] == a[0] && core[|core| - 1] == b[|b| - 1];
    TrimsTo(left, core, right);
    assert IsRange(core, a, b);
    RangeToken(left + core + right, a, b);
  }

  // ---- The whole list ----

  function AllPieces(first: Piece, rest: seq<(char, Piece)>): (all: seq<Piece>)
    ensures |all| == |rest| + 1 && all[0] == first
    ensures forall i :: 0 <= i < |rest| ==> all[i + 1] == rest[i].1
    decreases |rest|
  {
    [first] + if rest == [] then [] else AllPieces(rest[0].1, rest[1..])
  }

  lemma {:induction false} ListSplits(first: Piece, rest: seq<(char, Piece)>)
    requires Printable(first, rest)
    ensures Split(PlainDashes(ListText(first, rest))) == PlainTexts(AllPieces(first, rest))
    decreases |rest|
  {
    PieceReads(first);
    PlainKeepsSeparators(PieceText(first));
    if rest == [] {
      SplitNone(PlainDashes(PieceText(first)));
    } else {
      ListSplits(rest[0].1, rest[1..]);
      OneMorePiece(first, rest);
    }
  }

  function PlainTexts(pieces: seq<Piece>): seq<string> {
    seq(|pieces|, i requires 0 <= i < |pieces| => PlainDashes(PieceText(pieces[i])))
  }

  lemma OneMorePiece(first: Piece, rest: seq<(char, Piece)>)
    requires rest != [] && (rest[0].0 == ';' || rest[0].0 == ',') && NoSeparator(PlainDashes(PieceText(first)))
    requires Split(PlainDashes(ListText(rest[0].1, rest[1..]))) == PlainTexts(AllPieces(rest[0].1, rest[1..]))
    ensures Split(PlainDashes(ListText(first, rest))) == PlainTexts(AllPieces(first, rest))
  {
    var tail := ListText(rest[0].1, rest[1..]);
    PlainParts(PieceText(first), rest[0].0, tail);
    SplitOnce(PlainDashes(PieceText(first)), rest[0].0, PlainDashes(tail));
    TextsMore(first, AllPieces(rest[0].1, rest[1..]));
  }

  lemma TextsMore(first: Piece, more: seq<Piece>)
    ensures PlainTexts([first] + more) == [PlainDashes(PieceText(first))] + PlainTexts(more)
  {
    var all := [first] + more;
    forall i | 0 <= i < |all|
      ensures PlainTexts(all)[i] == ([PlainDashes(PieceText(first))] + PlainTexts(more))[i]
    {
      if i > 0 { assert all[i] == more[i - 1]; }
    }
  }

  lemma PlainParts(head: string, sep: char, tail: string)
    requires sep == ';' || sep == ','
    ensures PlainDashes(head + [sep] + tail) == PlainDashes(head) + [sep] + PlainDashes(tail)
  {
    PlainPlus(head, [sep]);
    PlainPlus(head + [sep], tail);
    assert PlainDashes([sep]) == [sep];
  }

  lemma PlainKeepsSeparators(s: string)
    requires NoSeparator(s)
    ensures NoSeparator(PlainDashes(s))
  {
  }

  // Some entry names the week.
  ghost predicate NamedIn(pieces: seq<Piece>, week: nat) {
    exists i :: 0 <= i < |pieces| && Names(pieces[i], week)
  }

  ghost predicate NamesAny(pieces: seq<Piece>) { exists week :: NamedIn(pieces, week) }

  lemma TextsRead(pieces: seq<Piece>)
    requires forall i :: 0 <= i < |pieces| ==> Writable(pieces[i]) && SafePiece(pieces[i])
    ensures Readable(Reads(PlainTexts(pieces)))
    ensures forall week :: Listed(Reads(PlainTexts(pieces)), week) <==> NamedIn(pieces, week)
  {
    var all := Reads(PlainTexts(pieces));
    forall i | 0 <= i < |pieces|
      ensures all[i] != Bad && forall week :: Covers(all[i], week) <==> Names(pieces[i], week)
    {
      PieceReads(pieces[i]);
    }
    forall week ensures Listed(all, week) <==> NamedIn(pieces, week) {
      if Listed(all, week) {
        var i :| 0 <= i < |all| && Covers(all[i], week);
        assert Names(pieces[i], week);
      }
      if NamedIn(pieces, week) {
        var i :| 0 <= i < |pieces| && Names(pieces[i], week);
        assert Covers(all[i], week);
      }
    }
  }

  // A printable list: separators are ';' or ',', and JavaScript holds every number exactly.
  predicate Printable(first: Piece, rest: seq<(char, Piece)>) {
    Writable(first) && SafePiece(first) && Separated(rest) && forall i :: 0 <= i < |rest| ==> SafePiece(rest[i].1)
  }

  lemma PiecesPrintable(first: Piece, rest: seq<(char, Piece)>)
    requires Printable(first, rest)
    ensures var all := AllPieces(first, rest); forall i :: 0 <= i < |all| ==> Writable(all[i]) && SafePiece(all[i])
  {
    var all := AllPieces(first, rest);
    forall i | 0 <= i < |all| ensures Writable(all[i]) && SafePiece(all[i]) {
      if i > 0 { assert all[i - 1 + 1] == rest[i - 1].1; }
    }
  }

  // A printed list reads back as exactly the weeks it names.
  lemma PrintedReads(first: Piece, rest: seq<(char, Piece)>)
    requires Printable(first, rest)
    ensures var read := ReadAll(Some(ListText(first, rest)));
            Readable(read) && forall week :: Listed(read, week) <==> NamedIn(AllPieces(first, rest), week)
  {
    WholeText(ListText(first, rest));
    ListSplits(first, rest);
    PiecesPrintable(first, rest);
    TextsRead(AllPieces(first, rest));
  }

  // ParseWeekRange on a printed list.
  method ParsePrinted(first: Piece, rest: seq<(char, Piece)>) returns (weeks: Option<set<nat>>)
    requires Printable(first, rest)
    ensures weeks.Some? <==> NamesAny(AllPieces(first, rest))
    ensures weeks.Some? ==> forall week :: week in weeks.value <==> NamedIn(AllPieces(first, rest), week)
  {
    PrintedReads(first, rest);
    weeks := ParseText(ListText(first, rest), AllPieces(first, rest));
  }

  method ParseText(text: string, ghost pieces: seq<Piece>) returns (weeks: Option<set<nat>>)
    requires Readable(ReadAll(Some(text)))
    requires forall week :: Listed(ReadAll(Some(text)), week) <==> NamedIn(pieces, week)
    ensures weeks.Some? <==> NamesAny(pieces)
    ensures weeks.Some? ==> forall week :: week in weeks.value <==> NamedIn(pieces, week)
  {
    SomeWeek(ReadAll(Some(text)), pieces);
    weeks := ParseWeekRange(Some(text));
  }

  lemma SomeWeek(a: seq<Token>, p: seq<Piece>)
    requires forall week :: Listed(a, week) <==> NamedIn(p, week)
    ensures (exists week :: Listed(a, week)) <==> NamesAny(p)
  {
    if week :| Listed(a, week) { assert NamedIn(p, week); }
    if week :| NamedIn(p, week) { assert Listed(a, week); }
  }

  // Two printed lists overlap exactly when one names no week or both name one week.
  lemma PrintedOverlap(first: Piece, rest: seq<(char, Piece)>, other: Piece, others: seq<(char, Piece)>)
    requires Printable(first, rest) && Printable(other, others)
    ensures var (p, q) := (AllPieces(first, rest), AllPieces(other, others));
            Overlap(Some(ListText(first, rest)), Some(ListText(other, others))) <==>
            !NamesAny(p) || !NamesAny(q)
            || exists week :: NamedIn(p, week) && NamedIn(q, week)
  {
    PrintedReads(first, rest);
    PrintedReads(other, others);
    OverlapFromReads(ReadAll(Some(ListText(first, rest))), ReadAll(Some(ListText(other, others))),
                     AllPieces(first, rest), AllPieces(other, others));
  }

  lemma OverlapFromReads(a: seq<Token>, b: seq<Token>, p: seq<Piece>, q: seq<Piece>)
    requires forall week :: Listed(a, week) <==> NamedIn(p, week)
    requires forall week :: Listed(b, week) <==> NamedIn(q, week)
    ensures (exists week :: Listed(a, week)) <==> NamesAny(p)
    ensures (exists week :: Listed(b, week)) <==> NamesAny(q)
    ensures (exists week :: Listed(a, week) && Listed(b, week)) <==>
            exists week :: NamedIn(p, week) && NamedIn(q, week)
  {
    if week :| Listed(a, week) { assert NamedIn(p, week); }
    if week :| Listed(b, week) { assert NamedIn(q, week); }
    if week :| NamedIn(p, week) { assert Listed(a, week); }
    if week :| NamedIn(q, week) { assert Listed(b, week); }
    if week :| Listed(a, week) && Listed(b, week) { assert NamedIn(p, week) && NamedIn(q, week); }
    if week :| NamedIn(p, week) && NamedIn(q, week) { assert Listed(a, week) && Listed(b, week); }
  }

  // A row without a week list overlaps every other.
  lemma AbsentOverlaps(other: Option<string>)
    ensures Overlap(None, other) && Overlap(other, None)
  {
    assert ReadAll(None) == [];
  }

  // ---- Texts that cannot be read ----

  lemma {:induction false} TrimStartKeeps(s: string, c: char)
    requires c in s && !IsSpace(c)
    ensures c in TrimStart(s)
  {
    if IsSpace(s[0]) {
      assert s == [s[0]] + s[1..];
      TrimStartKeeps(s[1..], c);
    }
  }

  lemma {:induction false} TrimEndKeeps(s: string, c: char)
    requires c in s && !IsSpace(c)
    ensures c in TrimEnd(s)
  {
    if IsSpace(s[|s| - 1]) {
      assert s == s[..|s| - 1] + [s[|s| - 1]];
      TrimEndKeeps(s[..|s| - 1], c);
    }
  }

  lemma {:induction false} SplitKeeps(s: string, c: char) returns (k: nat)
    requires c in s && c != ';' && c != ','
    ensures k < |Split(s)| && c in Split(s)[k]
  {
    assert s == [s[0]] + s[1..];
    SplitHead(s[0], s[1..]);
    if s[0] == c {
      k := 0;
    } else {
      k := SplitKeeps(s[1..], c);
      if s[0] == ';' || s[0] == ',' { k := k + 1; }
    }
  }

  predicate Junk(c: char) { !IsDigit(c) && !IsSpace(c) && !IsDash(c) && c != '-' && c != ';' && c != ',' }

  lemma JunkToken(raw: string, c: char)
    requires c in raw && Junk(c)
    ensures ReadToken(raw) == Bad
  {
    TrimStartKeeps(raw, c);
    TrimEndKeeps(TrimStart(raw), c);
    var s := Trim(raw);
    var i :| 0 <= i < |s| && s[i] == c;
    if RangeCut(s).Some? {
      RangeCutIsRange(s);
      NoJunkInRange(s, s[..RangeCut(s).value.0], s[RangeCut(s).value.1..], i);
    }
    assert !AllDigits(s);
  }

  lemma NoJunkInRange(s: string, a: string, b: string, i: nat)
    requires IsRange(s, a, b) && i < |s|
    ensures !Junk(s[i])
  {
    var x, y :| AllSpaces(x) && AllSpaces(y) && s == a + x + "-" + y + b;
    Pieces(a, x, y, b, s);
  }

  // One character that is neither digit, blank, dash nor separator makes the
  // whole list unusable.
  lemma JunkUnreadable(text: string, c: char)
    requires c in text && Junk(c)
    ensures !Readable(ReadAll(Some(text))) && forall other :: Overlap(Some(text), other) && Overlap(other, Some(text))
  {
    var plain := PlainDashes(text);
    var i :| 0 <= i < |text| && text[i] == c;
    assert plain[i] == c;
    var k := SplitKeeps(plain, c);
    JunkToken(Split(plain)[k], c);
    WholeText(text);
    assert Reads(Split(plain))[k] == Bad;
  }
}
