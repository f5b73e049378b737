// Teaching weeks written as "25-32,34;36-42", and whether two such lists meet.
module WeekRange {
  import opened Prelude

  // ---- Characters ----

  predicate IsDigit(c: char) { '0' <= c <= '9' }

  // The white space of ECMAScript: what trim() removes and \s matches.
  predicate IsSpace(c: char) {
    c == '\t' || c == '\n' || c == '\U{0B}' || c == '\U{0C}' || c == '\r' || c == ' ' || c == '\U{A0}'
    || c == '\U{1680}' || '\U{2000}' <= c <= '\U{200A}' || c == '\U{2028}' || c == '\U{2029}'
    || c == '\U{202F}' || c == '\U{205F}' || c == '\U{3000}' || c == '\U{FEFF}'
  }

  predicate IsDash(c: char) { c == '\U{2013}' || c == '\U{2014}' || c == '\U{2212}' }

  predicate AllDigits(s: string) { s != "" && forall i :: 0 <= i < |s| ==> IsDigit(s[i]) }

  predicate AllSpaces(s: string) { forall i :: 0 <= i < |s| ==> IsSpace(s[i]) }

  function TrimStart(s: string): string {
    if s != "" && IsSpace(s[0]) then TrimStart(s[1..]) else s
  }

  function TrimEnd(s: string): string {
    if s != "" && IsSpace(s[|s| - 1]) then TrimEnd(s[..|s| - 1]) else s
  }

  function Trim(s: string): string { TrimEnd(TrimStart(s)) }

  function PlainDashes(s: string): string {
    seq(|s|, i requires 0 <= i < |s| => if IsDash(s[i]) then '-' else s[i])
  }

  // The pieces between semicolons and commas.
  function Split(s: string): (r: seq<string>)
    ensures |r| >= 1
  {
    if s == "" then [""]
    else
      var rest := Split(s[1..]);
      if s[0] == ';' || s[0] == ',' then [""] + rest
      else [[s[0]] + rest[0]] + rest[1..]
  }

  // ---- Numbers ----

  const MAX_SAFE: nat := 0x1F_FFFF_FFFF_FFFF
  // 2 to the power 1024 stands for the Number Infinity.
  const INFINITY: nat :=
      0x1_0000_0000_0000_0000_0000_0000_0000_0000_0000_0000_0000_0000_0000_0000_0000_0000_0000_0000_0000_0000_0000_0000_0000_0000_0000_0000_0000_0000_0000_0000_0000_0000_0000_0000_0000_0000_0000_0000_0000_0000_0000_0000_0000_0000_0000_0000_0000_0000_0000_0000_0000_0000_0000_0000_0000_0000_0000_0000_0000_0000_0000_0000_0000_0000

  function Pow2(n: nat): (r: nat)
    ensures r >= 1
  {
    if n == 0 then 1 else 2 * Pow2(n - 1)
  }

  function DigitsValue(s: string): nat
    requires forall i :: 0 <= i < |s| ==> IsDigit(s[i])
  {
    if s == "" then 0
    else
      assert IsDigit(s[|s| - 1]);
      10 * DigitsValue(s[..|s| - 1]) + (s[|s| - 1] as int - '0' as int)
  }

  // How many low bits of `n` a 53-bit significand cannot hold.
  function LostBits(n: nat): nat {
    if n <= MAX_SAFE then 0 else 1 + LostBits(n / 2)
  }

  // Number(digits): the nearest double, ties to even.
  function ToDouble(n: nat): nat {
    if n <= MAX_SAFE then n
    else
      var unit := Pow2(LostBits(n));
      var q, r := n / unit, n % unit;
      var v := (if 2 * r > unit || (2 * r == unit && q % 2 == 1) then q + 1 else q) * unit;
      if v >= INFINITY then INFINITY else v
  }

  // ---- Tokens ----

  datatype Token = Blank | Range(a: nat, b: nat) | Single(week: nat) | Bad

  // The end of the longest run of digits from `i`.
  function DigitsEnd(s: string, i: nat): (e: nat)
    requires i <= |s|
    ensures i <= e <= |s|
    ensures forall k :: i <= k < e ==> IsDigit(s[k])
    ensures e < |s| ==> !IsDigit(s[e])
    decreases |s| - i
  {
    if i < |s| && IsDigit(s[i]) then DigitsEnd(s, i + 1) else i
  }

  function SpacesEnd(s: string, i: nat): (e: nat)
    requires i <= |s|
    ensures i <= e <= |s|
    ensures forall k :: i <= k < e ==> IsSpace(s[k])
    ensures e < |s| ==> !IsSpace(s[e])
    decreases |s| - i
  {
    if i < |s| && IsSpace(s[i]) then SpacesEnd(s, i + 1) else i
  }

  // match(/^(\d+)\s*-\s*(\d+)$/): the ends of the four pieces, if it matches.
  function RangeCut(s: string): (r: Option<(nat, nat)>)
    ensures r.Some? ==> r.value.0 <= |s| && r.value.1 <= |s| && AllDigits(s[..r.value.0]) && AllDigits(s[r.value.1..])
  {
    var i := DigitsEnd(s, 0);
    var j := SpacesEnd(s, i);
    if i == 0 || j == |s| || s[j] != '-' then None
    else
      var k := SpacesEnd(s, j + 1);
      if k < |s| && DigitsEnd(s, k) == |s| then Some((i, k)) else None
  }

  // The regular expression as a statement about strings.
  ghost predicate IsRange(s: string, a: string, b: string) {
    AllDigits(a) && AllDigits(b) && exists x, y :: AllSpaces(x) && AllSpaces(y) && s == a + x + "-" + y + b
  }

  lemma RangeCutIsRange(s: string)
    requires RangeCut(s).Some?
    ensures IsRange(s, s[..RangeCut(s).value.0], s[RangeCut(s).value.1..])
  {
    var i := DigitsEnd(s, 0);
    var j := SpacesEnd(s, i);
    var k := SpacesEnd(s, j + 1);
    CutInFive(s, i, j, k);
  }

  lemma CutInFive(s: string, i: nat, j: nat, k: nat)
    requires i <= j < k <= |s| && s[j] == '-' && AllDigits(s[..i]) && AllDigits(s[k..])
    requires (forall n :: i <= n < j ==> IsSpace(s[n])) && (forall n :: j + 1 <= n < k ==> IsSpace(s[n]))
    ensures IsRange(s, s[..i], s[k..])
  {
    var x, y := s[i..j], s[j + 1..k];
    assert AllSpaces(x) && AllSpaces(y);
    assert s == s[..i] + x + "-" + y + s[k..];
  }

  // Concatenation read by position.
  lemma Pieces(a: string, x: string, y: string, b: string, s: string)
    requires s == a + x + "-" + y + b
    ensures |s| == |a| + |x| + 1 + |y| + |b|
    ensures s[|a| + |x|] == '-'
    ensures forall n :: 0 <= n < |a| ==> s[n] == a[n]
    ensures forall n :: |a| <= n < |a| + |x| ==> s[n] == x[n - |a|]
    ensures forall n :: |a| + |x| + 1 <= n < |s| - |b| ==> s[n] == y[n - |a| - |x| - 1]
    ensures forall n :: |s| - |b| <= n < |s| ==> s[n] == b[n - (|s| - |b|)]
  {
  }

  lemma IsRangeCut(s: string, a: string, b: string)
    requires IsRange(s, a, b)
    ensures RangeCut(s) == Some((|a|, |s| - |b|)) && a == s[..|a|] && b == s[|s| - |b|..]
  {
    var x, y :| AllSpaces(x) && AllSpaces(y) && s == a + x + "-" + y + b;
    Pieces(a, x, y, b, s);
    var j, k := |a| + |x|, |s| - |b|;
    EndsAt(s, |a|, j, k);
  }

  lemma EndsAt(s: string, i: nat, j: nat, k: nat)
    requires 0 < i <= j < k < |s| && s[j] == '-'
    requires (forall n :: 0 <= n < i ==> IsDigit(s[n])) && (forall n :: i <= n < j ==> IsSpace(s[n]))
    requires (forall n :: j + 1 <= n < k ==> IsSpace(s[n])) && (forall n :: k <= n < |s| ==> IsDigit(s[n]))
    ensures RangeCut(s) == Some((i, k))
  {
    DigitsRun(s, 0, i);
    SpacesRun(s, i, j);
    SpacesRun(s, j + 1, k);
    DigitsRun(s, k, |s|);
  }

  lemma DigitsRun(s: string, i: nat, e: nat)
    requires i <= e <= |s| && (forall k :: i <= k < e ==> IsDigit(s[k])) && (e < |s| ==> !IsDigit(s[e]))
    ensures DigitsEnd(s, i) == e
  {
  }

  lemma SpacesRun(s: string, i: nat, e: nat)
    requires i <= e <= |s| && (forall k :: i <= k < e ==> IsSpace(s[k])) && (e < |s| ==> !IsSpace(s[e]))
    ensures SpacesEnd(s, i) == e
  {
  }

  function ReadToken(raw: string): Token {
    var s := Trim(raw);
    if s == "" then Blank
    else
      match RangeCut(s)
      case Some(cut) =>
        var a, b := ToDouble(DigitsValue(s[..cut.0])), ToDouble(DigitsValue(s[cut.1..]));
        if a <= MAX_SAFE && b <= MAX_SAFE then Range(a, b) else Bad
      case None =>
        if AllDigits(s) then Single(ToDouble(DigitsValue(s))) else Bad
  }

  // The weeks one token stands for.
  predicate Covers(t: Token, week: nat) {
    match t
    case Range(a, b) => a <= week <= b || b <= week <= a
    case Single(w) => week == w
    case _ => false
  }

  // ---- The list ----

  function Tokens(value: Option<string>): seq<string> {
    if value.None? then []
    else
      var text := PlainDashes(Trim(value.value));
      if text == "" then [] else Split(text)
  }

  // The tokens of a week list, in order.
  function ReadAll(value: Option<string>): seq<Token> {
    var raws := Tokens(value);
    seq(|raws|, i requires 0 <= i < |raws| => ReadToken(raws[i]))
  }

  ghost predicate Readable(tokens: seq<Token>) { Bad !in tokens }

  ghost predicate Listed(tokens: seq<Token>, week: nat) {
    exists i :: 0 <= i < |tokens| && Covers(tokens[i], week)
  }

  method ParseWeekRange(value: Option<string>) returns (r: Option<set<nat>>)
    ensures r.Some? <==> Readable(ReadAll(value)) && exists week :: Listed(ReadAll(value), week)
    ensures r.Some? ==> r.value != {} && forall week :: week in r.value <==> Listed(ReadAll(value), week)
  {
    var raws := Tokens(value);
    ghost var tokens := ReadAll(value);
    var weeks: set<nat> := {};
    var n := 0;
    while n < |raws|
      invariant n <= |raws|
      invariant Readable(tokens[..n])
      invariant forall week :: week in weeks <==> Listed(tokens[..n], week)
    {
      var token := ReadToken(raws[n]);
      ListedOneMore(tokens, n);
      if token == Bad { return None; }
      weeks := AddToken(weeks, token);
      n := n + 1;
    }
    assert tokens[..n] == tokens;
    if weeks == {} { return None; }
    ghost var some: nat :| some in weeks;
    return Some(weeks);
  }

  method AddToken(weeks: set<nat>, token: Token) returns (r: set<nat>)
    ensures forall w :: w in r <==> w in weeks || Covers(token, w)
  {
    match token
    case Single(week) => r := weeks + {week};
    case Range(a, b) => r := AddWeeks(weeks, if a < b then a else b, if a < b then b else a);
    case _ => r := weeks;
  }

  method AddWeeks(weeks: set<nat>, from: nat, to: nat) returns (r: set<nat>)
    requires from <= to
    ensures forall w :: w in r <==> w in weeks || from <= w <= to
  {
    r := weeks;
    for week := from to to + 1
      invariant forall w :: w in r <==> w in weeks || from <= w < week
    {
      r := r + {week};
    }
  }

  lemma ListedOneMore(tokens: seq<Token>, n: nat)
    requires n < |tokens|
    ensures forall week :: Listed(tokens[..n + 1], week) <==> Listed(tokens[..n], week) || Covers(tokens[n], week)
    ensures Readable(tokens[..n + 1]) <==> Readable(tokens[..n]) && tokens[n] != Bad
  {
    var shorter, longer := tokens[..n], tokens[..n + 1];
    assert longer == shorter + [tokens[n]];
    forall week ensures Listed(longer, week) <==> Listed(shorter, week) || Covers(tokens[n], week) {
      if Listed(shorter, week) {
        var i :| 0 <= i < n && Covers(shorter[i], week);
        assert Covers(longer[i], week);
      }
      if Covers(tokens[n], week) { assert Covers(longer[n], week); }
    }
  }

  // No usable week list: nothing, only blanks, or a token that cannot be read.
  ghost predicate Unusable(value: Option<string>) {
    !Readable(ReadAll(value)) || !exists week :: Listed(ReadAll(value), week)
  }

  ghost predicate Overlap(a: Option<string>, b: Option<string>) {
    Unusable(a) || Unusable(b) || exists week :: Listed(ReadAll(a), week) && Listed(ReadAll(b), week)
  }

  method WeekRangesOverlap(a: Option<string>, b: Option<string>) returns (r: bool)
    ensures r <==> Overlap(a, b)
  {
    var aWeeks := ParseWeekRange(a);
    var bWeeks := ParseWeekRange(b);
    if aWeeks.None? || bWeeks.None? { return true; }
    var left := aWeeks.value;
    while left != {}
      invariant left <= aWeeks.value
      invariant forall week :: week in aWeeks.value && week !in left ==> week !in bWeeks.value
      decreases |left|
    {
      var week :| week in left;
      if week in bWeeks.value { return true; }
      left := left - {week};
    }
    return false;
  }

  // ---- What the text means ----

  lemma OverlapSymmetric(a: Option<string>, b: Option<string>)
    ensures Overlap(a, b) <==> Overlap(b, a)
  {
    if exists week :: Listed(ReadAll(a), week) && Listed(ReadAll(b), week) {
      var week :| Listed(ReadAll(a), week) && Listed(ReadAll(b), week);
      assert Listed(ReadAll(b), week) && Listed(ReadAll(a), week);
    }
  }

  // Equal, or the same range with its endpoints reversed.
  predicate Alike(s: Token, t: Token) {
    s == t || (s.Range? && t.Range? && s.a == t.b && s.b == t.a)
  }

  ghost predicate Within(p: seq<Token>, q: seq<Token>) {
    forall s :: s in p && s != Blank ==> exists t :: t in q && Alike(s, t)
  }

  // Order, repetition, blank tokens and reversed endpoints do not matter.
  lemma TokenOrderIrrelevant(p: seq<Token>, q: seq<Token>, week: nat)
    requires Within(p, q) && Within(q, p)
    ensures Readable(p) <==> Readable(q)
    ensures Listed(p, week) <==> Listed(q, week)
  {
    OneSided(p, q, week);
    OneSided(q, p, week);
  }

  lemma OneSided(p: seq<Token>, q: seq<Token>, week: nat)
    requires Within(p, q)
    ensures Readable(q) ==> Readable(p)
    ensures Listed(p, week) ==> Listed(q, week)
  {
    if !Readable(p) {
      var t :| t in q && Alike(Bad, t);
    }
    if Listed(p, week) {
      var i :| 0 <= i < |p| && Covers(p[i], week);
      assert p[i] in p;
      var t :| t in q && Alike(p[i], t);
      assert Covers(t, week);
    }
  }

  // A range is accepted exactly when both written endpoints are safe integers,
  // and then it means every week between them, in either order.
  lemma RangeToken(raw: string, a: string, b: string)
    requires IsRange(Trim(raw), a, b)
    ensures var m, n := DigitsValue(a), DigitsValue(b);
            ReadToken(raw) == if m <= MAX_SAFE && n <= MAX_SAFE then Range(m, n) else Bad
  {
    IsRangeCut(Trim(raw), a, b);
    UnsafeStaysUnsafe(DigitsValue(a));
    UnsafeStaysUnsafe(DigitsValue(b));
  }

  lemma UnsafeStaysUnsafe(n: nat)
    ensures ToDouble(n) <= MAX_SAFE <==> n <= MAX_SAFE
  {
    if n > MAX_SAFE {
      var unit := Pow2(LostBits(n));
      LostBitsBound(n);
      var q := n / unit;
      assert q >= 0x10_0000_0000_0000 && unit >= 2;
      var v := (if 2 * (n % unit) > unit || (2 * (n % unit) == unit && q % 2 == 1) then q + 1 else q) * unit;
      ProductAtLeast(if 2 * (n % unit) > unit || (2 * (n % unit) == unit && q % 2 == 1) then q + 1 else q, unit);
    }
  }

  lemma ProductAtLeast(q: nat, unit: nat)
    requires q >= 0x10_0000_0000_0000 && unit >= 2
    ensures q * unit >= 0x20_0000_0000_0000
  {
    assert q * unit >= q * 2;
  }

  lemma {:induction false} LostBitsBound(n: nat)
    requires n > MAX_SAFE
    ensures LostBits(n) >= 1 && Pow2(LostBits(n)) >= 2
    ensures n / Pow2(LostBits(n)) >= 0x10_0000_0000_0000
  {
    var half := n / 2;
    if half <= MAX_SAFE {
      assert LostBits(half) == 0 && Pow2(1) == 2;
    } else {
      LostBitsBound(half);
      var p := Pow2(LostBits(half));
      assert Pow2(LostBits(n)) == 2 * p;
      HalfThenDivide(n, p);
    }
  }

  lemma HalfThenDivide(n: nat, p: nat)
    requires p >= 1
    ensures n / (2 * p) == n / 2 / p
  {
    var q := n / 2 / p;
    var r := n / 2 % p;
    assert n / 2 == q * p + r;
    assert n == (2 * p) * q + (2 * r + n % 2);
    assert 0 <= 2 * r + n % 2 < 2 * p;
    DivideUnique(n, 2 * p, q, 2 * r + n % 2);
  }

  lemma TimesAtLeast(d: nat, k: nat)
    requires k >= 1
    ensures d * k >= d
  {
  }

  lemma DivideUnique(n: nat, d: nat, q: nat, r: nat)
    requires d >= 1 && n == d * q + r && r < d
    ensures n / d == q
  {
    var p := n / d;
    assert d * p <= n < d * p + d;
    assert d * (p - q) < d && d * (q - p) < d;
    if p > q { TimesAtLeast(d, p - q); }
    if q > p { TimesAtLeast(d, q - p); }
  }

  // A token without a range is one week or unreadable.
  lemma SingleToken(raw: string)
    requires Trim(raw) != "" && forall a, b :: !IsRange(Trim(raw), a, b)
    ensures ReadToken(raw) == if AllDigits(Trim(raw)) then Single(ToDouble(DigitsValue(Trim(raw)))) else Bad
  {
    if RangeCut(Trim(raw)).Some? { RangeCutIsRange(Trim(raw)); }
  }
}
