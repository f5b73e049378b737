// The CSV printer of the dashboard export and the line parser of the imports.
module Csv {
  // A cell of the export; a number comes with its JavaScript text.
  datatype Cell = Text(text: string) | Number(digits: string) | Null

  function Raw(cell: Cell): string {
    match cell
    case Text(s) => s
    case Number(s) => s
    case Null => ""
  }

  // ---- The printer ----

  // Every quote doubled.
  function Doubled(s: string): string {
    if s == "" then ""
    else (if s[0] == '"' then "\"\"" else [s[0]]) + Doubled(s[1..])
  }

  predicate Special(c: char) { c == '"' || c == ',' || c == '\n' || c == '\r' }

  predicate HasSpecial(s: string) { exists i :: 0 <= i < |s| && Special(s[i]) }

  function Escape(s: string): string {
    if HasSpecial(Doubled(s)) then "\"" + Doubled(s) + "\"" else Doubled(s)
  }

  function EscapeCsvCell(value: Cell): string { Escape(Raw(value)) }

  // The escaped cells with commas between them.
  function Line(row: seq<Cell>): string {
    if row == [] then ""
    else if |row| == 1 then EscapeCsvCell(row[0])
    else EscapeCsvCell(row[0]) + "," + Line(row[1..])
  }

  function RawRow(row: seq<Cell>): (r: seq<string>)
    ensures |r| == |row|
  {
    seq(|row|, k requires 0 <= k < |row| => Raw(row[k]))
  }

  lemma {:induction false} DoubledSame(s: string)
    requires '"' !in s
    ensures Doubled(s) == s
  {
    if s != "" { DoubledSame(s[1..]); }
  }

  lemma {:induction false} DoubledKeeps(s: string, c: char)
    ensures c in Doubled(s) <==> c in s
  {
    if s != "" {
      DoubledKeeps(s[1..], c);
      assert s == [s[0]] + s[1..];
    }
  }

  // A cell is quoted exactly when it holds a comma, a quote or a line break, and
  // printed as it is otherwise.
  lemma QuotedExactly(cell: Cell)
    ensures EscapeCsvCell(cell) ==
            if ',' in Raw(cell) || '"' in Raw(cell) || '\n' in Raw(cell) || '\r' in Raw(cell)
            then "\"" + Doubled(Raw(cell)) + "\"" else Raw(cell)
  {
    var raw := Raw(cell);
    DoubledKeeps(raw, ',');
    DoubledKeeps(raw, '"');
    DoubledKeeps(raw, '\n');
    DoubledKeeps(raw, '\r');
    if '"' !in raw { DoubledSame(raw); }
    if c :| c in Doubled(raw) && Special(c) {
      var i :| 0 <= i < |Doubled(raw)| && Doubled(raw)[i] == c;
      assert HasSpecial(Doubled(raw));
    }
  }

  // ---- The line parser ----

  // The loop from a position on: `current` is the cell being read.
  function ParseFrom(line: string, current: string, inQuotes: bool, values: seq<string>): seq<string>
    decreases |line|
  {
    if line == "" then values + [current]
    else if line[0] == '"' then
      if inQuotes && |line| > 1 && line[1] == '"' then ParseFrom(line[2..], current + "\"", inQuotes, values)
      else ParseFrom(line[1..], current, !inQuotes, values)
    else if line[0] == ',' && !inQuotes then ParseFrom(line[1..], "", inQuotes, values + [current])
    else ParseFrom(line[1..], current + [line[0]], inQuotes, values)
  }

  function Parsed(line: string): seq<string> { ParseFrom(line, "", false, []) }

  method ParseCsvLine(line: string) returns (values: seq<string>)
    ensures values == Parsed(line)
  {
    values := [];
    var current := "";
    var inQuotes := false;
    var index := 0;
    while index < |line|
      invariant index <= |line|
      invariant ParseFrom(line[index..], current, inQuotes, values) == Parsed(line)
    {
      var ch := line[index];
      if ch == '"' {
        if inQuotes && index + 1 < |line| && line[index + 1] == '"' {
          assert line[index..][2..] == line[index + 2..];
          current := current + "\"";
          index := index + 1;
        } else {
          inQuotes := !inQuotes;
        }
      } else if ch == ',' && !inQuotes {
        values := values + [current];
        current := "";
      } else {
        current := current + [ch];
      }
      index := index + 1;
    }
    values := values + [current];
  }

  // ---- Round trip of a line ----

  predicate EndsCell(rest: string) { rest == "" || rest[0] == ',' }

  // Inside quotes the doubled text comes back and the closing quote ends it.
  // The doubled text, the closing quote and what follows.
  function Closed(s: string, rest: string): string { Doubled(s) + "\"" + rest }

  lemma {:induction false} ReadQuoted(s: string, rest: string, current: string, values: seq<string>)
    requires EndsCell(rest)
    ensures ParseFrom(Closed(s, rest), current, true, values) == ParseFrom(rest, current + s, false, values)
    decreases |s|
  {
    if s == "" {
      ClosedEmpty(rest);
      assert current + "" == current;
    } else {
      ClosedFirst(s[0], s[1..], rest);
      assert [s[0]] + s[1..] == s;
      ReadQuotedChar(s[0], Closed(s[1..], rest), current, values);
      ReadQuoted(s[1..], rest, current + [s[0]], values);
      assert current + [s[0]] + s[1..] == current + s;
    }
  }

  lemma ClosedEmpty(rest: string)
    ensures Closed("", rest) != "" && Closed("", rest)[0] == '"' && Closed("", rest)[1..] == rest
  {
  }

  lemma ClosedFirst(c: char, s: string, rest: string)
    ensures Closed([c] + s, rest) == DoubledChar(c) + Closed(s, rest)
  {
    assert ([c] + s)[1..] == s;
    Joined(DoubledChar(c), Doubled(s), "\"");
    Joined(DoubledChar(c), Doubled(s) + "\"", rest);
  }

  lemma Joined(a: string, b: string, c: string)
    ensures a + b + c == a + (b + c)
  {
  }

  function DoubledChar(c: char): string { if c == '"' then "\"\"" else [c] }

  lemma ReadQuotedChar(c: char, tail: string, current: string, values: seq<string>)
    ensures ParseFrom(DoubledChar(c) + tail, current, true, values) == ParseFrom(tail, current + [c], true, values)
  {
    var line := DoubledChar(c) + tail;
    if c == '"' { assert line[2..] == tail; } else { assert line[1..] == tail; }
  }

  lemma {:induction false} ReadPlain(s: string, rest: string, current: string, values: seq<string>)
    requires forall i :: 0 <= i < |s| ==> s[i] != '"' && s[i] != ','
    ensures ParseFrom(s + rest, current, false, values) == ParseFrom(rest, current + s, false, values)
    decreases |s|
  {
    if s == "" {
      assert s + rest == rest && current + s == current;
    } else {
      assert (s + rest)[1..] == s[1..] + rest;
      assert current + [s[0]] + s[1..] == current + s;
      ReadPlain(s[1..], rest, current + [s[0]], values);
    }
  }

  // Text without quotes is not doubled, and text with quotes is quoted.
  lemma {:induction false} PlainDoubled(s: string)
    ensures '"' in s ==> '"' in Doubled(s)
    ensures '"' !in s ==> Doubled(s) == s
    ensures forall c :: c != '"' ==> (c in Doubled(s) <==> c in s)
  {
    if s != "" {
      PlainDoubled(s[1..]);
      assert s == [s[0]] + s[1..];
      var head := if s[0] == '"' then "\"\"" else [s[0]];
      assert forall c :: c in Doubled(s) <==> c in head || c in Doubled(s[1..]);
    }
  }

  lemma SpecialOf(s: string)
    ensures HasSpecial(s) <==> exists c :: c in s && Special(c)
  {
    if c :| c in s && Special(c) {
      var i :| 0 <= i < |s| && s[i] == c;
    }
  }

  // A cell printed bare is its own text.
  lemma PrintedBare(s: string)
    requires !HasSpecial(Doubled(s))
    ensures Escape(s) == s
    ensures forall i :: 0 <= i < |s| ==> s[i] != '"' && s[i] != ','
  {
    PlainDoubled(s);
    SpecialOf(Doubled(s));
    forall i | 0 <= i < |s| ensures s[i] != '"' && s[i] != ',' { assert s[i] in s; }
  }

  lemma OpensQuoted(s: string, rest: string)
    requires HasSpecial(Doubled(s))
    ensures var line := Escape(s) + rest; line != "" && line[0] == '"' && line[1..] == Closed(s, rest)
  {
    Joined("\"", Doubled(s), "\"");
    Joined("\"", Doubled(s) + "\"", rest);
  }

  lemma ReadCell(s: string, rest: string, values: seq<string>)
    requires EndsCell(rest)
    ensures ParseFrom(Escape(s) + rest, "", false, values) == ParseFrom(rest, s, false, values)
  {
    assert "" + s == s;
    if HasSpecial(Doubled(s)) {
      OpensQuoted(s, rest);
      ReadQuoted(s, rest, "", values);
    } else {
      PrintedBare(s);
      ReadPlain(s, rest, "", values);
    }
  }

  lemma ReadComma(rest: string, current: string, values: seq<string>)
    ensures ParseFrom("," + rest, current, false, values) == ParseFrom(rest, "", false, values + [current])
  {
    assert ("," + rest)[1..] == rest;
  }

  lemma RawRowMore(row: seq<Cell>, values: seq<string>)
    requires row != []
    ensures values + [Raw(row[0])] + RawRow(row[1..]) == values + RawRow(row)
  {
    assert RawRow(row) == [Raw(row[0])] + RawRow(row[1..]);
  }

  lemma ReadLast(cell: Cell, values: seq<string>)
    ensures ParseFrom(EscapeCsvCell(cell), "", false, values) == values + [Raw(cell)]
  {
    ReadCell(Raw(cell), "", values);
    assert EscapeCsvCell(cell) + "" == EscapeCsvCell(cell);
  }

  lemma ReadFirst(cell: Cell, rest: string, values: seq<string>)
    ensures ParseFrom(EscapeCsvCell(cell) + "," + rest, "", false, values) ==
            ParseFrom(rest, "", false, values + [Raw(cell)])
  {
    assert EscapeCsvCell(cell) + "," + rest == EscapeCsvCell(cell) + ("," + rest);
    ReadCell(Raw(cell), "," + rest, values);
    ReadComma(rest, Raw(cell), values);
  }

  lemma {:induction false} ReadLine(row: seq<Cell>, values: seq<string>)
    requires row != []
    ensures ParseFrom(Line(row), "", false, values) == values + RawRow(row)
    decreases |row|
  {
    RawRowMore(row, values);
    if |row| == 1 {
      ReadLast(row[0], values);
      assert RawRow(row) == [Raw(row[0])];
    } else {
      ReadFirst(row[0], Line(row[1..]), values);
      ReadLine(row[1..], values + [Raw(row[0])]);
    }
  }

  // A printed row reads back as its cells exactly when it has a cell: the empty
  // row prints like the row of one empty cell.
  lemma LineRoundTrip(row: seq<Cell>)
    ensures Parsed(Line(row)) == RawRow(row) <==> row != []
  {
    if row != [] {
      ReadLine(row, []);
      assert [] + RawRow(row) == RawRow(row);
    } else {
      assert |Parsed("")| == 1;
    }
  }

  // ---- Round trip of a file ----

  const BOM := '\U{feff}'

  // The printed rows, each ended by a newline.
  function Lines(rows: seq<seq<Cell>>): string {
    if rows == [] then "" else Line(rows[0]) + "\n" + Lines(rows[1..])
  }

  // The export always has rows, so the last newline ends the last row.
  function Export(rows: seq<seq<Cell>>): string { [BOM] + Lines(rows) }

  // Cut at newlines, dropping a carriage return before each; `current` is the
  // line being read.
  function SplitLines(text: string, current: string): (lines: seq<string>)
    ensures lines != []
    decreases |text|
  {
    if text == "" then [current]
    else if text[0] == '\n' then [current] + SplitLines(text[1..], "")
    else if text[0] == '\r' && |text| > 1 && text[1] == '\n' then [current] + SplitLines(text[2..], "")
    else SplitLines(text[1..], current + [text[0]])
  }

  // The import strips one byte order mark.
  function StripBom(text: string): string { if text != "" && text[0] == BOM then text[1..] else text }

  function ParsedLines(lines: seq<string>): (r: seq<seq<string>>)
    ensures |r| == |lines|
  {
    seq(|lines|, k requires 0 <= k < |lines| => Parsed(lines[k]))
  }

  function Import(text: string): seq<seq<string>> { ParsedLines(SplitLines(StripBom(text), "")) }

  predicate OneLine(row: seq<Cell>) { forall k :: 0 <= k < |row| ==> '\n' !in Raw(row[k]) }

  // What a faithful import returns: the rows, and the empty line after the last newline.
  function Faithful(rows: seq<seq<Cell>>): seq<seq<string>> {
    if rows == [] then [[""]] else [RawRow(rows[0])] + Faithful(rows[1..])
  }

  // A line without '\n' that does not end in '\r' is split off whole.
  lemma {:induction false} SplitOne(line: string, rest: string, current: string)
    requires '\n' !in line && (line != "" ==> line[|line| - 1] != '\r')
    ensures SplitLines(line + "\n" + rest, current) == [current + line] + SplitLines(rest, "")
    decreases |line|
  {
    var text := line + "\n" + rest;
    if line == "" {
      assert text == "\n" + rest && text[1..] == rest && current + line == current;
    } else {
      assert text[1..] == line[1..] + "\n" + rest;
      assert line[0] in line;
      if |line| > 1 { assert line[1] in line && text[1] == line[1]; }
      SplitOne(line[1..], rest, current + [line[0]]);
      assert current + [line[0]] + line[1..] == current + line;
    }
  }

  // An escaped cell has a newline exactly when its text has one, and never ends in '\r'.
  lemma EscapedCell(s: string)
    ensures '\n' in Escape(s) <==> '\n' in s
    ensures Escape(s) != "" ==> Escape(s)[|Escape(s)| - 1] != '\r'
  {
    PlainDoubled(s);
    SpecialOf(Doubled(s));
    if HasSpecial(Doubled(s)) {
      assert Escape(s) == "\"" + Doubled(s) + "\"";
    } else if s != "" {
      assert s[|s| - 1] in Doubled(s);
    }
  }

  lemma {:induction false} PrintedLine(row: seq<Cell>)
    ensures '\n' in Line(row) <==> !OneLine(row)
    ensures Line(row) != "" ==> Line(row)[|Line(row)| - 1] != '\r'
  {
    if row != [] {
      EscapedCell(Raw(row[0]));
      if |row| > 1 {
        PrintedLine(row[1..]);
        assert Line(row) == EscapeCsvCell(row[0]) + "," + Line(row[1..]);
        assert OneLine(row) <==> '\n' !in Raw(row[0]) && OneLine(row[1..]);
      }
    }
  }

  lemma MoreLines(line: string, lines: seq<string>)
    ensures ParsedLines([line] + lines) == [Parsed(line)] + ParsedLines(lines)
  {
  }

  lemma {:induction false} ImportLines(rows: seq<seq<Cell>>)
    requires forall r :: r in rows ==> r != [] && OneLine(r)
    ensures ParsedLines(SplitLines(Lines(rows), "")) == Faithful(rows)
    decreases |rows|
  {
    if rows == [] {
      assert SplitLines("", "") == [""];
      assert Parsed("") == [""];
    } else {
      PrintedLine(rows[0]);
      LineRoundTrip(rows[0]);
      SplitOne(Line(rows[0]), Lines(rows[1..]), "");
      assert "" + Line(rows[0]) == Line(rows[0]);
      assert forall r :: r in rows[1..] ==> r in rows;
      ImportLines(rows[1..]);
      MoreLines(Line(rows[0]), SplitLines(Lines(rows[1..]), ""));
    }
  }

  function Newlines(text: string): nat {
    if text == "" then 0 else (if text[0] == '\n' then 1 else 0) + Newlines(text[1..])
  }

  lemma {:induction false} SplitCount(text: string, current: string)
    ensures |SplitLines(text, current)| == 1 + Newlines(text)
    decreases |text|
  {
    if text == "" {
    } else if text[0] == '\n' {
      SplitCount(text[1..], "");
    } else if text[0] == '\r' && |text| > 1 && text[1] == '\n' {
      assert text[1..][1..] == text[2..];
      SplitCount(text[2..], "");
    } else {
      SplitCount(text[1..], current + [text[0]]);
    }
  }

  lemma {:induction false} NewlinesPlus(a: string, b: string)
    ensures Newlines(a + b) == Newlines(a) + Newlines(b)
  {
    if a == "" {
      assert a + b == b;
    } else {
      assert (a + b)[1..] == a[1..] + b;
      NewlinesPlus(a[1..], b);
    }
  }

  lemma {:induction false} SomeNewline(text: string)
    ensures Newlines(text) > 0 <==> '\n' in text
  {
    if text != "" {
      SomeNewline(text[1..]);
      assert text == [text[0]] + text[1..];
    }
  }

  lemma {:induction false} LineCount(rows: seq<seq<Cell>>)
    ensures |Faithful(rows)| == 1 + |rows|
    ensures Newlines(Lines(rows)) >= |rows|
    ensures (exists r :: r in rows && !OneLine(r)) ==> Newlines(Lines(rows)) > |rows|
  {
    if rows != [] {
      var tail := Lines(rows[1..]);
      NewlinesPlus(Line(rows[0]) + "\n", tail);
      NewlinesPlus(Line(rows[0]), "\n");
      assert Newlines("\n") == 1 by { assert "\n"[1..] == ""; }
      SomeNewline(Line(rows[0]));
      PrintedLine(rows[0]);
      LineCount(rows[1..]);
      assert rows == [rows[0]] + rows[1..];
    }
  }

  // An empty row comes back as one empty cell, so the import is not faithful.
  lemma {:induction false} EmptyRowLost(rows: seq<seq<Cell>>)
    requires [] in rows && forall r :: r in rows ==> OneLine(r)
    ensures ParsedLines(SplitLines(Lines(rows), "")) != Faithful(rows)
    decreases |rows|
  {
    PrintedLine(rows[0]);
    SplitOne(Line(rows[0]), Lines(rows[1..]), "");
    var lines := SplitLines(Lines(rows), "");
    assert lines == [Line(rows[0])] + SplitLines(Lines(rows[1..]), "") by {
      assert "" + Line(rows[0]) == Line(rows[0]);
    }
    MoreLines(Line(rows[0]), SplitLines(Lines(rows[1..]), ""));
    LineRoundTrip(rows[0]);
    if rows[0] == [] {
      assert ParsedLines(lines)[0] != Faithful(rows)[0];
    } else {
      assert [] in rows[1..];
      EmptyRowLost(rows[1..]);
      assert Faithful(rows) == [RawRow(rows[0])] + Faithful(rows[1..]);
      assert ParsedLines(lines)[1..] != Faithful(rows)[1..];
    }
  }

  // An exported file imports back to its rows exactly when every row has a cell
  // and no cell holds a newline: the import cuts lines before it reads quotes.
  lemma FileRoundTrip(rows: seq<seq<Cell>>)
    ensures Import(Export(rows)) == Faithful(rows) <==> forall r :: r in rows ==> r != [] && OneLine(r)
  {
    var text := Lines(rows);
    assert StripBom(Export(rows)) == text;
    if forall r :: r in rows ==> r != [] && OneLine(r) {
      ImportLines(rows);
    } else if exists r :: r in rows && !OneLine(r) {
      SplitCount(text, "");
      LineCount(rows);
    } else {
      EmptyRowLost(rows);
    }
  }
}
