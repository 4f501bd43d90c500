/**
 Printing blocks as markdown and parsing them back.

 Canonical blocks survive printing and parsing unchanged.  The blocks of any parse are canonical except
 for two families, and re-parsing is the identity exactly outside them: headings whose text ends in '#',
 and paragraphs whose first line was an indented heading, which becomes a heading once its indentation has
 been trimmed away.
 */
module VerbatimRoundTrip {
  import opened Wrappers
  import opened Text
  import opened VerbatimBlocks

  // ---- Printing ----

  function PrintRow(row: seq<string>): string {
    "| " + Join(row, " | ") + " |"
  }

  function PrintRows(rows: seq<seq<string>>): (lines: seq<string>)
    ensures |lines| == |rows| && forall i | 0 <= i < |rows| :: lines[i] == PrintRow(rows[i])
  {
    seq(|rows|, i requires 0 <= i < |rows| => PrintRow(rows[i]))
  }

  function PrintBlock(b: Block): (lines: seq<string>)
    ensures lines != []
  {
    match b
    case Heading(level, text) => [Repeat('#', level) + " " + text]
    case Table(headers, rows) => [PrintRow(headers), PrintRow(Repeat("---", |headers|))] + PrintRows(rows)
    case Paragraph(text) => Split(text, '\n')
  }

  function PrintLines(blocks: seq<Block>): seq<string> {
    if blocks == [] then [] else PrintBlock(blocks[0]) + [""] + PrintLines(blocks[1..])
  }

  function Print(blocks: seq<Block>): string {
    Join(PrintLines(blocks), "\n")
  }

  // ---- Canonical blocks ----

  predicate CleanCell(c: string) {
    Trimmed(c) && '|' !in c && '\n' !in c
  }

  function Pieces(c: string): (p: seq<string>)
    ensures |p| >= 1
  {
    TrimAll(Split(c, '|'))
  }

  /** The cells the printed row splits into: a last cell made of joined pieces comes apart again. */
  function RowPieces(row: seq<string>): seq<string>
    requires row != []
  {
    row[..|row| - 1] + Pieces(row[|row| - 1])
  }

  predicate AllClean(cells: seq<string>) {
    forall i | 0 <= i < |cells| :: CleanCell(cells[i])
  }

  predicate CanonicalRow(row: seq<string>, width: nat) {
    && |row| == width >= 1
    && AllClean(RowPieces(row))
    && row[width - 1] == Join(Pieces(row[width - 1]), " | ")
    && !AllDashes(RowPieces(row))
  }

  predicate CanonicalTable(headers: seq<string>, rows: seq<seq<string>>) {
    && headers != [] && AllClean(headers) && !AllDashes(headers)
    && forall i | 0 <= i < |rows| :: CanonicalRow(rows[i], |headers|)
  }

  predicate CanonicalHeading(level: nat, text: string) {
    1 <= level <= 6 && text != "" && Trimmed(text) && OneLine(text) && (text == "#" || text[|text| - 1] != '#')
  }

  /** Consecutive lines that neither are headings nor start a table. */
  predicate Prosaic(lines: seq<string>) {
    && (forall i | 0 <= i < |lines| :: ParseHeading(lines[i]).None?)
    && (forall i | 0 <= i < |lines| - 1 :: !StartsTable(lines[i], lines[i + 1]))
  }

  predicate CanonicalParagraph(text: string) {
    && text != "" && Trimmed(text)
    && (forall i | 0 <= i < |Split(text, '\n')| :: !Blank(Split(text, '\n')[i]))
    && Prosaic(Split(text, '\n'))
  }

  predicate Canonical(b: Block) {
    match b
    case Heading(level, text) => CanonicalHeading(level, text)
    case Table(headers, rows) => CanonicalTable(headers, rows)
    case Paragraph(text) => CanonicalParagraph(text)
  }

  // ---- Blank lines separate ----

  lemma {:induction false} GroupBlank(current: seq<string>, a: seq<string>, b: seq<string>)
    ensures Group(current, a + [""] + b) == Group(current, a) + Group([], b)
    decreases |a|
  {
    hide Emit, Trim;
    var all := a + [""] + b;
    assert Trim("") == "" by { TrimToNothing(""); }
    if a == [] {
      assert all[0] == "" && all[1..] == b;
    } else {
      assert all[0] == a[0] && all[1..] == a[1..] + [""] + b;
      if Trim(a[0]) == "" {
        GroupBlank([], a[1..], b);
        assert Emit(current) + (Group([], a[1..]) + Group([], b)) == Emit(current) + Group([], a[1..]) + Group([], b);
      } else {
        GroupBlank(current + [a[0]], a[1..], b);
      }
    }
  }

  /** Pending lines before a blank line are settled, whatever follows. */
  lemma {:induction false} Detach(a: seq<string>, buffer: seq<string>, lines: seq<string>)
    ensures Parse(a + [""] + buffer, lines) == Group([], a) + Parse(buffer, lines)
    decreases |lines|
  {
    hide ParseHeading, StartsTable, BodyLength, TableOf, Group;
    GroupBlank([], a, buffer);
    if lines == [] {
    } else if ParseHeading(lines[0]).Some? {
      var tail := [Heading(ParseHeading(lines[0]).value.level, ParseHeading(lines[0]).value.text)] +
          Parse([], lines[1..]);
      assert Group([], a) + Group([], buffer) + tail == Group([], a) + (Group([], buffer) + tail);
    } else if |lines| > 1 && StartsTable(lines[0], lines[1]) {
      var n := BodyLength(lines[2..]);
      var tail := [TableOf(lines[0], lines[2..2 + n])] + Parse([], lines[2 + n..]);
      assert Group([], a) + Group([], buffer) + tail == Group([], a) + (Group([], buffer) + tail);
    } else {
      Detach(a, buffer + [lines[0]], lines[1..]);
      assert a + [""] + (buffer + [lines[0]]) == a + [""] + buffer + [lines[0]];
    }
  }

  lemma BlankLineIsSkipped(lines: seq<string>, rest: seq<string>)
    requires lines == [""] + rest
    ensures Parse([], lines) == Parse([], rest)
  {
    BlankIsProse("", if |lines| > 1 then lines[1] else "");
    Detach([], [], rest);
    hide ParseHeading, StartsTable, BodyLength, TableOf;
    assert lines[0] == "" && lines[1..] == rest;
    assert [] + [""] == [""] && [] + [""] + [] == [""];
    assert Group([], []) == [];
    assert Parse([], lines) == Parse([] + [lines[0]], lines[1..]);
  }

  // ---- Headings ----

  lemma {:induction false} HashesCounted(n: nat, rest: string)
    requires rest != "" && rest[0] != '#'
    ensures LeadingHashes(Repeat('#', n) + rest) == n
  {
    var s := Repeat('#', n) + rest;
    if n == 0 {
      assert s == rest;
    } else {
      assert s[1..] == Repeat('#', n - 1) + rest;
      HashesCounted(n - 1, rest);
    }
  }

  lemma PrintedHeading(level: nat, text: string)
    requires CanonicalHeading(level, text)
    ensures ParseHeading(Repeat('#', level) + " " + text) == Some(HeadingLine(level, text))
  {
    var line := Repeat('#', level) + " " + text;
    assert line == Repeat('#', level) + (" " + text);
    HashesCounted(level, " " + text);
    assert line[level..] == " " + text;
    TrimStartPadded(" ", text);
    assert TrimEnd(text) == text;
    if text == "#" {
      assert DropTrailingHashes("#") == DropTrailingHashes("#"[..0]) == "";
    } else {
      assert DropTrailingHashes(text) == text;
    }
  }

  // ---- Rows ----

  function Pad(c: string): string {
    " " + c + " "
  }

  function PadAll(cells: seq<string>): (r: seq<string>)
    ensures |r| == |cells| && forall i | 0 <= i < |r| :: r[i] == Pad(cells[i])
  {
    seq(|cells|, i requires 0 <= i < |cells| => Pad(cells[i]))
  }

  lemma {:induction false} PadJoined(cells: seq<string>)
    requires cells != []
    ensures Pad(Join(cells, " | ")) == Join(PadAll(cells), "|")
  {
    if |cells| > 1 {
      PadJoined(cells[1..]);
      assert PadAll(cells)[1..] == PadAll(cells[1..]);
      var x, y := cells[0], Join(cells[1..], " | ");
      assert " " + (x + " | " + y) + " " == (" " + x + " ") + "|" + (" " + y + " ");
    }
  }

  lemma PiecesOfPadded(cells: seq<string>)
    requires cells != [] && AllClean(cells)
    ensures TrimAll(Split(Pad(Join(cells, " | ")), '|')) == cells
  {
    PadJoined(cells);
    forall i | 0 <= i < |cells| ensures '|' !in PadAll(cells)[i] && Trim(PadAll(cells)[i]) == cells[i] {
      assert CleanCell(cells[i]);
      TrimPadded(" ", cells[i], " ");
    }
    SplitOfJoin(PadAll(cells), '|');
  }

  /** A printed row of clean cells splits back into exactly those cells. */
  lemma PrintedRow(cells: seq<string>)
    requires cells != [] && AllClean(cells)
    ensures Cells(PrintRow(cells)) == cells && '|' in PrintRow(cells) && PrintRow(cells)[0] == '|'
    ensures ParseHeading(PrintRow(cells)).None? && Trim(PrintRow(cells)) != ""
  {
    var line := PrintRow(cells);
    assert line[0] == '|' && line[|line| - 1] == '|';
    TrimOfTrimmed(line);
    assert line[1..][..|line| - 2] == Pad(Join(cells, " | ")) by {
      hide Join;
      assert line[1..] == Pad(Join(cells, " | ")) + "|";
    }
    PiecesOfPadded(cells);
    assert LeadingHashes(line) == 0;
  }

  lemma {:induction false} JoinUnnested(a: seq<string>, b: seq<string>, s: string)
    requires b != []
    ensures Join(a + [Join(b, s)], s) == Join(a + b, s)
  {
    if a == [] {
      assert a + b == b && a + [Join(b, s)] == [Join(b, s)];
    } else {
      var x, y := a + [Join(b, s)], a + b;
      assert x[0] == a[0] && x[1..] == a[1..] + [Join(b, s)] && y[0] == a[0] && y[1..] == a[1..] + b;
      JoinUnnested(a[1..], b, s);
    }
  }

  /** A canonical row, printed and reconciled with its width again, is itself: the tail of an over-wide
      row comes apart in the printed line and is joined again. */
  lemma PrintedCanonicalRow(row: seq<string>, width: nat)
    requires CanonicalRow(row, width)
    ensures Cells(PrintRow(row)) == RowPieces(row) && IsBodyRow(PrintRow(row))
    ensures Reconcile(Cells(PrintRow(row)), width) == row
  {
    var front, pieces := row[..width - 1], Pieces(row[width - 1]);
    JoinUnnested(front, pieces, " | ");
    assert row == front + [Join(pieces, " | ")];
    assert PrintRow(row) == PrintRow(front + pieces);
    PrintedRow(front + pieces);
    hide Cells, PrintRow, Pieces, Join, Trim, AllClean, AllDashes;
    if |pieces| == 1 {
      assert Join(pieces, " | ") == pieces[0] by { JoinOne(pieces); }
    } else {
      assert (front + pieces)[..width - 1] == front && (front + pieces)[width - 1..] == pieces;
    }
  }

  lemma JoinOne(parts: seq<string>)
    requires |parts| == 1
    ensures Join(parts, " | ") == parts[0]
  {
  }

  // ---- Tables ----

  lemma PrintedSeparator(width: nat)
    requires width >= 1
    ensures Cells(PrintRow(Repeat("---", width))) == Repeat("---", width) &&
            IsSeparatorRow(PrintRow(Repeat("---", width)))
  {
    var cells := Repeat("---", width);
    forall i | 0 <= i < width ensures CleanCell(cells[i]) && IsDashCell(cells[i]) {
      assert cells[i] == "---";
      assert "---"[0] == '-' && "---"[2] == '-';
    }
    PrintedRow(cells);
  }

  lemma {:induction false} PrintedBody(rows: seq<seq<string>>, width: nat, rest: seq<string>)
    requires width >= 1 && forall i | 0 <= i < |rows| :: CanonicalRow(rows[i], width)
    ensures BodyLength(PrintRows(rows) + [""] + rest) == |rows|
    ensures RowsOf(PrintRows(rows), width) == rows
  {
    hide Cells, PrintRow, CanonicalRow, Reconcile, IsBodyRow;
    var lines := PrintRows(rows) + [""] + rest;
    if rows == [] {
      assert lines[0] == "";
      assert !IsBodyRow("") by { EmptyIsNotBody(); }
    } else {
      PrintedCanonicalRow(rows[0], width);
      PrintedBody(rows[1..], width, rest);
      assert lines[0] == PrintRow(rows[0]) && lines[1..] == PrintRows(rows[1..]) + [""] + rest;
      assert PrintRows(rows)[1..] == PrintRows(rows[1..]);
      assert RowsOf(PrintRows(rows), width)[1..] == RowsOf(PrintRows(rows[1..]), width);
    }
  }

  lemma EmptyIsNotBody()
    ensures !IsBodyRow("")
  {
  }

  lemma TableSlices(h: string, s: string, body: seq<string>, rest: seq<string>)
    ensures var lines := [h, s] + body + [""] + rest;
      && lines[0] == h && lines[1] == s && lines[2..] == body + [""] + rest
      && lines[2..2 + |body|] == body && lines[2 + |body|..] == [""] + rest
  {
    var lines := [h, s] + body + [""] + rest;
    assert lines == [h, s] + (body + [""] + rest);
    assert lines == ([h, s] + body) + ([""] + rest);
  }

  lemma TableParsed(header: string, separator: string, body: seq<string>, rest: seq<string>)
    requires ParseHeading(header).None? && StartsTable(header, separator)
    requires BodyLength(body + [""] + rest) == |body|
    ensures Parse([], [header, separator] + body + [""] + rest) == [TableOf(header, body)] + Parse([], rest)
  {
    BlankLineIsSkipped([""] + rest, rest);
    assert Group([], []) == [];
    hide ParseHeading, StartsTable, TableOf, BodyLength, Group;
    var lines := [header, separator] + body + [""] + rest;
    TableSlices(header, separator, body, rest);
    assert [] + ([TableOf(header, body)] + Parse([], rest)) == [TableOf(header, body)] + Parse([], rest);
  }

  lemma HeaderStartsTable(headers: seq<string>)
    requires headers != [] && AllClean(headers) && !AllDashes(headers)
    ensures StartsTable(PrintRow(headers), PrintRow(Repeat("---", |headers|)))
    ensures ParseHeading(PrintRow(headers)).None? && Cells(PrintRow(headers)) == headers
  {
    PrintedRow(headers);
    PrintedSeparator(|headers|);
    hide Cells, PrintRow, AllDashes, Trim;
  }

  lemma PrintedTable(headers: seq<string>, rows: seq<seq<string>>, rest: seq<string>)
    requires CanonicalTable(headers, rows)
    ensures Parse([], PrintBlock(Table(headers, rows)) + [""] + rest) == [Table(headers, rows)] + Parse([], rest)
  {
    HeaderStartsTable(headers);
    PrintedBody(rows, |headers|, rest);
    TableParsed(PrintRow(headers), PrintRow(Repeat("---", |headers|)), PrintRows(rows), rest);
  }

  // ---- Paragraphs ----

  /** Prosaic lines move into the pending buffer one by one. */
  lemma {:induction false} Buffered(buffer: seq<string>, prose: seq<string>, rest: seq<string>)
    requires Prosaic(prose)
    ensures Parse(buffer, prose + [""] + rest) == Parse(buffer + prose + [""], rest)
    decreases |prose|
  {
    var lines := prose + [""] + rest;
    if prose == [] {
      assert lines == [""] + rest && lines[0] == "" && lines[1..] == rest;
      BlankIsProse("", if |lines| > 1 then lines[1] else "");
      assert buffer + prose + [""] == buffer + [""];
    } else {
      EmptyIsNotSeparator(prose[0]);
      hide ParseHeading, StartsTable, Group, TableOf, BodyLength;
      assert lines[0] == prose[0] && lines[1..] == prose[1..] + [""] + rest;
      assert lines[1] == if |prose| > 1 then prose[1] else "";
      assert forall i | 0 <= i < |prose[1..]| :: prose[1..][i] == prose[i + 1];
      Buffered(buffer + [prose[0]], prose[1..], rest);
      assert buffer + [prose[0]] + prose[1..] == buffer + prose;
    }
  }

  lemma {:induction false} GroupOfWritten(current: seq<string>, lines: seq<string>)
    requires forall i | 0 <= i < |lines| :: !Blank(lines[i])
    ensures Group(current, lines) == Emit(current + lines)
    decreases |lines|
  {
    if lines == [] {
      assert current + lines == current;
    } else {
      TrimToNothing(lines[0]);
      GroupOfWritten(current + [lines[0]], lines[1..]);
      assert current + [lines[0]] + lines[1..] == current + lines;
    }
  }

  lemma PrintedParagraph(text: string, rest: seq<string>)
    requires CanonicalParagraph(text)
    ensures Parse([], PrintBlock(Paragraph(text)) + [""] + rest) == [Paragraph(text)] + Parse([], rest)
  {
    var lines := Split(text, '\n');
    Buffered([], lines, rest);
    assert [] + lines + [""] == lines + [""] + [];
    Detach(lines, [], rest);
    GroupOfWritten([], lines);
    assert [] + lines == lines;
    JoinOfSplit(text, '\n');
    TrimOfTrimmed(text);
  }

  /** MAIN at the level of lines: canonical blocks survive printing and parsing. */
  lemma {:induction false} PrintedBlocks(blocks: seq<Block>)
    requires forall i | 0 <= i < |blocks| :: Canonical(blocks[i])
    ensures Parse([], PrintLines(blocks)) == blocks
  {
    if blocks == [] {
      assert Group([], []) == [];
    } else {
      var rest := PrintLines(blocks[1..]);
      PrintedBlocks(blocks[1..]);
      FirstPrinted(blocks[0], rest);
      assert [blocks[0]] + blocks[1..] == blocks;
    }
  }

  lemma FirstPrinted(b: Block, rest: seq<string>)
    requires Canonical(b)
    ensures Parse([], PrintBlock(b) + [""] + rest) == [b] + Parse([], rest)
  {
    match b
    case Heading(level, text) =>
      PrintedHeading(level, text);
      hide ParseHeading, StartsTable, BodyLength, TableOf;
      var lines := PrintBlock(b) + [""] + rest;
      assert lines[0] == Repeat('#', level) + " " + text && lines[1..] == [""] + rest;
      BlankLineIsSkipped([""] + rest, rest);
      assert Group([], []) == [];
    case Table(headers, rows) => PrintedTable(headers, rows, rest);
    case Paragraph(text) => PrintedParagraph(text, rest);
  }
}
