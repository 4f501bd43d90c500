/**
 Round trips on text, and when parsing what a parse printed gives the parse back.
 */
module VerbatimReparse {
  import opened Wrappers
  import opened Text
  import Sequences
  import opened VerbatimBlocks
  import opened VerbatimHeading
  import opened VerbatimReturns
  import opened VerbatimRoundTrip

  // ---- Printed lines survive as lines ----

  predicate NoCr(line: string) {
    line == "" || line[|line| - 1] != '\r'
  }

  predicate PlainLines(lines: seq<string>) {
    forall i | 0 <= i < |lines| :: '\n' !in lines[i] && NoCr(lines[i])
  }

  /** Only the last of the lines may end in a carriage return. */
  predicate PlainBreaks(lines: seq<string>) {
    forall i | 0 <= i < |lines| - 1 :: NoCr(lines[i])
  }

  predicate PlainBlock(b: Block) {
    b.Paragraph? ==> PlainBreaks(Split(b.text, '\n'))
  }

  /** No line feed comes right after a carriage return. */
  predicate NoCrLf(s: string) {
    forall i | 1 <= i < |s| && s[i] == '\n' :: s[i - 1] != '\r'
  }

  lemma {:induction false} NothingToNormalise(s: string)
    requires NoCrLf(s)
    ensures NormaliseNewlines(s) == s
  {
    if |s| >= 2 {
      assert s[1] == '\n' ==> s[1 - 1] != '\r';
      var t := s[1..];
      forall i | 1 <= i < |t| && t[i] == '\n' ensures t[i - 1] != '\r' {
        assert s[i + 1] == '\n' && t[i - 1] == s[i];
      }
      NothingToNormalise(s[1..]);
      assert [s[0]] + s[1..] == s;
    }
  }

  lemma {:induction false} JoinedPlainly(lines: seq<string>)
    requires PlainLines(lines)
    ensures NoCrLf(Join(lines, "\n"))
  {
    var s := Join(lines, "\n");
    if |lines| == 1 {
      forall i | 0 <= i < |s| ensures s[i] != '\n' { assert s[i] in lines[0]; }
    } else if |lines| > 1 {
      var first, rest := lines[0], Join(lines[1..], "\n");
      JoinedPlainly(lines[1..]);
      assert '\n' !in first && NoCr(first);
      assert forall i | 0 <= i < |first| :: s[i] == first[i] && first[i] in first;
      forall i | 1 <= i < |s| && s[i] == '\n' ensures s[i - 1] != '\r' {
        if i == |first| {
          assert s[i - 1] == first[i - 1];
        } else if i > |first| + 1 {
          var k := i - |first| - 1;
          assert s[i] == rest[k] && s[i - 1] == rest[k - 1];
        }
      }
    }
  }

  lemma LinesOfJoin(lines: seq<string>)
    requires lines != [] && PlainLines(lines)
    ensures Lines(Join(lines, "\n")) == lines
  {
    JoinedPlainly(lines);
    NothingToNormalise(Join(lines, "\n"));
    SplitOfJoin(lines, '\n');
  }

  lemma {:induction false} JoinOnOneLine(parts: seq<string>, sep: string)
    requires '\n' !in sep && forall i | 0 <= i < |parts| :: '\n' !in parts[i]
    ensures '\n' !in Join(parts, sep)
  {
    if |parts| > 1 { JoinOnOneLine(parts[1..], sep); }
  }

  lemma PrintedRowIsPlain(row: seq<string>)
    requires row != [] && AllClean(RowPieces(row)) && row[|row| - 1] == Join(Pieces(row[|row| - 1]), " | ")
    ensures '\n' !in PrintRow(row) && NoCr(PrintRow(row))
  {
    var front, pieces := row[..|row| - 1], Pieces(row[|row| - 1]);
    JoinUnnested(front, pieces, " | ");
    assert row == front + [Join(pieces, " | ")];
    assert forall i | 0 <= i < |front + pieces| :: CleanCell((front + pieces)[i]);
    JoinOnOneLine(front + pieces, " | ");
    assert PrintRow(row)[|PrintRow(row)| - 1] == '|';
  }

  lemma PrintedCleanRowIsPlain(row: seq<string>)
    requires row != [] && AllClean(row)
    ensures '\n' !in PrintRow(row) && NoCr(PrintRow(row))
  {
    assert forall i | 0 <= i < |row| :: CleanCell(row[i]);
    JoinOnOneLine(row, " | ");
    assert PrintRow(row)[|PrintRow(row)| - 1] == '|';
  }

  lemma PrintedRowsArePlain(rows: seq<seq<string>>, width: nat)
    requires forall i | 0 <= i < |rows| :: CanonicalRow(rows[i], width)
    ensures PlainLines(PrintRows(rows))
  {
    forall i | 0 <= i < |rows| ensures '\n' !in PrintRow(rows[i]) && NoCr(PrintRow(rows[i])) {
      assert CanonicalRow(rows[i], width);
      PrintedRowIsPlain(rows[i]);
    }
  }

  lemma DashesArePlain(width: nat)
    requires width >= 1
    ensures '\n' !in PrintRow(Repeat("---", width)) && NoCr(PrintRow(Repeat("---", width)))
  {
    var dashes := Repeat("---", width);
    forall i | 0 <= i < |dashes| ensures CleanCell(dashes[i]) { assert dashes[i] == "---"; }
    PrintedCleanRowIsPlain(dashes);
  }

  lemma PrintedTableIsPlain(headers: seq<string>, rows: seq<seq<string>>)
    requires CanonicalTable(headers, rows)
    ensures PlainLines(PrintBlock(Table(headers, rows)))
  {
    hide CleanCell, NoCr, PrintRow, CanonicalRow, Repeat, AllDashes;
    PrintedCleanRowIsPlain(headers);
    DashesArePlain(|headers|);
    PrintedRowsArePlain(rows, |headers|);
  }

  lemma PrintedBlockIsPlain(b: Block)
    requires Canonical(b) && PlainBlock(b)
    ensures PlainLines(PrintBlock(b))
  {
    match b
    case Heading(level, text) =>
      assert text[|text| - 1] != '\r';
      forall c | c in text ensures c != '\n' { var i :| 0 <= i < |text| && text[i] == c; }
    case Table(headers, rows) => PrintedTableIsPlain(headers, rows);
    case Paragraph(text) =>
      SplitPieces(text, '\n');
      LastPieceEnds(text);
  }

  /** The last piece of a trimmed text does not end in a carriage return. */
  lemma {:induction false} LastPieceEnds(s: string)
    ensures var parts := Split(s, '\n'); var last := parts[|parts| - 1];
      last != "" ==> s != "" && last[|last| - 1] == s[|s| - 1]
  {
    if s != "" {
      LastPieceEnds(s[1..]);
    }
  }

  lemma {:induction false} PrintedLinesArePlain(blocks: seq<Block>)
    requires forall i | 0 <= i < |blocks| :: Canonical(blocks[i]) && PlainBlock(blocks[i])
    ensures PlainLines(PrintLines(blocks))
  {
    if blocks != [] {
      PrintedBlockIsPlain(blocks[0]);
      PrintedLinesArePlain(blocks[1..]);
      hide PrintBlock;
    }
  }

  /** MAIN: canonical blocks, printed as text and parsed, come back unchanged. */
  lemma RoundTrip(blocks: seq<Block>)
    requires forall i | 0 <= i < |blocks| :: Canonical(blocks[i]) && PlainBlock(blocks[i])
    ensures ParseText(Print(blocks)) == blocks
  {
    if blocks == [] {
      assert Lines("") == [""];
      BlankTextHasNoBlocks([], [""]);
    } else {
      PrintedLinesArePlain(blocks);
      LinesOfJoin(PrintLines(blocks));
      PrintedBlocks(blocks);
    }
  }

  // ---- What every parse produces ----

  /** Blocks of a parse, up to the two shapes that do not print back. */
  predicate NearlyCanonical(b: Block) {
    match b
    case Heading(level, text) => 1 <= level <= 6 && text != "" && Trimmed(text) && OneLine(text)
    case Table(headers, rows) => CanonicalTable(headers, rows)
    case Paragraph(text) =>
      var lines := Split(text, '\n');
      && text != "" && Trimmed(text)
      && (forall i | 0 <= i < |lines| :: !Blank(lines[i]))
      && (forall i | 1 <= i < |lines| :: ParseHeading(lines[i]).None?)
      && (forall i | 0 <= i < |lines| - 1 :: !StartsTable(lines[i], lines[i + 1]))
  }

  /** The shapes that print back: a heading that does not end in '#' (unless it is "#"), a paragraph that
      does not begin with a heading line. */
  predicate Stable(b: Block) {
    match b
    case Heading(_, text) => text == "#" || text == "" || text[|text| - 1] != '#'
    case Table(_, _) => true
    case Paragraph(text) => ParseHeading(Split(text, '\n')[0]).None?
  }

  lemma StableIsCanonical(b: Block)
    requires NearlyCanonical(b) && Stable(b)
    ensures Canonical(b)
  {
    hide ParseHeading, StartsTable, CanonicalTable;
    if b.Paragraph? {
      var lines := Split(b.text, '\n');
      assert forall i | 0 <= i < |lines| :: i == 0 || ParseHeading(lines[i]).None?;
    }
  }

  // Headings

  lemma HeadingsAreNearlyCanonical(line: string)
    requires ParseHeading(line).Some?
    ensures var h := ParseHeading(line).value; NearlyCanonical(Heading(h.level, h.text))
  {
    var n := LeadingHashes(line);
    var rest := TrimStart(line[n..]);
    var lead := TrimStartParts(line[n..]);
    var trail := TrimEndParts(rest);
    var inner := DropTrailingHashes(TrimEnd(rest));
    var trail2 := TrimEndParts(inner);
    var bare := TrimEnd(inner);
    if bare != "" { assert bare[0] == inner[0] == TrimEnd(rest)[0] == rest[0]; }
  }

  // Table rows

  lemma CellsAreClean(line: string)
    requires '\n' !in line
    ensures AllClean(Cells(line))
  {
    var lead, trail := TrimParts(line);
    var inner := DropOuterPipes(Trim(line));
    assert forall c | c in inner :: c in Trim(line);
    assert forall c | c in Trim(line) :: c in line;
    PiecesAreClean(inner);
  }

  lemma PiecesAreClean(s: string)
    requires '\n' !in s
    ensures AllClean(TrimAll(Split(s, '|')))
  {
    SplitPieces(s, '|');
    var parts := Split(s, '|');
    forall i | 0 <= i < |parts| ensures CleanCell(Trim(parts[i])) {
      var lead, trail := TrimParts(parts[i]);
      assert forall c | c in Trim(parts[i]) :: c in parts[i];
    }
  }

  lemma {:induction false} JoinedApart(cells: seq<string>)
    requires cells != [] && AllClean(cells)
    ensures Pieces(Join(cells, " | ")) == cells
  {
    var c := cells[0];
    assert CleanCell(c);
    if |cells| == 1 {
      SplitWhole(c, '|');
      TrimOfTrimmed(c);
    } else {
      var rest := Join(cells[1..], " | ");
      assert c + " | " + rest == (c + " ") + ['|'] + (" " + rest);
      SplitFirst(c + " ", '|', " " + rest);
      TrimPadded("", c, " ");
      assert "" + c + " " == c + " ";
      JoinedApart(cells[1..]);
      SpaceFirst(rest);
    }
  }

  /** A leading space does not change the trimmed pieces. */
  lemma SpaceFirst(s: string)
    ensures Pieces(" " + s) == Pieces(s)
  {
    var parts := Split(s, '|');
    assert (" " + s)[1..] == s && (" " + s)[0] == ' ';
    assert Split(" " + s, '|') == [" " + parts[0]] + parts[1..];
    assert (" " + parts[0])[1..] == parts[0];
    assert TrimStart(" " + parts[0]) == TrimStart(parts[0]);
    var x, y := Pieces(" " + s), Pieces(s);
    assert forall i | 1 <= i < |parts| :: x[i] == y[i];
    assert x[0] == y[0];
  }

  lemma LongRow(cells: seq<string>, width: nat)
    requires |cells| > width >= 1 && AllClean(cells) && !AllDashes(cells)
    ensures CanonicalRow(Reconcile(cells, width), width)
  {
    hide CleanCell, IsDashCell, Pieces, Join;
    assert cells[..width - 1] + cells[width - 1..] == cells;
    JoinedTail(cells[..width - 1], cells[width - 1..]);
  }

  lemma FittingRow(row: seq<string>)
    requires row != [] && AllClean(row) && !AllDashes(row)
    ensures CanonicalRow(row, |row|)
  {
    var last := row[|row| - 1];
    assert Join([last], " | ") == last;
    hide CleanCell, IsDashCell, Pieces, Join;
    assert row[..|row| - 1] + [last] == row;
    JoinedTail(row[..|row| - 1], [last]);
  }

  lemma PaddedRow(cells: seq<string>, width: nat)
    requires |cells| < width && AllClean(cells)
    ensures CanonicalRow(Reconcile(cells, width), width)
  {
    var row := Reconcile(cells, width);
    assert forall i | 0 <= i < width :: row[i] == (if i < |cells| then cells[i] else "");
    assert CleanCell("");
    EmptyIsNoDash();
    hide CleanCell, IsDashCell, CanonicalRow;
    assert AllClean(row);
    assert !IsDashCell(row[|cells|]);
    FittingRow(row);
  }

  lemma RowsAreCanonical(line: string, width: nat)
    requires '\n' !in line && width >= 1 && IsBodyRow(line)
    ensures CanonicalRow(Reconcile(Cells(line), width), width)
  {
    CellsAreClean(line);
    hide Cells, AllClean, AllDashes, CanonicalRow;
    var cells := Cells(line);
    if |cells| > width {
      LongRow(cells, width);
    } else if |cells| < width {
      PaddedRow(cells, width);
    } else {
      FittingRow(cells);
    }
  }

  lemma EmptyIsNoDash()
    ensures !IsDashCell("")
  {
  }

  lemma JoinedTail(front: seq<string>, tail: seq<string>)
    requires tail != [] && AllClean(front + tail)
    ensures var row := front + [Join(tail, " | ")];
      RowPieces(row) == front + tail && row[|row| - 1] == Join(Pieces(row[|row| - 1]), " | ")
  {
    assert forall i | 0 <= i < |tail| :: tail[i] == (front + tail)[|front| + i];
    JoinedApart(tail);
    var row := front + [Join(tail, " | ")];
    assert row[..|row| - 1] == front;
  }

  lemma TablesAreCanonical(header: string, separator: string, body: seq<string>)
    requires StartsTable(header, separator) && '\n' !in header
    requires forall i | 0 <= i < |body| :: '\n' !in body[i] && IsBodyRow(body[i])
    ensures NearlyCanonical(TableOf(header, body))
  {
    CellsAreClean(header);
    hide Cells, IsBodyRow, AllClean, AllDashes, CanonicalRow, Reconcile;
    forall i | 0 <= i < |body| ensures CanonicalRow(Reconcile(Cells(body[i]), |Cells(header)|), |Cells(header)|) {
      RowsAreCanonical(body[i], |Cells(header)|);
    }
  }

  // Paragraphs

  lemma {:induction false} TrimStartInFront(a: string, b: string)
    requires !Blank(a)
    ensures TrimStart(a + b) == TrimStart(a) + b
  {
    assert a != "" && (a + b)[0] == a[0] && (a + b)[1..] == a[1..] + b;
    if IsSpace(a[0]) {
      assert a == [a[0]] + a[1..];
      TrimStartInFront(a[1..], b);
    }
  }

  lemma {:induction false} TrimEndBehind(a: string, b: string)
    requires !Blank(b)
    ensures TrimEnd(a + b) == a + TrimEnd(b)
    decreases |b|
  {
    var n := |b| - 1;
    assert (a + b)[|a + b| - 1] == b[n] && (a + b)[..|a + b| - 1] == a + b[..n];
    if IsSpace(b[n]) {
      assert b == b[..n] + [b[n]];
      TrimEndBehind(a, b[..n]);
    }
  }

  lemma {:induction false} TrimEndIgnoresBlanks(s: string, after: string)
    requires Blank(after)
    ensures TrimEnd(s + after) == TrimEnd(s)
    decreases |after|
  {
    if after == "" {
      assert s + after == s;
    } else {
      var n := |after| - 1;
      assert (s + after)[|s + after| - 1] == after[n] && (s + after)[..|s + after| - 1] == s + after[..n];
      TrimEndIgnoresBlanks(s, after[..n]);
    }
  }

  lemma {:induction false} TrimStartKeepsWritten(s: string)
    requires !Blank(s)
    ensures !Blank(TrimStart(s)) && Trim(TrimStart(s)) == Trim(s)
  {
    var lead := TrimStartParts(s);
    assert lead + "" == lead;
    assert TrimStart(TrimStart(s)) == TrimStart(s);
    assert TrimStart(s)[0] == TrimStart(s)[0];
  }

  lemma TrimEndKeepsWritten(s: string)
    requires !Blank(s)
    ensures !Blank(TrimEnd(s)) && Trim(TrimEnd(s)) == Trim(s)
  {
    var lead, trail := TrimParts(s);
    TrimToNothing(s);
    var core := Trim(s);
    TrimEndIgnoresBlanks(lead + core, trail);
    TrimEndBehind(lead, core);
    TrimOfTrimmed(core);
    assert TrimEnd(core) == core;
    assert TrimEnd(s) == lead + core;
    TrimPadded(lead, core, "");
    assert lead + core + "" == lead + core;
    assert (lead + core)[|lead|] == core[0];
  }

  /** The lines of a paragraph once its text has been trimmed. */
  function EdgeTrim(lines: seq<string>): (r: seq<string>)
    requires lines != []
    ensures |r| == |lines|
  {
    var r := lines[0 := TrimStart(lines[0])];
    r[|r| - 1 := TrimEnd(r[|r| - 1])]
  }

  lemma {:induction false} JoinLast(front: seq<string>, last: string)
    requires front != []
    ensures Join(front + [last], "\n") == Join(front, "\n") + "\n" + last
  {
    var all := front + [last];
    if |front| == 1 {
      assert all[0] == front[0] && all[1..] == [last];
    } else {
      assert all[0] == front[0] && all[1..] == front[1..] + [last];
      JoinLast(front[1..], last);
      var x, y, z := front[0], Join(front[1..], "\n"), last;
      assert x + "\n" + (y + "\n" + z) == x + "\n" + y + "\n" + z;
    }
  }

  lemma TrimStartOfJoin(lines: seq<string>)
    requires lines != [] && !Blank(lines[0])
    ensures TrimStart(Join(lines, "\n")) == Join(lines[0 := TrimStart(lines[0])], "\n")
  {
    if |lines| > 1 {
      var rest := "\n" + Join(lines[1..], "\n");
      assert Join(lines, "\n") == lines[0] + rest;
      TrimStartInFront(lines[0], rest);
      assert lines[0 := TrimStart(lines[0])][1..] == lines[1..];
      assert TrimStart(lines[0]) + "\n" + Join(lines[1..], "\n") == TrimStart(lines[0]) + rest;
    }
  }

  lemma TrimEndOfJoin(lines: seq<string>)
    requires lines != [] && !Blank(lines[|lines| - 1])
    ensures TrimEnd(Join(lines, "\n")) == Join(lines[|lines| - 1 := TrimEnd(lines[|lines| - 1])], "\n")
  {
    if |lines| > 1 {
      var front, last := lines[..|lines| - 1], lines[|lines| - 1];
      assert lines == front + [last];
      JoinLast(front, last);
      TrimEndBehind(Join(front, "\n") + "\n", last);
      JoinLast(front, TrimEnd(last));
      assert lines[|lines| - 1 := TrimEnd(last)] == front + [TrimEnd(last)];
    }
  }

  lemma EdgeTrimKeepsWritten(lines: seq<string>)
    requires lines != [] && forall i | 0 <= i < |lines| :: !Blank(lines[i])
    ensures forall i | 0 <= i < |lines| :: !Blank(EdgeTrim(lines)[i]) && Trim(EdgeTrim(lines)[i]) == Trim(lines[i])
  {
    var first := TrimStart(lines[0]);
    TrimStartKeepsWritten(lines[0]);
    var r := lines[0 := first];
    var last := r[|r| - 1];
    TrimEndKeepsWritten(last);
    hide Blank, TrimStart, Trim, TrimEnd;
  }

  lemma TrimmedJoin(lines: seq<string>)
    requires lines != [] && forall i | 0 <= i < |lines| :: !Blank(lines[i])
    ensures Trim(Join(lines, "\n")) == Join(EdgeTrim(lines), "\n")
  {
    var r := lines[0 := TrimStart(lines[0])];
    TrimStartOfJoin(lines);
    TrimStartKeepsWritten(lines[0]);
    assert Trim(Join(lines, "\n")) == TrimEnd(Join(r, "\n"));
    hide Blank, TrimStart, Trim, TrimEnd, Join;
    TrimEndOfJoin(r);
  }

  /** Whether a pair of lines starts a table does not depend on the white space around them. */
  lemma TableStartIgnoresEdges(a: string, b: string, c: string, d: string)
    requires Trim(a) == Trim(c) && Trim(b) == Trim(d)
    ensures StartsTable(a, b) == StartsTable(c, d)
  {
    PipeInTrim(a);
    PipeInTrim(c);
    hide Trim, AllDashes, DropOuterPipes, Split;
  }

  lemma PipeInTrim(s: string)
    ensures '|' in s <==> '|' in Trim(s)
  {
    var lead, trail := TrimParts(s);
    forall i | 0 <= i < |lead| ensures lead[i] != '|' { assert IsSpace(lead[i]); }
    forall i | 0 <= i < |trail| ensures trail[i] != '|' { assert IsSpace(trail[i]); }
  }

  /** The content of a heading does not see white space after it. */
  lemma ContentIgnoresBlanks(rest: string, trail: string)
    requires Blank(trail)
    ensures HeadingContent(rest + trail) == HeadingContent(rest)
  {
    TrimEndIgnoresBlanks(rest, trail);
    hide TrimEnd, DropTrailingHashes;
  }

  lemma HeadingIgnoresTrailingSpace(line: string)
    requires ParseHeading(TrimEnd(line)).Some?
    ensures ParseHeading(line).Some?
  {
    var trail := TrimEndParts(line);
    var t := TrimEnd(line);
    var n := LeadingHashes(t);
    var lead, rest := HeadingParts(t);
    hide ParseHeading, TrimStart, TrimEnd, HeadingContent, OneLine, LeadingHashes, Blank, IsSpace;
    LeadingHashesExtend(t, trail);
    TrimStartOf(t[n..], lead, rest);
    TrimStartInFront(t[n..], trail);
    ContentIgnoresBlanks(rest, trail);
    DropOfConcat(t, trail, n);
    HeadingWithParts(line, n, rest + trail);
  }

  lemma DropOfConcat(t: string, trail: string, n: nat)
    requires n < |t|
    ensures (t + trail)[n] == t[n] && (t + trail)[n..] == t[n..] + trail
  {}

  lemma TrimStartOf(s: string, lead: string, rest: string)
    requires s == lead + rest && Blank(lead) && rest != "" && !IsSpace(rest[0])
    ensures TrimStart(s) == rest
  {
    TrimStartPadded(lead, rest);
  }

  lemma {:induction false} LeadingHashesExtend(s: string, after: string)
    requires LeadingHashes(s) < |s|
    ensures LeadingHashes(s + after) == LeadingHashes(s)
  {
    if s[0] == '#' {
      assert (s + after)[1..] == s[1..] + after;
      LeadingHashesExtend(s[1..], after);
    }
  }

  lemma EmittedIsNearlyCanonical(lines: seq<string>)
    requires lines != [] && Prosaic(lines) && forall i | 0 <= i < |lines| :: !Blank(lines[i]) && '\n' !in lines[i]
    ensures Emit(lines) == [Paragraph(Join(EdgeTrim(lines), "\n"))] && NearlyCanonical(Emit(lines)[0])
    ensures Split(Emit(lines)[0].text, '\n') == EdgeTrim(lines)
  {
    var r := EdgeTrim(lines);
    var lead, trail := TrimParts(Join(lines, "\n"));
    hide Blank, Trim, ParseHeading, StartsTable, EdgeTrim, Join, Split;
    TrimmedJoin(lines);
    EdgeTrimKeepsWritten(lines);
    EdgesOnOneLine(lines);
    SplitOfJoin(r, '\n');
    EdgesStayProse(lines);
    JoinedIsSomething(r);
  }

  lemma JoinedIsSomething(lines: seq<string>)
    requires lines != [] && !Blank(lines[0])
    ensures Join(lines, "\n") != ""
  {
    assert lines[0] != "";
  }

  /** Trimming the outer edges of prose makes no heading but of the first line, and no table. */
  lemma EdgesStayProse(lines: seq<string>)
    requires lines != [] && Prosaic(lines) && forall i | 0 <= i < |lines| :: !Blank(lines[i])
    ensures var r := EdgeTrim(lines);
            && (forall i | 1 <= i < |r| :: ParseHeading(r[i]).None?)
            && (forall i | 0 <= i < |r| - 1 :: !StartsTable(r[i], r[i + 1]))
  {
    EdgeTrimKeepsWritten(lines);
    var r := EdgeTrim(lines);
    hide Blank, Trim, TrimStart, TrimEnd, ParseHeading, StartsTable;
    forall i | 1 <= i < |r| ensures ParseHeading(r[i]).None? {
      if ParseHeading(r[i]).Some? && i == |lines| - 1 { HeadingIgnoresTrailingSpace(lines[i]); }
    }
    forall i | 0 <= i < |r| - 1 ensures !StartsTable(r[i], r[i + 1]) {
      TableStartIgnoresEdges(r[i], r[i + 1], lines[i], lines[i + 1]);
    }
  }

  lemma EdgesOnOneLine(lines: seq<string>)
    requires lines != [] && forall i | 0 <= i < |lines| :: '\n' !in lines[i]
    ensures forall i | 0 <= i < |lines| :: '\n' !in EdgeTrim(lines)[i]
  {
    var r := lines[0 := TrimStart(lines[0])];
    var lead := TrimStartParts(lines[0]);
    var trail := TrimEndParts(r[|r| - 1]);
  }

  // Every block of a parse

  lemma EmitIsNearlyCanonical(current: seq<string>)
    requires Prosaic(current)
    requires forall i | 0 <= i < |current| :: !Blank(current[i]) && '\n' !in current[i]
    ensures AllNearlyCanonical(Emit(current))
  {
    if current != [] { EmittedIsNearlyCanonical(current); }
  }

  lemma {:induction false} GroupIsNearlyCanonical(current: seq<string>, lines: seq<string>)
    requires Prosaic(current + lines)
    requires forall i | 0 <= i < |current| :: !Blank(current[i]) && '\n' !in current[i]
    requires forall i | 0 <= i < |lines| :: '\n' !in lines[i]
    ensures AllNearlyCanonical(Group(current, lines))
    decreases |lines|
  {
    hide NearlyCanonical, Emit, Blank, Trim, Prosaic;
    ProsaicParts(current, lines);
    if lines == [] {
      EmitIsNearlyCanonical(current);
    } else {
      TrimToNothing(lines[0]);
      if Trim(lines[0]) == "" {
        assert [lines[0]] + lines[1..] == lines && [] + lines[1..] == lines[1..];
        ProsaicParts([lines[0]], lines[1..]);
        EmitIsNearlyCanonical(current);
        GroupIsNearlyCanonical([], lines[1..]);
      } else {
        assert current + [lines[0]] + lines[1..] == current + lines;
        GroupIsNearlyCanonical(current + [lines[0]], lines[1..]);
      }
    }
  }

  lemma ProsaicParts(a: seq<string>, b: seq<string>)
    requires Prosaic(a + b)
    ensures Prosaic(a) && Prosaic(b)
  {
    hide ParseHeading, StartsTable;
    var all := a + b;
    assert forall i | 0 <= i < |a| :: a[i] == all[i];
    assert forall i | 0 <= i < |b| :: b[i] == all[|a| + i];
    forall i | 0 <= i < |b| - 1 ensures !StartsTable(b[i], b[i + 1]) {
      assert !StartsTable(all[|a| + i], all[(|a| + i) + 1]);
    }
    forall i | 0 <= i < |a| - 1 ensures !StartsTable(a[i], a[i + 1]) {
      assert !StartsTable(all[i], all[i + 1]);
    }
  }

  lemma ProsaicExtend(buffer: seq<string>, line: string)
    requires Prosaic(buffer) && ParseHeading(line).None?
    requires buffer != [] ==> !StartsTable(buffer[|buffer| - 1], line)
    ensures Prosaic(buffer + [line])
  {
    hide ParseHeading, StartsTable;
    var all := buffer + [line];
    forall i | 0 <= i < |all| - 1 ensures !StartsTable(all[i], all[i + 1]) {
      if i + 1 < |buffer| { assert !StartsTable(buffer[i], buffer[i + 1]); }
    }
  }

  lemma {:induction false} BodyRowsAt(lines: seq<string>)
    ensures forall i | 0 <= i < BodyLength(lines) :: IsBodyRow(lines[i])
  {
    hide IsBodyRow;
    if lines != [] && IsBodyRow(lines[0]) { BodyRowsAt(lines[1..]); }
  }

  /** Every block a parse produces is nearly canonical. */
  predicate AllNearlyCanonical(blocks: seq<Block>) {
    forall i | 0 <= i < |blocks| :: NearlyCanonical(blocks[i])
  }

  lemma NearlyCanonicalParts(a: seq<Block>, b: Block, c: seq<Block>)
    requires AllNearlyCanonical(a) && NearlyCanonical(b) && AllNearlyCanonical(c)
    ensures AllNearlyCanonical(a + ([b] + c))
  {
    hide NearlyCanonical;
  }

  /** Every block a parse produces is nearly canonical. */
  lemma {:induction false} ParseIsNearlyCanonical(buffer: seq<string>, lines: seq<string>)
    requires Prosaic(buffer)
    requires buffer != [] && lines != [] ==> !StartsTable(buffer[|buffer| - 1], lines[0])
    requires forall i | 0 <= i < |buffer| :: '\n' !in buffer[i]
    requires forall i | 0 <= i < |lines| :: '\n' !in lines[i]
    ensures AllNearlyCanonical(Parse(buffer, lines))
    decreases |lines|
  {
    hide NearlyCanonical, AllNearlyCanonical, Group, ParseHeading, StartsTable, TableOf, BodyLength;
    Sequences.Unit(buffer);
    GroupIsNearlyCanonical([], buffer);
    if lines == [] {
    } else if ParseHeading(lines[0]).Some? {
      HeadingsAreNearlyCanonical(lines[0]);
      ParseIsNearlyCanonical([], lines[1..]);
      var h := ParseHeading(lines[0]).value;
      NearlyCanonicalParts(Group([], buffer), Heading(h.level, h.text), Parse([], lines[1..]));
    } else if |lines| > 1 && StartsTable(lines[0], lines[1]) {
      var n := BodyLength(lines[2..]);
      BodyRowsAt(lines[2..]);
      TablesAreCanonical(lines[0], lines[1], lines[2..2 + n]);
      ParseIsNearlyCanonical([], lines[2 + n..]);
      NearlyCanonicalParts(Group([], buffer), TableOf(lines[0], lines[2..2 + n]), Parse([], lines[2 + n..]));
    } else {
      ProsaicExtend(buffer, lines[0]);
      ParseIsNearlyCanonical(buffer + [lines[0]], lines[1..]);
    }
  }

  // ---- When re-parsing is the identity ----

  lemma {:induction false} PrintedPrefix(good: seq<Block>, rest: seq<Block>)
    requires forall i | 0 <= i < |good| :: Canonical(good[i])
    ensures Parse([], PrintLines(good + rest)) == good + Parse([], PrintLines(rest))
  {
    hide Canonical, PrintBlock, Parse;
    if good == [] {
      assert good + rest == rest;
    } else {
      var all, tail := good + rest, good[1..] + rest;
      assert all[0] == good[0] && all[1..] == tail;
      PrintedPrefix(good[1..], rest);
      FirstPrinted(good[0], PrintLines(tail));
      assert PrintLines(all) == PrintBlock(good[0]) + [""] + PrintLines(tail);
      var last := Parse([], PrintLines(rest));
      assert [good[0]] + (good[1..] + last) == good + last;
    }
  }

  /** A block of a parse that is not stable does not come back from its own print. */
  lemma UnstableChanges(b: Block, rest: seq<string>)
    requires NearlyCanonical(b) && !Stable(b)
    ensures Parse([], PrintBlock(b) + [""] + rest) != [] && Parse([], PrintBlock(b) + [""] + rest)[0] != b
  {
    var lines := PrintBlock(b) + [""] + rest;
    assert lines[0] == PrintBlock(b)[0];
    assert Group([], []) == [];
    if b.Heading? {
      UnstableHeading(b.level, b.text);
    }
    hide ParseHeading, StartsTable, BodyLength, Group;
    var h := ParseHeading(lines[0]).value;
    assert Parse([], lines)[0] == Heading(h.level, h.text);
  }

  lemma ContentShrinks(text: string)
    requires text != "" && text[|text| - 1] == '#' && Trimmed(text) && OneLine(text) && text != "#"
    ensures |HeadingContent(text)| < |text| && OneLine(HeadingContent(text))
  {
    var inner := DropTrailingHashes(text);
    assert TrimEnd(text) == text;
    assert |inner| < |text|;
    var trail := TrimEndParts(inner);
    hide TrimEnd, IsSpace;
    assert TrimEnd(inner) == text[..|TrimEnd(inner)|];
  }

  lemma UnstableHeading(level: nat, text: string)
    requires 1 <= level <= 6 && text != "" && Trimmed(text) && OneLine(text)
    requires text != "#" && text[|text| - 1] == '#'
    ensures var h := ParseHeading(Repeat('#', level) + " " + text); h.Some? && h.value.text != text
  {
    var line := Repeat('#', level) + " " + text;
    Sequences.Assoc(Repeat('#', level), " ", text);
    HashesCounted(level, " " + text);
    TrimStartPadded(" ", text);
    ContentShrinks(text);
    assert |line| > level;
    hide HeadingContent, OneLine, Trimmed, Repeat, TrimStart, LeadingHashes;
    assert line[level..] == " " + text;
    assert IsSpace(' ') && line[level] == ' ';
  }

  predicate AllStable(blocks: seq<Block>) {
    forall i | 0 <= i < |blocks| :: Stable(blocks[i])
  }

  lemma StableBlocksReparse(blocks: seq<Block>)
    requires AllNearlyCanonical(blocks) && AllStable(blocks)
    ensures Parse([], PrintLines(blocks)) == blocks
  {
    hide Parse, NearlyCanonical, Stable, Canonical, PrintLines;
    forall i | 0 <= i < |blocks| ensures Canonical(blocks[i]) { StableIsCanonical(blocks[i]); }
    PrintedBlocks(blocks);
  }

  lemma UnstableBlocksDiffer(blocks: seq<Block>)
    requires AllNearlyCanonical(blocks) && !AllStable(blocks)
    ensures Parse([], PrintLines(blocks)) != blocks
  {
    hide Parse, NearlyCanonical, Stable, Canonical, PrintBlock;
    var k := FirstUnstable(blocks);
    var good, bad, rest := blocks[..k], blocks[k], blocks[k + 1..];
    assert blocks == good + ([bad] + rest);
    forall i | 0 <= i < |good| ensures Canonical(good[i]) { StableIsCanonical(blocks[i]); }
    PrintedPrefix(good, [bad] + rest);
    UnstableChanges(bad, PrintLines(rest));
    assert ([bad] + rest)[1..] == rest;
    assert PrintLines([bad] + rest) == PrintBlock(bad) + [""] + PrintLines(rest);
    var again := Parse([], PrintLines([bad] + rest));
    assert (good + again)[k] == again[0];
  }

  /** MAIN, at the level of lines: parsing what a parse printed gives that parse back if and only if no
      heading text ends in '#' and no paragraph begins with a heading line. */
  lemma ReparseExact(lines: seq<string>)
    requires forall i | 0 <= i < |lines| :: '\n' !in lines[i]
    ensures Parse([], PrintLines(Parse([], lines))) == Parse([], lines) <==> AllStable(Parse([], lines))
  {
    ParseIsNearlyCanonical([], lines);
    hide Parse, PrintLines, AllStable, AllNearlyCanonical;
    if AllStable(Parse([], lines)) {
      StableBlocksReparse(Parse([], lines));
    } else {
      UnstableBlocksDiffer(Parse([], lines));
    }
  }

  ghost function FirstUnstable(blocks: seq<Block>): (k: nat)
    requires exists i | 0 <= i < |blocks| :: !Stable(blocks[i])
    ensures k < |blocks| && !Stable(blocks[k]) && forall i | 0 <= i < k :: Stable(blocks[i])
  {
    if !Stable(blocks[0]) then 0
    else
      assert exists i | 0 <= i < |blocks[1..]| :: !Stable(blocks[1..][i]) by {
        var i :| 0 <= i < |blocks| && !Stable(blocks[i]);
        assert blocks[1..][i - 1] == blocks[i];
      }
      1 + FirstUnstable(blocks[1..])
  }

  // ---- The same for whole texts ----

  /** No line feed is preceded by two carriage returns. */
  predicate PlainSource(text: string) {
    forall i | 2 <= i < |text| && text[i] == '\n' && text[i - 1] == '\r' :: text[i - 2] != '\r'
  }

  lemma {:induction false} NormalisedPlainly(s: string)
    requires PlainSource(s)
    ensures NoCrLf(NormaliseNewlines(s))
  {
    if |s| >= 2 {
      var pair := s[0] == '\r' && s[1] == '\n';
      var rest := if pair then s[2..] else s[1..];
      var d := if pair then 2 else 1;
      forall i | 2 <= i < |rest| && rest[i] == '\n' && rest[i - 1] == '\r' ensures rest[i - 2] != '\r' {
        assert s[i + d] == '\n' && s[i + d - 1] == rest[i - 1] && s[i + d - 2] == rest[i - 2];
      }
      NormalisedPlainly(rest);
      var t, n := NormaliseNewlines(rest), NormaliseNewlines(s);
      assert n[1..] == t;
      FirstNormalised(rest);
      assert |s| > 2 && s[2] == '\n' && s[2 - 1] == '\r' ==> s[2 - 2] != '\r';
      forall i | 1 <= i < |n| && n[i] == '\n' ensures n[i - 1] != '\r' {
        assert n[i] == t[i - 1];
        if i > 1 {
          assert n[i - 1] == t[(i - 1) - 1];
        }
      }
    }
  }

  lemma FirstNormalised(s: string)
    ensures var n := NormaliseNewlines(s);
      n != "" && n[0] == '\n' ==> s[0] == '\n' || (|s| > 1 && s[0] == '\r' && s[1] == '\n')
  {
  }

  lemma {:induction false} SplitPlainly(s: string)
    requires NoCrLf(s)
    ensures PlainBreaks(Split(s, '\n'))
    ensures s != "" && s[0] == '\n' ==> Split(s, '\n')[0] == ""
  {
    if s != "" {
      var t := s[1..];
      forall i | 1 <= i < |t| && t[i] == '\n' ensures t[i - 1] != '\r' {
        assert s[i + 1] == '\n' && t[i - 1] == s[i + 1 - 1];
      }
      SplitPlainly(t);
      var rest, parts := Split(t, '\n'), Split(s, '\n');
      if s[0] == '\n' {
        assert forall i | 1 <= i < |parts| :: parts[i] == rest[i - 1];
      } else {
        assert forall i | 1 <= i < |parts| :: parts[i] == rest[i];
        FirstPiece(t);
        if rest[0] == "" && |rest| > 1 { assert s[1] == '\n' && s[1 - 1] != '\r'; }
      }
    }
  }

  lemma FirstPiece(s: string)
    ensures Split(s, '\n')[0] == "" && |Split(s, '\n')| > 1 ==> s != "" && s[0] == '\n'
  {
  }

  predicate AllPlain(blocks: seq<Block>) {
    forall i | 0 <= i < |blocks| :: PlainBlock(blocks[i])
  }

  /** Trimming the start of a written line does not change how it ends. */
  lemma TrimStartKeepsEnd(s: string)
    requires !Blank(s)
    ensures TrimStart(s) != "" && TrimStart(s)[|TrimStart(s)| - 1] == s[|s| - 1]
  {
    var lead := TrimStartParts(s);
    TrimStartKeepsWritten(s);
  }

  /** Trimming the outer edges of a paragraph's lines leaves the line breaks as they were. */
  lemma EdgesKeepBreaks(current: seq<string>)
    requires current != [] && PlainBreaks(current) && !Blank(current[0])
    ensures PlainBreaks(EdgeTrim(current))
  {
    TrimStartKeepsEnd(current[0]);
    hide TrimStart, TrimEnd, Blank;
    var r := EdgeTrim(current);
    forall i | 0 <= i < |r| - 1 ensures NoCr(r[i]) {
      assert NoCr(current[i]);
    }
  }

  lemma EmitIsPlain(current: seq<string>)
    requires Prosaic(current) && PlainBreaks(current)
    requires forall i | 0 <= i < |current| :: !Blank(current[i]) && '\n' !in current[i]
    ensures AllPlain(Emit(current))
  {
    hide Prosaic, PlainBreaks, EdgeTrim, Blank, Join, Split, Trim, NearlyCanonical;
    if current != [] {
      EmittedIsNearlyCanonical(current);
      EdgesKeepBreaks(current);
    }
  }

  lemma PlainParts(a: seq<string>, b: seq<string>)
    requires PlainBreaks(a + b)
    ensures PlainBreaks(a) && PlainBreaks(b)
  {
    var all := a + b;
    assert forall i | 0 <= i < |a| :: a[i] == all[i];
    assert forall i | 0 <= i < |b| :: b[i] == all[|a| + i];
  }

  lemma {:induction false} GroupIsPlain(current: seq<string>, lines: seq<string>)
    requires Prosaic(current + lines) && PlainBreaks(current + lines)
    requires forall i | 0 <= i < |current| :: !Blank(current[i]) && '\n' !in current[i]
    requires forall i | 0 <= i < |lines| :: '\n' !in lines[i]
    ensures AllPlain(Group(current, lines))
    decreases |lines|
  {
    hide PlainBlock, Emit, Blank, Trim, Prosaic, PlainBreaks;
    ProsaicParts(current, lines);
    PlainParts(current, lines);
    if lines == [] {
      EmitIsPlain(current);
    } else {
      TrimToNothing(lines[0]);
      if Trim(lines[0]) == "" {
        assert [lines[0]] + lines[1..] == lines && [] + lines[1..] == lines[1..];
        ProsaicParts([lines[0]], lines[1..]);
        PlainParts([lines[0]], lines[1..]);
        EmitIsPlain(current);
        GroupIsPlain([], lines[1..]);
      } else {
        assert current + [lines[0]] + lines[1..] == current + lines;
        GroupIsPlain(current + [lines[0]], lines[1..]);
      }
    }
  }

  lemma PlainBlockParts(a: seq<Block>, b: Block, c: seq<Block>)
    requires AllPlain(a) && PlainBlock(b) && AllPlain(c)
    ensures AllPlain(a + ([b] + c))
  {
    hide PlainBlock;
  }

  predicate Unbroken(lines: seq<string>) {
    forall i | 0 <= i < |lines| :: '\n' !in lines[i]
  }

  lemma PlainTail(lines: seq<string>, n: nat)
    requires n <= |lines| && PlainBreaks(lines) && Unbroken(lines)
    ensures PlainBreaks([] + lines[n..]) && Unbroken(lines[n..])
  {
    Sequences.Split(lines, n);
    PlainParts(lines[..n], lines[n..]);
    Sequences.Unit(lines[n..]);
  }

  lemma GroupedIsPlain(buffer: seq<string>, lines: seq<string>)
    requires Prosaic(buffer) && PlainBreaks(buffer + lines) && Unbroken(buffer)
    ensures AllPlain(Group([], buffer)) && PlainBreaks(lines)
  {
    Sequences.Unit(buffer);
    PlainParts(buffer, lines);
    hide AllPlain, Group, Prosaic, PlainBreaks;
    GroupIsPlain([], buffer);
  }

  lemma PlainAtHeading(buffer: seq<string>, lines: seq<string>)
    requires lines != [] && ParseHeading(lines[0]).Some?
    requires AllPlain(Group([], buffer)) && AllPlain(Parse([], lines[1..]))
    ensures AllPlain(Parse(buffer, lines))
  {
    var h := ParseHeading(lines[0]).value;
    hide ParseHeading, Group, AllPlain;
    PlainBlockParts(Group([], buffer), Heading(h.level, h.text), Parse([], lines[1..]));
  }

  lemma PlainAtTable(buffer: seq<string>, lines: seq<string>)
    requires |lines| > 1 && ParseHeading(lines[0]).None? && StartsTable(lines[0], lines[1])
    requires AllPlain(Group([], buffer)) && AllPlain(Parse([], lines[2 + BodyLength(lines[2..])..]))
    ensures AllPlain(Parse(buffer, lines))
  {
    hide ParseHeading, Group, AllPlain, StartsTable, BodyLength, TableOf;
    var n := BodyLength(lines[2..]);
    TableIsPlain(lines[0], lines[2..2 + n]);
    PlainBlockParts(Group([], buffer), TableOf(lines[0], lines[2..2 + n]), Parse([], lines[2 + n..]));
  }

  lemma {:induction false} ParseIsPlain(buffer: seq<string>, lines: seq<string>)
    requires Prosaic(buffer) && PlainBreaks(buffer + lines) && Unbroken(buffer) && Unbroken(lines)
    requires buffer != [] && lines != [] ==> !StartsTable(buffer[|buffer| - 1], lines[0])
    ensures AllPlain(Parse(buffer, lines))
    decreases |lines|
  {
    hide Group, ParseHeading, StartsTable, BodyLength, PlainBreaks, AllPlain, TableOf;
    GroupedIsPlain(buffer, lines);
    if lines == [] {
    } else if ParseHeading(lines[0]).Some? {
      PlainTail(lines, 1);
      ParseIsPlain([], lines[1..]);
      PlainAtHeading(buffer, lines);
    } else if |lines| > 1 && StartsTable(lines[0], lines[1]) {
      PlainTail(lines, 2 + BodyLength(lines[2..]));
      ParseIsPlain([], lines[2 + BodyLength(lines[2..])..]);
      PlainAtTable(buffer, lines);
    } else {
      ProsaicExtend(buffer, lines[0]);
      OneLineOver(buffer, lines);
      ParseIsPlain(buffer + [lines[0]], lines[1..]);
    }
  }

  lemma OneLineOver(buffer: seq<string>, lines: seq<string>)
    requires lines != []
    ensures buffer + [lines[0]] + lines[1..] == buffer + lines
  {}

  lemma TableIsPlain(header: string, body: seq<string>)
    ensures PlainBlock(TableOf(header, body))
  {}

  /** Without a line feed after two carriage returns in the text, no paragraph keeps one after a line break. */
  lemma PlainSourcesArePlain(text: string)
    requires PlainSource(text)
    ensures AllPlain(ParseText(text))
  {
    NormalisedPlainly(text);
    SplitPlainly(NormaliseNewlines(text));
    SplitPieces(NormaliseNewlines(text), '\n');
    assert [] + Lines(text) == Lines(text);
    ParseIsPlain([], Lines(text));
  }

  /** MAIN: for every text, parsing what its parse prints gives the parse back if and only if no heading text
      ends in '#', no paragraph begins with a heading line, and no line of a paragraph but its last ends in a
      carriage return. */
  lemma ReparseTextExact(text: string)
    ensures ParseText(Print(ParseText(text))) == ParseText(text) <==>
            AllStable(ParseText(text)) && AllPlain(ParseText(text))
  {
    var lines, blocks := Lines(text), ParseText(text);
    SplitPieces(NormaliseNewlines(text), '\n');
    ParseIsNearlyCanonical([], lines);
    ReparseExact(lines);
    hide ParseText, Print, PlainBlock, NearlyCanonical;
    if !AllPlain(blocks) {
      UnplainPrintsCrLf(blocks);
      ReturnsAreLost(blocks);
    } else if blocks == [] {
      RoundTrip([]);
    } else {
      NearlyPrintedArePlain(blocks);
      PrintedLines(blocks);
    }
  }

  lemma PrintedLines(blocks: seq<Block>)
    requires blocks != [] && PlainLines(PrintLines(blocks))
    ensures Lines(Print(blocks)) == PrintLines(blocks)
    ensures ParseText(Print(blocks)) == Parse([], PrintLines(blocks))
  {
    LinesOfJoin(PrintLines(blocks));
  }

  /** A printed line, not the last, that ends in a carriage return. */
  ghost predicate EndsInReturn(lines: seq<string>) {
    exists i :: 0 <= i < |lines| - 1 && !NoCr(lines[i])
  }

  lemma {:induction false} JoinedReturn(lines: seq<string>)
    requires EndsInReturn(lines)
    ensures HasCrLf(Join(lines, "\n"))
  {
    var first, rest := lines[0], Join(lines[1..], "\n");
    var s := Join(lines, "\n");
    assert s == first + "\n" + rest;
    if !NoCr(first) {
      assert s[|first|] == '\n' && s[|first| - 1] == '\r';
    } else {
      var i :| 0 <= i < |lines| - 1 && !NoCr(lines[i]);
      assert lines[1..][i - 1] == lines[i];
      JoinedReturn(lines[1..]);
      var k :| 1 <= k < |rest| && rest[k] == '\n' && rest[k - 1] == '\r';
      var at := |first| + 1 + k;
      assert s[at] == rest[k] && s[at - 1] == rest[k - 1];
    }
  }

  lemma ReturnAfter(lines: seq<string>, more: seq<string>)
    ensures EndsInReturn(lines) ==> EndsInReturn(lines + more)
    ensures EndsInReturn(more) ==> EndsInReturn(lines + more)
  {
    hide NoCr;
    if EndsInReturn(lines) {
      var i :| 0 <= i < |lines| - 1 && !NoCr(lines[i]);
      assert (lines + more)[i] == lines[i];
    }
    if EndsInReturn(more) {
      var i :| 0 <= i < |more| - 1 && !NoCr(more[i]);
      assert (lines + more)[|lines| + i] == more[i];
    }
  }

  lemma {:induction false} UnplainPrintsReturn(blocks: seq<Block>)
    requires !AllPlain(blocks)
    ensures EndsInReturn(PrintLines(blocks))
  {
    hide NoCr;
    var first, rest := PrintBlock(blocks[0]), PrintLines(blocks[1..]);
    if !PlainBlock(blocks[0]) {
      assert EndsInReturn(first);
      ReturnAfter(first, [""]);
      ReturnAfter(first + [""], rest);
    } else {
      UnplainPrintsReturn(blocks[1..]);
      ReturnAfter(first + [""], rest);
    }
  }

  lemma UnplainPrintsCrLf(blocks: seq<Block>)
    requires !AllPlain(blocks)
    ensures HasCrLf(Print(blocks))
  {
    UnplainPrintsReturn(blocks);
    JoinedReturn(PrintLines(blocks));
  }

  lemma NearlyPrintedIsPlain(b: Block)
    requires NearlyCanonical(b) && PlainBlock(b)
    ensures PlainLines(PrintBlock(b))
  {
    match b
    case Heading(_, text) =>
      assert text[|text| - 1] != '\r';
      forall c | c in text ensures c != '\n' { var i :| 0 <= i < |text| && text[i] == c; }
    case Table(headers, rows) => PrintedTableIsPlain(headers, rows);
    case Paragraph(text) =>
      SplitPieces(text, '\n');
      LastPieceEnds(text);
  }

  lemma {:induction false} NearlyPrintedArePlain(blocks: seq<Block>)
    requires AllNearlyCanonical(blocks) && AllPlain(blocks)
    ensures PlainLines(PrintLines(blocks))
  {
    hide PrintBlock, NearlyCanonical, PlainBlock;
    if blocks != [] {
      NearlyPrintedIsPlain(blocks[0]);
      NearlyPrintedArePlain(blocks[1..]);
    }
  }

  predicate Letters(a: string, b: string) {
    (a == "a" || a == "a\r") && b == "b"
  }

  lemma TheseAreLetters()
    ensures Letters("a", "b") && Letters("a\r", "b")
  {}

  lemma LettersAreProsaic(a: string, b: string)
    requires Letters(a, b)
    ensures Prosaic([a, b]) && Prosaic([b]) && !Blank(a) && !Blank(b)
  {
    EmptyIsNotSeparator(b);
    assert !IsSpace(a[0]) && !IsSpace(b[0]);
    assert !LooksLikeRow(a) && !LooksLikeRow(b);
    assert LeadingHashes(a) == 0 && LeadingHashes(b) == 0;
  }

  lemma LettersEmit(a: string, b: string)
    requires Letters(a, b)
    ensures Group([], [a, b]) == [Paragraph(a + "\n" + b)]
  {
    LettersAreProsaic(a, b);
    GroupOfWritten([], [a, b]);
    assert [] + [a, b] == [a, b];
    TrimOfTrimmed(a + "\n" + b);
    assert [a, b][1..] == [b];
    assert Join([a, b], "\n") == a + "\n" + b;
  }

  lemma {:induction false} LettersAreProse(a: string, b: string)
    requires Letters(a, b)
    ensures Parse([], [a, b]) == Parse([], [a, b, ""]) == [Paragraph(a + "\n" + b)]
  {
    LettersAreProsaic(a, b);
    LettersEmit(a, b);
    Buffered([], [a, b], []);
    assert [a, b] + [""] + [] == [a, b, ""] && [] + [a, b] + [""] == [a, b, ""];
    Detach([a, b], [], []);
    ProseStep([], [a, b], 0);
    ProseStep([a], [a, b], 1);
    hide ParseHeading, StartsTable, Prosaic, Letters;
    assert [a, b][0..] == [a, b] && [a, b][1..] == [b] && [a, b][2..] == [];
    assert [] + [a] == [a] && [a] + [b] == [a, b];
    assert Group([], []) == [];
  }

  lemma SplitLetters()
    ensures Split("a\r\nb", '\n') == ["a\r", "b"] && Split("a\nb\n", '\n') == ["a", "b", ""]
  {
    assert "a\r\nb" == "a\r" + ['\n'] + "b";
    SplitWhole("b", '\n');
    SplitFirst("a\r", '\n', "b");
    assert "b\n" == "b" + ['\n'] + "";
    assert "a\nb\n" == "a" + ['\n'] + "b\n";
    SplitFirst("b", '\n', "");
    SplitFirst("a", '\n', "b\n");
  }

  lemma NormaliseLetters()
    ensures NormaliseNewlines("a\r\r\nb") == "a\r\nb" && NormaliseNewlines("a\r\nb\n") == "a\nb\n"
  {
    NothingToNormalise("b\n");
    NothingToNormalise("b");
    assert "a\r\r\nb"[1..] == "\r\r\nb" && "\r\r\nb"[1..] == "\r\nb" && "\r\nb"[2..] == "b";
    assert "a\r\nb\n"[1..] == "\r\nb\n" && "\r\nb\n"[2..] == "b\n";
    assert NormaliseNewlines("\r\nb") == "\n" + "b" == "\nb";
    assert NormaliseNewlines("\r\r\nb") == "\r" + "\nb" == "\r\nb";
    assert NormaliseNewlines("\r\nb\n") == "\n" + "b\n" == "\nb\n";
  }

  lemma PrintLetters()
    ensures Print([Paragraph("a\r\nb")]) == "a\r\nb\n"
  {
    SplitLetters();
    hide Split;
    assert [Paragraph("a\r\nb")][1..] == [];
    assert PrintLines([Paragraph("a\r\nb")]) == ["a\r", "b"] + [""] + [] == ["a\r", "b", ""];
    assert ["a\r", "b", ""][1..] == ["b", ""] && ["b", ""][1..] == [""];
    assert Join(["a\r", "b", ""], "\n") == "a\r" + "\n" + ("b" + "\n" + "") == "a\r\nb\n";
  }

  /** A line feed after two carriage returns is normalised once by the first parse and again by the
      second, so this text's parse does not come back although its one paragraph is stable. */
  lemma TwoCarriageReturnsShrink()
    ensures ParseText("a\r\r\nb") == [Paragraph("a\r\nb")]
    ensures ParseText(Print([Paragraph("a\r\nb")])) == [Paragraph("a\nb")]
  {
    hide Parse, Split, NormaliseNewlines, Print, Letters;
    NormaliseLetters();
    SplitLetters();
    PrintLetters();
    assert Letters("a\r", "b") && Letters("a", "b") by {
      TheseAreLetters();
    }
    LettersAreProse("a\r", "b");
    LettersAreProse("a", "b");
    assert "a\r" + "\n" + "b" == "a\r\nb" && "a" + "\n" + "b" == "a\nb";
  }
}
