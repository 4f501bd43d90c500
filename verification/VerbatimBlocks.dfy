/**
 Splitting a regulation's verbatim text into headings, tables and paragraphs.

 ATX headings and pipe tables are approximations of section 4.2 of the CommonMark Spec and section 4.10
 of the GitHub Flavored Markdown Spec.
 */
module VerbatimBlocks {
  import opened Wrappers
  import opened Text

  datatype Block =
    | Table(headers: seq<string>, rows: seq<seq<string>>)
    | Paragraph(text: string)
    | Heading(level: nat, text: string)

  datatype HeadingLine = HeadingLine(level: nat, text: string)

  // ---- Headings ----

  function LeadingHashes(s: string): (n: nat)
    ensures n <= |s| && (forall i | 0 <= i < n :: s[i] == '#') && (n < |s| ==> s[n] != '#')
  {
    if s != "" && s[0] == '#' then 1 + LeadingHashes(s[1..]) else 0
  }

  function DropTrailingHashes(s: string): (t: string)
    ensures |t| <= |s| && t == s[..|t|] && (forall i | |t| <= i < |s| :: s[i] == '#')
    ensures t != "" ==> t[|t| - 1] != '#'
  {
    if s != "" && s[|s| - 1] == '#' then DropTrailingHashes(s[..|s| - 1]) else s
  }

  predicate OneLine(s: string) {
    forall i | 0 <= i < |s| :: !IsLineTerminator(s[i])
  }

  /** What follows the opening hashes and white space, without closing hashes; a content of hashes only
      keeps its first. */
  function HeadingContent(rest: string): string {
    var bare := TrimEnd(DropTrailingHashes(TrimEnd(rest)));
    if bare == "" then "#" else bare
  }

  function ParseHeading(line: string): Option<HeadingLine> {
    var n := LeadingHashes(line);
    if n < 1 || 6 < n || n == |line| || !IsSpace(line[n]) then None
    else
      var rest := TrimStart(line[n..]);
      if rest == "" || !OneLine(HeadingContent(rest)) then None
      else Some(HeadingLine(n, HeadingContent(rest)))
  }

  // ---- Table rows ----

  function DropOuterPipes(s: string): string {
    var t := if s != "" && s[0] == '|' then s[1..] else s;
    if t != "" && t[|t| - 1] == '|' then t[..|t| - 1] else t
  }

  function TrimAll(parts: seq<string>): (r: seq<string>)
    ensures |r| == |parts| && forall i | 0 <= i < |r| :: r[i] == Trim(parts[i])
  {
    seq(|parts|, i requires 0 <= i < |parts| => Trim(parts[i]))
  }

  function Cells(line: string): (cells: seq<string>)
    ensures |cells| >= 1
  {
    TrimAll(Split(DropOuterPipes(Trim(line)), '|'))
  }

  /** Dashes with an optional colon at either end. */
  predicate IsDashCell(c: string) {
    var from := if c != "" && c[0] == ':' then 1 else 0;
    var to := if c != "" && c[|c| - 1] == ':' then |c| - 1 else |c|;
    from < to && forall i | from <= i < to :: c[i] == '-'
  }

  predicate AllDashes(cells: seq<string>) {
    forall i | 0 <= i < |cells| :: IsDashCell(cells[i])
  }

  predicate IsSeparatorRow(line: string) {
    AllDashes(Cells(line))
  }

  predicate LooksLikeRow(line: string) {
    '|' in line
  }

  predicate IsBodyRow(line: string) {
    LooksLikeRow(line) && Trim(line) != "" && !IsSeparatorRow(line)
  }

  predicate StartsTable(line: string, next: string) {
    && LooksLikeRow(line) && !IsSeparatorRow(line) && Trim(line) != "" && IsSeparatorRow(next)
    && |Cells(next)| == |Cells(line)|
  }

  function Repeat<T>(x: T, n: nat): (r: seq<T>)
    ensures |r| == n && forall i | 0 <= i < n :: r[i] == x
  {
    seq(n, _ => x)
  }

  /** Fits a row to the header width: short rows are padded, the tail of a long row becomes one cell. */
  function Reconcile(cells: seq<string>, width: nat): (row: seq<string>)
    requires width >= 1
    ensures |row| == width
  {
    if |cells| < width then cells + Repeat("", width - |cells|)
    else if |cells| > width then cells[..width - 1] + [Join(cells[width - 1..], " | ")]
    else cells
  }

  function BodyLength(lines: seq<string>): (n: nat)
    ensures n <= |lines|
  {
    if lines != [] && IsBodyRow(lines[0]) then 1 + BodyLength(lines[1..]) else 0
  }

  function RowsOf(lines: seq<string>, width: nat): (rows: seq<seq<string>>)
    requires width >= 1
    ensures |rows| == |lines| && forall i | 0 <= i < |rows| :: rows[i] == Reconcile(Cells(lines[i]), width)
  {
    seq(|lines|, i requires 0 <= i < |lines| => Reconcile(Cells(lines[i]), width))
  }

  function TableOf(header: string, body: seq<string>): Block {
    Table(Cells(header), RowsOf(body, |Cells(header)|))
  }

  // ---- Paragraphs ----

  function Emit(current: seq<string>): seq<Block> {
    var para := Trim(Join(current, "\n"));
    if current == [] || para == "" then [] else [Paragraph(para)]
  }

  /** Groups lines into paragraphs at blank lines; `current` is the paragraph under way. */
  function Group(current: seq<string>, lines: seq<string>): seq<Block>
    decreases |lines|
  {
    if lines == [] then Emit(current)
    else if Trim(lines[0]) == "" then Emit(current) + Group([], lines[1..])
    else Group(current + [lines[0]], lines[1..])
  }

  // ---- The parse of a list of lines ----

  /** The blocks of `lines`, given the pending lines `buffer` that belong to no block yet. */
  function Parse(buffer: seq<string>, lines: seq<string>): seq<Block>
    decreases |lines|
  {
    if lines == [] then Group([], buffer)
    else
      var heading := ParseHeading(lines[0]);
      if heading.Some? then
        Group([], buffer) + ([Heading(heading.value.level, heading.value.text)] + Parse([], lines[1..]))
      else if |lines| > 1 && StartsTable(lines[0], lines[1]) then
        var n := BodyLength(lines[2..]);
        Group([], buffer) + ([TableOf(lines[0], lines[2..2 + n])] + Parse([], lines[2 + n..]))
      else
        Parse(buffer + [lines[0]], lines[1..])
  }

  function NormaliseNewlines(s: string): string {
    if |s| < 2 then s
    else if s[0] == '\r' && s[1] == '\n' then "\n" + NormaliseNewlines(s[2..])
    else [s[0]] + NormaliseNewlines(s[1..])
  }

  function Lines(text: string): seq<string> {
    Split(NormaliseNewlines(text), '\n')
  }

  function ParseText(text: string): seq<Block> {
    Parse([], Lines(text))
  }

  // ---- The parser's loops ----

  /** The empty line is not a separator row, so a last line never starts a table. */
  lemma EmptyIsNotSeparator(line: string)
    ensures !IsSeparatorRow("") && !StartsTable(line, "")
  {
    assert Cells("") == [""];
    assert !IsDashCell(Cells("")[0]);
  }

  lemma {:induction false} BlankLinesEmitNothing(lines: seq<string>)
    requires forall i | 0 <= i < |lines| :: Blank(lines[i])
    ensures Group([], lines) == []
  {
    if lines != [] {
      TrimToNothing(lines[0]);
      BlankLinesEmitNothing(lines[1..]);
    }
  }

  lemma BlankIsProse(line: string, next: string)
    requires Blank(line)
    ensures ParseHeading(line).None? && !StartsTable(line, next)
  {
    assert line != "" ==> line[0] == line[LeadingHashes(line)] || LeadingHashes(line) > 0;
  }

  lemma {:induction false} BlankTextHasNoBlocks(buffer: seq<string>, lines: seq<string>)
    requires forall i | 0 <= i < |buffer| :: Blank(buffer[i])
    requires forall i | 0 <= i < |lines| :: Blank(lines[i])
    ensures Parse(buffer, lines) == []
    decreases |lines|
  {
    if lines == [] {
      BlankLinesEmitNothing(buffer);
    } else {
      BlankIsProse(lines[0], if |lines| > 1 then lines[1] else "");
      BlankTextHasNoBlocks(buffer + [lines[0]], lines[1..]);
    }
  }

  method FlushParagraphs(paragraphLines: seq<string>) returns (blocks: seq<Block>)
    ensures blocks == Group([], paragraphLines)
  {
    blocks := [];
    var current := [];
    for i := 0 to |paragraphLines|
      invariant blocks + Group(current, paragraphLines[i..]) == Group([], paragraphLines)
    {
      assert paragraphLines[i..][1..] == paragraphLines[i + 1..];
      if Trim(paragraphLines[i]) == "" {
        blocks := blocks + Emit(current);
        current := [];
      } else {
        current := current + [paragraphLines[i]];
      }
    }
    assert paragraphLines[|paragraphLines|..] == [];
    blocks := blocks + Emit(current);
  }

  /** Fits one row to the header width, one missing cell at a time. */
  method FitRow(raw: seq<string>, width: nat) returns (cells: seq<string>)
    requires width >= 1
    ensures cells == Reconcile(raw, width)
  {
    cells := raw;
    if |cells| < width {
      while |cells| < width
        invariant |raw| <= |cells| <= width
        invariant cells == raw + Repeat("", |cells| - |raw|)
      {
        cells := cells + [""];
      }
    } else if |cells| > width {
      var head, tail := cells[..width - 1], Join(cells[width - 1..], " | ");
      cells := head + [tail];
    }
  }

  lemma RowsOfExtend(lines: seq<string>, line: string, width: nat)
    requires width >= 1
    ensures RowsOf(lines + [line], width) == RowsOf(lines, width) + [Reconcile(Cells(line), width)]
  {
    hide Cells, Reconcile;
  }

  lemma BodyLengthStep(lines: seq<string>)
    requires lines != []
    ensures BodyLength(lines) == if IsBodyRow(lines[0]) then 1 + BodyLength(lines[1..]) else 0
  {
    hide IsBodyRow;
  }

  method ParseRows(lines: seq<string>, start: nat, width: nat) returns (rows: seq<seq<string>>, j: nat)
    requires start <= |lines| && width >= 1
    ensures j == start + BodyLength(lines[start..])
    ensures rows == RowsOf(lines[start..j], width)
  {
    hide Cells, Reconcile, BodyLength, RowsOf, Trim, IsSeparatorRow, LooksLikeRow;
    j, rows := start, [];
    assert RowsOf(lines[start..start], width) == [];
    while j < |lines| && LooksLikeRow(lines[j]) && Trim(lines[j]) != "" && !IsSeparatorRow(lines[j])
      invariant start <= j <= |lines|
      invariant j - start + BodyLength(lines[j..]) == BodyLength(lines[start..])
      invariant rows == RowsOf(lines[start..j], width)
    {
      assert lines[j..][1..] == lines[j + 1..];
      BodyLengthStep(lines[j..]);
      assert lines[start..j + 1] == lines[start..j] + [lines[j]];
      RowsOfExtend(lines[start..j], lines[j], width);
      var cells := FitRow(Cells(lines[j]), width);
      rows := rows + [cells];
      j := j + 1;
    }
    if j < |lines| { BodyLengthStep(lines[j..]); }
    assert j == |lines| ==> BodyLength(lines[j..]) == 0;
  }

  // One turn of the parser's loop, as an equation on what remains to be parsed.

  lemma HeadingStep(blocks: seq<Block>, buffer: seq<string>, lines: seq<string>, i: nat)
    requires i < |lines| && ParseHeading(lines[i]).Some?
    ensures var h := ParseHeading(lines[i]).value;
      blocks + Group([], buffer) + [Heading(h.level, h.text)] + Parse([], lines[i + 1..]) ==
          blocks + Parse(buffer, lines[i..])
  {
    hide ParseHeading, Group;
    var h := ParseHeading(lines[i]).value;
    assert lines[i..][0] == lines[i] && lines[i..][1..] == lines[i + 1..];
    Reassociate(blocks, Group([], buffer), [Heading(h.level, h.text)], Parse([], lines[i + 1..]));
  }

  lemma TableStep(blocks: seq<Block>, buffer: seq<string>, lines: seq<string>, i: nat)
    requires i + 1 < |lines| && ParseHeading(lines[i]).None? && StartsTable(lines[i], lines[i + 1])
    ensures var j := i + 2 + BodyLength(lines[i + 2..]);
      blocks + Group([], buffer) + [TableOf(lines[i], lines[i + 2..j])] + Parse([], lines[j..]) ==
          blocks + Parse(buffer, lines[i..])
  {
    hide ParseHeading, Group, TableOf, StartsTable, BodyLength;
    var rest, n := lines[i..], BodyLength(lines[i + 2..]);
    assert rest[0] == lines[i] && rest[1] == lines[i + 1] && rest[2..] == lines[i + 2..];
    assert rest[2..2 + n] == lines[i + 2..i + 2 + n] && rest[2 + n..] == lines[i + 2 + n..];
    Reassociate(blocks, Group([], buffer), [TableOf(lines[i], rest[2..2 + n])], Parse([], rest[2 + n..]));
  }

  lemma ProseStep(buffer: seq<string>, lines: seq<string>, i: nat)
    requires i < |lines| && ParseHeading(lines[i]).None?
    requires i + 1 < |lines| ==> !StartsTable(lines[i], lines[i + 1])
    ensures Parse(buffer + [lines[i]], lines[i + 1..]) == Parse(buffer, lines[i..])
  {
    hide ParseHeading, Group, StartsTable;
    var rest := lines[i..];
    assert rest[0] == lines[i] && rest[1..] == lines[i + 1..];
    assert i + 1 < |lines| ==> rest[1] == lines[i + 1];
  }

  lemma ParseEnd(buffer: seq<string>, lines: seq<string>)
    requires lines == []
    ensures Parse(buffer, lines) == Group([], buffer)
  {
  }

  method ParseLines(lines: seq<string>) returns (blocks: seq<Block>)
    ensures blocks == Parse([], lines)
  {
    hide ParseHeading, Cells, IsSeparatorRow, LooksLikeRow, Trim, BodyLength, RowsOf, Group, Parse, Reconcile;
    blocks := [];
    var paragraphLines := [];
    var i := 0;
    while i < |lines|
      invariant 0 <= i <= |lines|
      invariant blocks + Parse(paragraphLines, lines[i..]) == Parse([], lines)
      decreases |lines| - i
    {
      var line := lines[i];
      var next := if i + 1 < |lines| then lines[i + 1] else "";
      var heading := ParseHeading(line);
      if heading.Some? {
        HeadingStep(blocks, paragraphLines, lines, i);
        var flushed := FlushParagraphs(paragraphLines);
        blocks := blocks + flushed + [Heading(heading.value.level, heading.value.text)];
        paragraphLines := [];
        i := i + 1;
        continue;
      }
      if LooksLikeRow(line) && !IsSeparatorRow(line) && Trim(line) != "" && IsSeparatorRow(next) {
        var headers := Cells(line);
        if |Cells(next)| == |headers| {
          assert next != "" by { EmptyIsNotSeparator(line); }
          TableStep(blocks, paragraphLines, lines, i);
          var flushed := FlushParagraphs(paragraphLines);
          var rows, j := ParseRows(lines, i + 2, |headers|);
          blocks := blocks + flushed + [Table(headers, rows)];
          paragraphLines := [];
          i := j;
          continue;
        }
      }
      ProseStep(paragraphLines, lines, i);
      paragraphLines := paragraphLines + [line];
      i := i + 1;
    }
    ParseEnd(paragraphLines, lines[i..]);
    var flushed := FlushParagraphs(paragraphLines);
    blocks := blocks + flushed;
  }

  method ParseVerbatimBlocks(text: string) returns (blocks: seq<Block>)
    ensures blocks == ParseText(text)
  {
    if Trim(text) == "" {
      BlankInput(text);
      return [];
    }
    blocks := ParseLines(Lines(text));
  }

  lemma Reassociate<T>(a: seq<T>, b: seq<T>, c: seq<T>, d: seq<T>)
    ensures a + (b + (c + d)) == a + b + c + d
  {
  }

  lemma {:induction false} NormaliseMembers(s: string)
    ensures forall c :: c in NormaliseNewlines(s) ==> c in s
  {
    if |s| >= 2 {
      if s[0] == '\r' && s[1] == '\n' { NormaliseMembers(s[2..]); } else { NormaliseMembers(s[1..]); }
    }
  }

  lemma BlankInput(text: string)
    requires Trim(text) == ""
    ensures ParseText(text) == []
  {
    TrimToNothing(text);
    NormaliseMembers(text);
    SplitPieces(NormaliseNewlines(text), '\n');
    assert forall c | c in text :: IsSpace(c);
    forall i | 0 <= i < |Lines(text)| ensures Blank(Lines(text)[i]) {
      forall k | 0 <= k < |Lines(text)[i]| ensures IsSpace(Lines(text)[i][k]) {
        assert Lines(text)[i][k] in Lines(text)[i];
      }
    }
    BlankTextHasNoBlocks([], Lines(text));
  }
}
