/**
 "The text is law": nothing is dropped and nothing is reordered.

 The input's lines are cut into regions, each line in exactly one region and in order; the parse is the
 regions' blocks in order; and each region's non-white-space characters are accounted for one by one.
 */
module VerbatimConservation {
  import opened Wrappers
  import opened Text
  import Sequences
  import opened VerbatimBlocks
  import VerbatimShapes

  datatype Region =
    | Prose(lines: seq<string>)
    | HeadingAt(line: string)
    | TableAt(header: string, separator: string, body: seq<string>)

  function SourceLines(r: Region): seq<string> {
    match r
    case Prose(lines) => lines
    case HeadingAt(line) => [line]
    case TableAt(header, separator, body) => [header, separator] + body
  }

  function Blocks(r: Region): seq<Block> {
    match r
    case Prose(lines) => Group([], lines)
    case HeadingAt(line) =>
      var h := ParseHeading(line);
      if h.Some? then [Heading(h.value.level, h.value.text)] else []
    case TableAt(header, _, body) => [TableOf(header, body)]
  }

  function AllLines(regions: seq<Region>): seq<string> {
    if regions == [] then [] else SourceLines(regions[0]) + AllLines(regions[1..])
  }

  function AllBlocks(regions: seq<Region>): seq<Block> {
    if regions == [] then [] else Blocks(regions[0]) + AllBlocks(regions[1..])
  }

  function AddProse(line: string, regions: seq<Region>): seq<Region> {
    if regions != [] && regions[0].Prose? then [Prose([line] + regions[0].lines)] + regions[1..]
    else [Prose([line])] + regions
  }

  function Segment(lines: seq<string>): seq<Region>
    decreases |lines|
  {
    if lines == [] then []
    else if ParseHeading(lines[0]).Some? then [HeadingAt(lines[0])] + Segment(lines[1..])
    else if |lines| > 1 && StartsTable(lines[0], lines[1]) then
      var n := BodyLength(lines[2..]);
      [TableAt(lines[0], lines[1], lines[2..2 + n])] + Segment(lines[2 + n..])
    else AddProse(lines[0], Segment(lines[1..]))
  }

  // ---- Every line once, in order; the regions' blocks are the parse ----

  lemma {:induction false} SegmentCovers(lines: seq<string>)
    ensures AllLines(Segment(lines)) == lines
    decreases |lines|
  {
    hide ParseHeading, StartsTable, BodyLength;
    if lines == [] {
    } else if ParseHeading(lines[0]).Some? {
      SegmentCovers(lines[1..]);
    } else if |lines| > 1 && StartsTable(lines[0], lines[1]) {
      var n := BodyLength(lines[2..]);
      SegmentCovers(lines[2 + n..]);
      AroundTable(lines, n);
    } else {
      var rest := Segment(lines[1..]);
      SegmentCovers(lines[1..]);
      AddProseCovers(lines[0], rest);
      assert lines == [lines[0]] + lines[1..];
    }
  }

  lemma AroundTable(lines: seq<string>, n: nat)
    requires 2 + n <= |lines|
    ensures lines == [lines[0], lines[1]] + lines[2..2 + n] + lines[2 + n..]
  {}

  lemma AddProseCovers(line: string, regions: seq<Region>)
    ensures AllLines(AddProse(line, regions)) == [line] + AllLines(regions)
  {
    var added := AddProse(line, regions);
    if regions != [] && regions[0].Prose? {
      assert added[1..] == regions[1..];
      assert [line] + (regions[0].lines + AllLines(regions[1..])) == [line] + regions[0].lines + AllLines(regions[1..]);
    } else {
      assert added[1..] == regions;
    }
  }

  /** The parse with pending lines in front of a segmentation. */
  function Resume(buffer: seq<string>, regions: seq<Region>): seq<Block> {
    if regions != [] && regions[0].Prose? then Group([], buffer + regions[0].lines) + AllBlocks(regions[1..])
    else Group([], buffer) + AllBlocks(regions)
  }

  lemma ResumeProse(buffer: seq<string>, line: string, regions: seq<Region>)
    ensures Resume(buffer, AddProse(line, regions)) == Resume(buffer + [line], regions)
  {
    hide Group;
    var added := AddProse(line, regions);
    if regions != [] && regions[0].Prose? {
      assert added[1..] == regions[1..];
      assert buffer + ([line] + regions[0].lines) == buffer + [line] + regions[0].lines;
    } else {
      assert added[1..] == regions;
    }
  }

  /** A region that is not prose ends the buffer. */
  lemma ResumeOther(buffer: seq<string>, region: Region, regions: seq<Region>)
    requires !region.Prose?
    ensures Resume(buffer, [region] + regions) == Group([], buffer) + (Blocks(region) + AllBlocks(regions))
  {
    hide Group, Blocks;
    assert ([region] + regions)[1..] == regions;
  }

  lemma ResumeEmpty(buffer: seq<string>)
    ensures Resume(buffer, []) == Group([], buffer)
  {
    hide Group;
    Sequences.Unit(Group([], buffer));
  }

  lemma SegmentedHeading(buffer: seq<string>, lines: seq<string>)
    requires lines != [] && ParseHeading(lines[0]).Some?
    requires Parse([], lines[1..]) == Resume([], Segment(lines[1..]))
    ensures Parse(buffer, lines) == Resume(buffer, Segment(lines))
  {
    hide ParseHeading, Group, Resume, AllBlocks;
    ResumeNothing(Segment(lines[1..]));
    ResumeOther(buffer, HeadingAt(lines[0]), Segment(lines[1..]));
  }

  lemma SegmentedTable(buffer: seq<string>, lines: seq<string>)
    requires |lines| > 1 && ParseHeading(lines[0]).None? && StartsTable(lines[0], lines[1])
    requires var rest := lines[2 + BodyLength(lines[2..])..]; Parse([], rest) == Resume([], Segment(rest))
    ensures Parse(buffer, lines) == Resume(buffer, Segment(lines))
  {
    hide ParseHeading, StartsTable, BodyLength, TableOf, Group, Resume, AllBlocks;
    var n := BodyLength(lines[2..]);
    ResumeNothing(Segment(lines[2 + n..]));
    ResumeOther(buffer, TableAt(lines[0], lines[1], lines[2..2 + n]), Segment(lines[2 + n..]));
  }

  lemma {:induction false} ParseIsSegmented(buffer: seq<string>, lines: seq<string>)
    ensures Parse(buffer, lines) == Resume(buffer, Segment(lines))
    decreases |lines|
  {
    hide ParseHeading, StartsTable, BodyLength, TableOf, Group, Resume, Blocks, AllBlocks;
    if lines == [] {
      ResumeEmpty(buffer);
    } else if ParseHeading(lines[0]).Some? {
      ParseIsSegmented([], lines[1..]);
      SegmentedHeading(buffer, lines);
    } else if |lines| > 1 && StartsTable(lines[0], lines[1]) {
      ParseIsSegmented([], lines[2 + BodyLength(lines[2..])..]);
      SegmentedTable(buffer, lines);
    } else {
      ParseIsSegmented(buffer + [lines[0]], lines[1..]);
      ResumeProse(buffer, lines[0], Segment(lines[1..]));
    }
  }

  lemma ResumeNothing(regions: seq<Region>)
    ensures Resume([], regions) == AllBlocks(regions)
  {
    if regions != [] && regions[0].Prose? {
      assert [] + regions[0].lines == regions[0].lines;
    } else {
      assert Group([], []) == [];
    }
  }

  // ---- What each region keeps ----

  /** The strings of a block in reading order. */
  function Reading(b: Block): seq<string> {
    match b
    case Paragraph(text) => [text]
    case Heading(_, text) => [text]
    case Table(headers, rows) => headers + Flatten(rows)
  }

  function Flatten(rows: seq<seq<string>>): seq<string> {
    if rows == [] then [] else rows[0] + Flatten(rows[1..])
  }

  function ReadingOf(blocks: seq<Block>): seq<string> {
    if blocks == [] then [] else Reading(blocks[0]) + ReadingOf(blocks[1..])
  }

  predicate PipeOrNothing(s: string) {
    s == "" || s == "|"
  }

  /** A row line is its cells, pipes between them, at most one pipe at each end; cells beyond the line's
      own are empty padding. */
  ghost predicate RowHolds(line: string, row: seq<string>) {
    exists m, lead, trail | 0 <= m <= |row| ::
      && PipeOrNothing(lead) && PipeOrNothing(trail)
      && Ink(line) == lead + Ink(Join(row[..m], "|")) + trail
      && (forall k | m <= k < |row| :: row[k] == "")
  }

  predicate OnlyHashes(s: string) {
    forall i | 0 <= i < |s| :: s[i] == '#'
  }

  ghost predicate HeadingHolds(line: string, level: nat, text: string) {
    && 1 <= level <= 6 && text != ""
    && exists open, close: string ::
         OnlyHashes(open) && |open| == level && OnlyHashes(close) && Ink(line) == open + Ink(text) + close
  }

  ghost predicate Accounted(r: Region) {
    match r
    case Prose(lines) =>
      && (forall i | 0 <= i < |Blocks(r)| :: Blocks(r)[i].Paragraph?)
      && InkOf(ReadingOf(Blocks(r))) == InkOf(lines)
    case HeadingAt(line) =>
      |Blocks(r)| == 1 && Blocks(r)[0].Heading? && HeadingHolds(line, Blocks(r)[0].level, Blocks(r)[0].text)
    case TableAt(header, separator, body) =>
      && Blocks(r)[0].Table? && |Blocks(r)| == 1
      && RowHolds(header, Blocks(r)[0].headers)
      && VerbatimShapes.SeparatorLine(separator) && VerbatimShapes.Ruled(separator)
      && |Blocks(r)[0].rows| == |body|
      && (forall i | 0 <= i < |body| ::
            |Blocks(r)[0].rows[i]| == |Blocks(r)[0].headers| && RowHolds(body[i], Blocks(r)[0].rows[i]))
  }

  // Paragraph regions

  lemma InkOfReadingFirst(b: Block, rest: seq<Block>)
    ensures InkOf(ReadingOf([b] + rest)) == InkOf(Reading(b)) + InkOf(ReadingOf(rest))
  {
    assert ([b] + rest)[1..] == rest;
    hide Reading, InkOf;
    InkOfConcat(Reading(b), ReadingOf(rest));
  }

  lemma {:induction false} ReadingOfConcat(a: seq<Block>, b: seq<Block>)
    ensures InkOf(ReadingOf(a + b)) == InkOf(ReadingOf(a)) + InkOf(ReadingOf(b))
  {
    if a == [] {
      assert InkOf(ReadingOf([])) == "";
      hide *;
      Sequences.Unit(b);
      Sequences.Unit(InkOf(ReadingOf(b)));
    } else {
      hide *;
      ReadingOfConcat(a[1..], b);
      InkOfReadingFirst(a[0], a[1..]);
      InkOfReadingFirst(a[0], a[1..] + b);
      Sequences.Split(a, 1);
      assert a[..1] == [a[0]];
      Sequences.Assoc([a[0]], a[1..], b);
      Sequences.Assoc(InkOf(Reading(a[0])), InkOf(ReadingOf(a[1..])), InkOf(ReadingOf(b)));
    }
  }

  lemma EmitKeepsInk(current: seq<string>)
    ensures InkOf(ReadingOf(Emit(current))) == InkOf(current)
    ensures forall i | 0 <= i < |Emit(current)| :: Emit(current)[i].Paragraph?
  {
    var joined := Join(current, "\n");
    InkOfJoin(current, "\n");
    InkOfTrim(joined);
    if current != [] && Trim(joined) != "" {
      assert ReadingOf(Emit(current)) == [Trim(joined)];
      assert InkOf([Trim(joined)]) == Ink(Trim(joined));
    }
  }

  lemma {:induction false} GroupKeepsInk(current: seq<string>, lines: seq<string>)
    ensures InkOf(ReadingOf(Group(current, lines))) == InkOf(current) + InkOf(lines)
    ensures forall i | 0 <= i < |Group(current, lines)| :: Group(current, lines)[i].Paragraph?
    decreases |lines|
  {
    hide Emit, ReadingOf, Ink;
    if lines == [] {
      EmitKeepsInk(current);
    } else {
      assert InkOf(lines) == Ink(lines[0]) + InkOf(lines[1..]);
      assert InkOf([lines[0]]) == Ink(lines[0]);
      if Trim(lines[0]) == "" {
        hide Trim;
        EmitKeepsInk(current);
        GroupKeepsInk([], lines[1..]);
        ReadingOfConcat(Emit(current), Group([], lines[1..]));
        InkOfTrim(lines[0]);
        InkOfBlank("");
      } else {
        hide Trim;
        GroupKeepsInk(current + [lines[0]], lines[1..]);
        InkOfConcat(current, [lines[0]]);
      }
    }
  }

  // Heading regions

  lemma InkOfHashes(s: string)
    requires OnlyHashes(s)
    ensures Ink(s) == s
  {
  }

  lemma {:induction false} HashesAround(s: string) returns (close: string)
    ensures OnlyHashes(close) && s == DropTrailingHashes(s) + close
  {
    close := s[|DropTrailingHashes(s)|..];
  }

  lemma HeadingKeepsInk(line: string)
    requires ParseHeading(line).Some?
    ensures HeadingHolds(line, ParseHeading(line).value.level, ParseHeading(line).value.text)
  {
    var n := LeadingHashes(line);
    var lead := TrimStartParts(line[n..]);
    var rest := TrimStart(line[n..]);
    var close := ContentKeepsInk(rest);
    InkOfHashes(line[..n]);
    InkOfBlank(lead);
    HeadingPieces(line, n, lead, rest, Ink(HeadingContent(rest)), close);
  }

  lemma HeadingPieces(line: string, n: nat, lead: string, rest: string, content: string, close: string)
    requires n <= |line| && line[n..] == lead + rest && Ink(lead) == "" && Ink(line[..n]) == line[..n]
    requires Ink(rest) == content + close
    ensures Ink(line) == line[..n] + content + close
  {
    hide Ink;
    InkConcat(line[..n], line[n..]);
    InkConcat(lead, rest);
    Sequences.Split(line, n);
    Sequences.Unit(Ink(rest));
    Sequences.Assoc(line[..n], content, close);
  }

  /** Dropping the closing hashes of a trimmed text. */
  lemma HashesKeepInk(hashed: string) returns (close: string)
    ensures OnlyHashes(close) && Ink(hashed) == Ink(TrimEnd(DropTrailingHashes(hashed))) + close
  {
    close := HashesAround(hashed);
    var inner := DropTrailingHashes(hashed);
    var trail := TrimEndParts(inner);
    InkOfHashes(close);
    InkOfBlank(trail);
    hide *;
    InkConcat(inner, close);
    InkConcat(TrimEnd(inner), trail);
    Sequences.Unit(Ink(TrimEnd(inner)));
  }

  lemma NothingButHashes(rest: string, close: string)
    requires rest != "" && !IsSpace(rest[0]) && OnlyHashes(close) && Ink(rest) == close
    ensures OnlyHashes(close[..]) && close != "" && close == Ink("#") + close[1..] && OnlyHashes(close[1..])
  {
    assert Ink(rest) == [rest[0]] + Ink(rest[1..]);
    hide IsSpace;
    assert close == [close[0]] + close[1..] && close[0] == '#';
    assert Ink("#") == "#";
  }

  lemma ContentKeepsInk(rest: string) returns (close: string)
    requires rest != "" && !IsSpace(rest[0])
    ensures OnlyHashes(close) && Ink(rest) == Ink(HeadingContent(rest)) + close && HeadingContent(rest) != ""
  {
    var trail := TrimEndParts(rest);
    var hashed := TrimEnd(rest);
    InkOfBlank(trail);
    var bare := TrimEnd(DropTrailingHashes(hashed));
    assert HeadingContent(rest) == if bare == "" then "#" else bare;
    assert Ink("") == "";
    hide *;
    InkConcat(hashed, trail);
    Sequences.Unit(Ink(hashed));
    close := HashesKeepInk(hashed);
    if bare == "" {
      Sequences.Unit(close);
      NothingButHashes(rest, close);
      close := close[1..];
    }
  }

  // Table regions

  lemma CellsKeepInk(line: string) returns (lead: string, trail: string)
    ensures PipeOrNothing(lead) && PipeOrNothing(trail)
    ensures Ink(line) == lead + Ink(Join(Cells(line), "|")) + trail
  {
    InkOfTrim(line);
    var t := Trim(line);
    var inner := DropOuterPipes(t);
    lead, trail := PipesAround(t);
    var parts := Split(inner, '|');
    JoinOfSplit(inner, '|');
    forall i | 0 <= i < |parts| ensures Ink(Cells(line)[i]) == Ink(parts[i]) { InkOfTrim(parts[i]); }
    InkOfJoins(Cells(line), "|", parts, "|");
  }

  lemma PipesAround(t: string) returns (lead: string, trail: string)
    ensures PipeOrNothing(lead) && PipeOrNothing(trail)
    ensures Ink(t) == lead + Ink(DropOuterPipes(t)) + trail
  {
    var u := if t != "" && t[0] == '|' then t[1..] else t;
    lead := if t != "" && t[0] == '|' then "|" else "";
    assert t == lead + u;
    InkConcat(lead, u);
    var inner := DropOuterPipes(t);
    trail := if u != "" && u[|u| - 1] == '|' then "|" else "";
    assert u == inner + trail;
    assert Ink(lead) == lead && Ink(trail) == trail;
    hide *;
    InkConcat(inner, trail);
    Sequences.Assoc(lead, Ink(inner), trail);
  }

  lemma {:induction false} JoinedTailKeepsInk(a: seq<string>, b: seq<string>, s: string, t: string)
    requires b != [] && Ink(s) == Ink(t)
    ensures Ink(Join(a + [Join(b, s)], t)) == Ink(Join(a + b, t))
  {
    if a == [] {
      assert a + b == b && a + [Join(b, s)] == [Join(b, s)];
      InkOfJoins(b, s, b, t);
    } else {
      JoinedTailKeepsInk(a[1..], b, s, t);
      var x, y := a + [Join(b, s)], a + b;
      assert x[0] == a[0] && x[1..] == a[1..] + [Join(b, s)] && y[0] == a[0] && y[1..] == a[1..] + b;
      InkConcat(a[0] + t, Join(x[1..], t));
      InkConcat(a[0] + t, Join(y[1..], t));
    }
  }

  lemma RowKeepsInk(line: string, width: nat)
    requires width >= 1
    ensures RowHolds(line, Reconcile(Cells(line), width))
  {
    var lead, trail := CellsKeepInk(line);
    hide Cells, Ink, Join;
    var cells := Cells(line);
    var row := Reconcile(cells, width);
    if |cells| <= width {
      assert row[..|cells|] == cells;
    } else {
      var head, tail := cells[..width - 1], cells[width - 1..];
      assert head + tail == cells;
      assert Ink(" | ") == Ink("|") by { PipeInk(); }
      JoinedTailKeepsInk(head, tail, " | ", "|");
      assert row[..width] == head + [Join(tail, " | ")];
    }
  }

  lemma PipeInk()
    ensures Ink(" | ") == "|" && Ink("|") == "|"
  {
    assert " | "[1..] == "| " && "| "[1..] == " " && " "[1..] == "" && "|"[1..] == "";
  }

  lemma HeaderKeepsInk(line: string)
    ensures RowHolds(line, Cells(line))
  {
    RowKeepsInk(line, |Cells(line)|);
  }

  lemma {:induction false} RegionsAreAccounted(lines: seq<string>)
    ensures forall i | 0 <= i < |Segment(lines)| :: Accounted(Segment(lines)[i])
    decreases |lines|
  {
    hide ParseHeading, StartsTable, BodyLength, Accounted, Blocks;
    if lines == [] {
    } else if ParseHeading(lines[0]).Some? {
      RegionsAreAccounted(lines[1..]);
      HeadingIsAccounted(lines[0]);
    } else if |lines| > 1 && StartsTable(lines[0], lines[1]) {
      var n := BodyLength(lines[2..]);
      RegionsAreAccounted(lines[2 + n..]);
      TableIsAccounted(lines[0], lines[1], lines[2..2 + n]);
    } else {
      RegionsAreAccounted(lines[1..]);
      var rest := Segment(lines[1..]);
      ProseIsAccounted([lines[0]]);
      if rest != [] && rest[0].Prose? { ProseIsAccounted([lines[0]] + rest[0].lines); }
    }
  }

  lemma ProseIsAccounted(lines: seq<string>)
    ensures Accounted(Prose(lines))
  {
    GroupKeepsInk([], lines);
  }

  lemma HeadingIsAccounted(line: string)
    requires ParseHeading(line).Some?
    ensures Accounted(HeadingAt(line))
  {
    HeadingKeepsInk(line);
  }

  lemma SeparatorIsAccounted(separator: string)
    requires IsSeparatorRow(separator)
    ensures VerbatimShapes.SeparatorLine(separator) && VerbatimShapes.Ruled(separator)
  {
    VerbatimShapes.SeparatorIs(separator);
    VerbatimShapes.SeparatorIsRuled(separator);
    hide VerbatimShapes.SeparatorLine, VerbatimShapes.Ruled, IsSeparatorRow;
  }

  lemma TableIsAccounted(header: string, separator: string, body: seq<string>)
    requires StartsTable(header, separator)
    ensures Accounted(TableAt(header, separator, body))
  {
    hide Cells, RowHolds, IsSeparatorRow, Reconcile, VerbatimShapes.SeparatorLine, VerbatimShapes.Ruled;
    HeaderKeepsInk(header);
    SeparatorIsAccounted(separator);
    forall i | 0 <= i < |body| ensures RowHolds(body[i], Reconcile(Cells(body[i]), |Cells(header)|)) {
      RowKeepsInk(body[i], |Cells(header)|);
    }
  }

  // ---- The same, as one equation ----

  /** The characters of a string that are neither white space nor table or heading marks. */
  function Wording(s: string): string {
    if s == "" then ""
    else (if IsSpace(s[0]) || s[0] == '|' || s[0] == '#' then "" else [s[0]]) + Wording(s[1..])
  }

  function WordingOf(parts: seq<string>): string {
    if parts == [] then "" else Wording(parts[0]) + WordingOf(parts[1..])
  }

  /** A region's lines other than a table's separator row. */
  function KeptLines(r: Region): seq<string> {
    if r.TableAt? then [r.header] + r.body else SourceLines(r)
  }

  function AllKeptLines(regions: seq<Region>): seq<string> {
    if regions == [] then [] else KeptLines(regions[0]) + AllKeptLines(regions[1..])
  }

  lemma {:induction false} WordingConcat(a: string, b: string)
    ensures Wording(a + b) == Wording(a) + Wording(b)
  {
    if a == "" {
      assert a + b == b;
    } else {
      assert (a + b)[0] == a[0] && (a + b)[1..] == a[1..] + b;
      WordingConcat(a[1..], b);
    }
  }

  lemma {:induction false} WordingOfInk(s: string)
    ensures Wording(Ink(s)) == Wording(s)
  {
    if s != "" {
      WordingOfInk(s[1..]);
      if IsSpace(s[0]) {
        assert "" + Ink(s[1..]) == Ink(s[1..]) && "" + Wording(s[1..]) == Wording(s[1..]);
      } else {
        assert ([s[0]] + Ink(s[1..]))[1..] == Ink(s[1..]);
      }
    }
  }

  lemma {:induction false} WordingOfMarks(s: string)
    requires forall i | 0 <= i < |s| :: s[i] == '|' || s[i] == '#'
    ensures Wording(s) == ""
  {
    if s != "" { WordingOfMarks(s[1..]); }
  }

  lemma {:induction false} WordingOfConcat(a: seq<string>, b: seq<string>)
    ensures WordingOf(a + b) == WordingOf(a) + WordingOf(b)
  {
    if a == [] {
      assert a + b == b;
    } else {
      assert (a + b)[0] == a[0] && (a + b)[1..] == a[1..] + b;
      WordingOfConcat(a[1..], b);
    }
  }

  lemma {:induction false} WordingOfInkOf(parts: seq<string>)
    ensures Wording(InkOf(parts)) == WordingOf(parts)
  {
    if parts != [] {
      WordingConcat(Ink(parts[0]), InkOf(parts[1..]));
      WordingOfInk(parts[0]);
      WordingOfInkOf(parts[1..]);
    }
  }

  lemma {:induction false} WordingOfJoin(parts: seq<string>)
    ensures Wording(Join(parts, "|")) == WordingOf(parts)
  {
    if |parts| == 1 {
      assert WordingOf(parts[1..]) == "";
    } else if |parts| > 1 {
      WordingConcat(parts[0] + "|", Join(parts[1..], "|"));
      WordingConcat(parts[0], "|");
      WordingOfMarks("|");
      WordingOfJoin(parts[1..]);
    }
  }

  lemma {:induction false} WordingOfPadding(parts: seq<string>)
    requires forall k | 0 <= k < |parts| :: parts[k] == ""
    ensures WordingOf(parts) == ""
  {
    if parts != [] { WordingOfPadding(parts[1..]); }
  }

  lemma RowKeepsWording(line: string, row: seq<string>)
    requires RowHolds(line, row)
    ensures Wording(line) == WordingOf(row)
  {
    var m, lead, trail :| 0 <= m <= |row| && PipeOrNothing(lead) && PipeOrNothing(trail)
      && Ink(line) == lead + Ink(Join(row[..m], "|")) + trail && (forall k | m <= k < |row| :: row[k] == "");
    WordingOfMarks(lead);
    WordingOfMarks(trail);
    WordingOfPadding(row[m..]);
    hide *;
    WordingOfInk(line);
    WordingOfInk(Join(row[..m], "|"));
    WordingConcat(lead + Ink(Join(row[..m], "|")), trail);
    WordingConcat(lead, Ink(Join(row[..m], "|")));
    WordingOfJoin(row[..m]);
    WordingOfConcat(row[..m], row[m..]);
    Sequences.Split(row, m);
    Sequences.Unit(WordingOf(row[..m]));
  }

  lemma {:induction false} RowsKeepWording(lines: seq<string>, rows: seq<seq<string>>)
    requires |lines| == |rows| && forall i | 0 <= i < |lines| :: RowHolds(lines[i], rows[i])
    ensures WordingOf(lines) == WordingOf(Flatten(rows))
  {
    hide RowHolds, Wording;
    if lines != [] {
      RowKeepsWording(lines[0], rows[0]);
      RowsKeepWording(lines[1..], rows[1..]);
      WordingOfConcat(rows[0], Flatten(rows[1..]));
    }
  }

  lemma HeadingKeepsWording(line: string, level: nat, text: string)
    requires HeadingHolds(line, level, text)
    ensures Wording(line) == Wording(text)
  {
    var open, close :| OnlyHashes(open) && |open| == level && OnlyHashes(close) &&
        Ink(line) == open + Ink(text) + close;
    WordingOfInk(line);
    WordingOfInk(text);
    WordingConcat(open + Ink(text), close);
    WordingConcat(open, Ink(text));
    WordingOfMarks(open);
    WordingOfMarks(close);
  }

  lemma RegionKeepsWording(r: Region)
    requires Accounted(r)
    ensures WordingOf(KeptLines(r)) == WordingOf(ReadingOf(Blocks(r)))
  {
    hide Group, TableOf, ParseHeading, RowHolds, HeadingHolds, Wording;
    match r
    case Prose(lines) =>
      WordingOfInkOf(ReadingOf(Blocks(r)));
      WordingOfInkOf(lines);
    case HeadingAt(line) =>
      var b := Blocks(r)[0];
      HeadingKeepsWording(line, b.level, b.text);
      OneBlock(Blocks(r));
      WordingOfOne(line);
      WordingOfOne(b.text);
    case TableAt(header, _, body) =>
      var b := Blocks(r)[0];
      RowKeepsWording(header, b.headers);
      RowsKeepWording(body, b.rows);
      OneBlock(Blocks(r));
      WordingOfConcat([header], body);
      WordingOfConcat(b.headers, Flatten(b.rows));
      WordingOfOne(header);
  }

  lemma WordingOfOne(s: string)
    ensures WordingOf([s]) == Wording(s)
  {
    assert [s][1..] == [] && Wording(s) + "" == Wording(s);
  }

  lemma OneBlock(blocks: seq<Block>)
    requires |blocks| == 1
    ensures ReadingOf(blocks) == Reading(blocks[0])
  {
    assert blocks[1..] == [];
  }

  lemma {:induction false} ReadingConcat(a: seq<Block>, b: seq<Block>)
    ensures ReadingOf(a + b) == ReadingOf(a) + ReadingOf(b)
  {
    hide Reading;
    if a == [] {
      assert a + b == b;
    } else {
      assert (a + b)[0] == a[0] && (a + b)[1..] == a[1..] + b;
      ReadingConcat(a[1..], b);
    }
  }

  lemma {:induction false} RegionsKeepWording(regions: seq<Region>)
    requires forall i | 0 <= i < |regions| :: Accounted(regions[i])
    ensures WordingOf(AllKeptLines(regions)) == WordingOf(ReadingOf(AllBlocks(regions)))
  {
    hide Accounted, KeptLines, Blocks, WordingOf;
    if regions == [] {
    } else {
      RegionKeepsWording(regions[0]);
      RegionsKeepWording(regions[1..]);
      WordingOfConcat(KeptLines(regions[0]), AllKeptLines(regions[1..]));
      ReadingConcat(Blocks(regions[0]), AllBlocks(regions[1..]));
      WordingOfConcat(ReadingOf(Blocks(regions[0])), ReadingOf(AllBlocks(regions[1..])));
    }
  }

  /** MAIN, as one equation: leaving out table separator rows, the words of the text are the words of its
      blocks, each exactly once and in order. */
  lemma WordingIsConserved(text: string)
    ensures WordingOf(AllKeptLines(Segment(Lines(text)))) == WordingOf(ReadingOf(ParseText(text)))
  {
    EveryCharacterIsAccountedFor(text);
    RegionsKeepWording(Segment(Lines(text)));
  }

  lemma {:induction false} SplitKeepsInk(s: string, sep: char)
    requires IsSpace(sep)
    ensures InkOf(Split(s, sep)) == Ink(s)
  {
    JoinOfSplit(s, sep);
    InkOfJoin(Split(s, sep), [sep]);
  }

  lemma {:induction false} NormaliseKeepsInk(s: string)
    ensures Ink(NormaliseNewlines(s)) == Ink(s)
  {
    if |s| >= 2 {
      if s[0] == '\r' && s[1] == '\n' {
        NormaliseKeepsInk(s[2..]);
        assert s[1..][1..] == s[2..];
      } else {
        NormaliseKeepsInk(s[1..]);
      }
    }
  }

  /** MAIN: for every text, its lines fall in order into regions whose blocks are exactly the parse, the
      regions hold all the text's ink, and each region's ink is accounted for character by character. */
  lemma EveryCharacterIsAccountedFor(text: string)
    ensures var regions := Segment(Lines(text));
      && AllLines(regions) == Lines(text)
      && InkOf(AllLines(regions)) == Ink(text)
      && AllBlocks(regions) == ParseText(text)
      && (forall i | 0 <= i < |regions| :: Accounted(regions[i]))
  {
    var lines := Lines(text);
    SegmentCovers(lines);
    ParseIsSegmented([], lines);
    ResumeNothing(Segment(lines));
    RegionsAreAccounted(lines);
    NormaliseKeepsInk(text);
    SplitKeepsInk(NormaliseNewlines(text), '\n');
  }
}
