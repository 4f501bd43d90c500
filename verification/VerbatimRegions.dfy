/**
 Where the parser cuts a text, and what it makes of each part, in the text's own terms.

 The cut into headings, tables and prose is the only one in which every heading line stands alone, every table is
 as long as it can be, and no line of prose is a heading or begins a table.
 */
module VerbatimRegions {
  import opened Wrappers
  import opened Text
  import opened VerbatimBlocks
  import opened VerbatimHeading
  import opened VerbatimConservation
  import S = VerbatimShapes

  // ---- Lines ----

  ghost predicate TitleLine(line: string) {
    exists m, text :: IsMatch(line, m) && S.Trims(m.text, text) && text != ""
  }

  predicate Inked(line: string) {
    exists i | 0 <= i < |line| :: !S.Space(line[i])
  }

  /** A row: some pipe, some ink, and not a separator. */
  ghost predicate RowLine(line: string) {
    '|' in line && Inked(line) && !S.SeparatorLine(line)
  }

  /** A row over a separator row with as many cells. */
  ghost predicate Tabular(header: string, separator: string) {
    && RowLine(header) && S.SeparatorLine(separator)
    && exists a, b :: S.Row(header, a) && S.Row(separator, b) && |a| == |b|
  }

  lemma TitleIs(line: string)
    ensures ParseHeading(line).Some? <==> TitleLine(line)
  {
    HeadingIsPreferredMatch(line, HeadingLine(0, ""));
    hide ParseHeading, IsMatch, Trim, S.Trims;
    if m :| IsMatch(line, m) && Trim(m.text) != "" {
      S.TrimIs(m.text);
      assert S.Trims(m.text, Trim(m.text));
    }
    if m, text :| IsMatch(line, m) && S.Trims(m.text, text) && text != "" {
      S.TrimIs(m.text);
    }
  }

  lemma InkedIs(line: string)
    ensures Trim(line) != "" <==> Inked(line)
  {
    TrimToNothing(line);
    forall c: char ensures IsSpace(c) <==> S.Space(c) { S.CharacterClasses(c); }
    hide IsSpace, S.Space;
  }

  lemma RowIs(line: string)
    ensures IsBodyRow(line) <==> RowLine(line)
  {
    InkedIs(line);
    S.SeparatorIs(line);
    hide IsSeparatorRow, Trim, S.SeparatorLine, Inked;
  }

  lemma TabularIs(header: string, separator: string)
    ensures StartsTable(header, separator) <==> Tabular(header, separator)
  {
    RowIs(header);
    S.SeparatorIs(separator);
    S.CellsAre(header);
    S.CellsAre(separator);
    hide IsSeparatorRow, Trim, Cells, S.SeparatorLine, S.Row, Inked;
  }

  // ---- The cut ----

  /** What may follow a region: the line after it, if there is one. */
  ghost predicate WellCut(regions: seq<Region>)
    decreases |regions|
  {
    if regions == [] then true
    else
      var rest := AllLines(regions[1..]);
      && WellCut(regions[1..])
      && match regions[0]
         case HeadingAt(line) => TitleLine(line)
         case TableAt(header, separator, body) =>
           && !TitleLine(header) && Tabular(header, separator)
           && (forall i | 0 <= i < |body| :: RowLine(body[i]))
           && (rest != [] ==> !RowLine(rest[0]))
         case Prose(lines) =>
           && lines != [] && (|regions| > 1 ==> !regions[1].Prose?)
           && (forall i | 0 <= i < |lines| :: Loose(lines + rest, i))
  }

  /** Line `i` is no heading, and does not begin a table with the line after it. */
  ghost predicate Loose(lines: seq<string>, i: nat)
    requires i < |lines|
  {
    !TitleLine(lines[i]) && (i + 1 < |lines| ==> !Tabular(lines[i], lines[i + 1]))
  }

  lemma {:induction false} BodyIs(lines: seq<string>)
    ensures var n := BodyLength(lines);
            && (forall i | 0 <= i < n :: RowLine(lines[i]))
            && (n < |lines| ==> !RowLine(lines[n]))
  {
    hide IsBodyRow, RowLine;
    if lines != [] {
      RowIs(lines[0]);
      if IsBodyRow(lines[0]) {
        BodyIs(lines[1..]);
      }
    }
  }

  lemma BodyCut(lines: seq<string>)
    ensures var body, rest := lines[..BodyLength(lines)], lines[BodyLength(lines)..];
            && (forall i | 0 <= i < |body| :: RowLine(body[i]))
            && (rest != [] ==> !RowLine(rest[0]))
  {
    hide BodyLength, RowLine;
    BodyIs(lines);
  }

  lemma LooseMore(line: string, lines: seq<string>, i: nat)
    requires i < |lines| && Loose(lines, i)
    ensures Loose([line] + lines, i + 1)
  {
    hide TitleLine, Tabular;
  }

  lemma LooseThroughout(line: string, lines: seq<string>, rest: seq<string>)
    requires Loose([line] + (lines + rest), 0) && forall i | 0 <= i < |lines| :: Loose(lines + rest, i)
    ensures forall i | 0 <= i < |[line] + lines| :: Loose([line] + lines + rest, i)
  {
    hide Loose;
    assert [line] + lines + rest == [line] + (lines + rest);
    forall i | 0 <= i < |lines| + 1 ensures Loose([line] + lines + rest, i) {
      if i > 0 {
        LooseMore(line, lines + rest, i - 1);
      }
    }
  }

  lemma AddProseCut(line: string, regions: seq<Region>)
    requires WellCut(regions) && Loose([line] + AllLines(regions), 0)
    ensures WellCut(AddProse(line, regions))
  {
    hide TitleLine, Tabular, RowLine, Loose;
    var added := AddProse(line, regions);
    if regions != [] && regions[0].Prose? {
      var lines, rest := regions[0].lines, AllLines(regions[1..]);
      assert added[1..] == regions[1..];
      assert AllLines(regions) == lines + rest;
      LooseThroughout(line, lines, rest);
    } else {
      assert added[1..] == regions;
    }
  }

  lemma {:induction false} SegmentIsWellCut(lines: seq<string>)
    ensures WellCut(Segment(lines))
    decreases |lines|
  {
    hide ParseHeading, StartsTable, BodyLength, TitleLine, Tabular, RowLine;
    SegmentCovers(lines);
    if lines == [] {
    } else {
      TitleIs(lines[0]);
      if |lines| > 1 { TabularIs(lines[0], lines[1]); }
      if ParseHeading(lines[0]).Some? {
        SegmentIsWellCut(lines[1..]);
        assert Segment(lines)[1..] == Segment(lines[1..]);
      } else if |lines| > 1 && StartsTable(lines[0], lines[1]) {
        var n := BodyLength(lines[2..]);
        SegmentIsWellCut(lines[2 + n..]);
        SegmentCovers(lines[2 + n..]);
        BodyCut(lines[2..]);
        assert lines[2..2 + n] == lines[2..][..n] && lines[2 + n..] == lines[2..][n..];
        assert Segment(lines)[1..] == Segment(lines[2 + n..]);
      } else {
        SegmentIsWellCut(lines[1..]);
        SegmentCovers(lines[1..]);
        assert [lines[0]] + lines[1..] == lines;
        AddProseCut(lines[0], Segment(lines[1..]));
      }
    }
  }

  lemma {:induction false} BodyIsMaximal(body: seq<string>, rest: seq<string>)
    requires forall i | 0 <= i < |body| :: RowLine(body[i])
    requires rest != [] ==> !RowLine(rest[0])
    ensures BodyLength(body + rest) == |body|
  {
    hide IsBodyRow, RowLine;
    if body == [] {
      assert body + rest == rest;
      if rest != [] { RowIs(rest[0]); }
    } else {
      RowIs(body[0]);
      assert (body + rest)[1..] == body[1..] + rest;
      BodyIsMaximal(body[1..], rest);
    }
  }

  lemma LooseLess(lines: seq<string>, rest: seq<string>)
    requires lines != [] && forall i | 0 <= i < |lines| :: Loose(lines + rest, i)
    ensures forall i | 0 <= i < |lines[1..]| :: Loose(lines[1..] + rest, i)
  {
    hide TitleLine, Tabular;
    var all, less := lines + rest, lines[1..] + rest;
    assert all[1..] == less;
    forall i | 0 <= i < |lines| - 1 ensures Loose(less, i) {
      var j := i + 1;
      assert Loose(all, j);
      assert all[j] == less[i] && (j + 1 < |all| ==> all[j + 1] == less[i + 1]);
    }
  }

  lemma LooseSegment(lines: seq<string>)
    requires lines != [] && Loose(lines, 0)
    ensures Segment(lines) == AddProse(lines[0], Segment(lines[1..]))
  {
    hide ParseHeading, StartsTable, BodyLength, TitleLine, Tabular, AddProse;
    TitleIs(lines[0]);
    if |lines| > 1 { TabularIs(lines[0], lines[1]); }
  }

  lemma {:induction false} ProseIsSegmented(lines: seq<string>, rest: seq<string>)
    requires lines != [] && (forall i | 0 <= i < |lines| :: Loose(lines + rest, i))
    requires Segment(rest) != [] ==> !Segment(rest)[0].Prose?
    ensures Segment(lines + rest) == [Prose(lines)] + Segment(rest)
    decreases |lines|
  {
    hide Segment, Loose;
    var all := lines + rest;
    assert Loose(all, 0) && all[0] == lines[0];
    LooseSegment(all);
    assert all[1..] == lines[1..] + rest;
    if |lines| == 1 {
      assert lines == [lines[0]] && lines[1..] + rest == rest;
    } else {
      LooseLess(lines, rest);
      ProseIsSegmented(lines[1..], rest);
      assert [lines[0]] + lines[1..] == lines;
      AddProseFirst(lines[0], lines[1..], Segment(rest));
    }
  }

  lemma AddProseFirst(line: string, lines: seq<string>, regions: seq<Region>)
    ensures AddProse(line, [Prose(lines)] + regions) == [Prose([line] + lines)] + regions
  {
    assert ([Prose(lines)] + regions)[1..] == regions;
  }

  /** There is no other cut. */
  lemma {:induction false} OneWellCut(regions: seq<Region>)
    requires WellCut(regions)
    ensures regions == Segment(AllLines(regions))
    decreases |regions|
  {
    hide ParseHeading, StartsTable, BodyLength, TitleLine, Tabular, RowLine;
    if regions != [] {
      var rest := AllLines(regions[1..]);
      OneWellCut(regions[1..]);
      assert regions == [regions[0]] + regions[1..];
      match regions[0]
      case HeadingAt(line) =>
        TitleIs(line);
        assert AllLines(regions)[1..] == rest;
      case TableAt(header, separator, body) =>
        TitleIs(header);
        TabularIs(header, separator);
        BodyIsMaximal(body, rest);
        TableLines(header, separator, body, rest);
      case Prose(lines) =>
        ProseIsSegmented(lines, rest);
    }
  }

  lemma TableLines(header: string, separator: string, body: seq<string>, rest: seq<string>)
    ensures var all := [header, separator] + body + rest;
            && all[0] == header && all[1] == separator && all[2..] == body + rest
            && all[2..2 + |body|] == body && all[2 + |body|..] == rest
  {}

  // ---- What each part becomes ----

  ghost predicate Holds(b: Block, lines: seq<string>) {
    lines != [] && b.Paragraph? && S.Trims(S.Glued(lines, "\n"), b.text)
  }

  /** Lines without ink, then a run of lines with ink as long as it can be, then the rest. */
  ghost predicate Apart(lines: seq<string>, gap: seq<string>, run: seq<string>, rest: seq<string>) {
    && lines == gap + run + rest && (forall i | 0 <= i < |gap| :: !Inked(gap[i]))
    && run != [] && (forall i | 0 <= i < |run| :: Inked(run[i])) && (rest != [] ==> !Inked(rest[0]))
  }

  /** One paragraph for each run of lines with ink, its lines kept apart by line breaks. */
  ghost predicate Paragraphs(lines: seq<string>, blocks: seq<Block>)
    decreases |blocks|
  {
    if blocks == [] then forall i | 0 <= i < |lines| :: !Inked(lines[i])
    else exists gap, run, rest ::
      Apart(lines, gap, run, rest) && Holds(blocks[0], run) && Paragraphs(rest, blocks[1..])
  }

  /** A row keeps its cells: short rows are filled up, the tail of a long one is one cell. */
  predicate Fits(cells: seq<string>, width: nat, row: seq<string>) {
    && |row| == width
    && if |cells| <= width then
         && (forall k | 0 <= k < |cells| :: row[k] == cells[k])
         && (forall k | |cells| <= k < width :: row[k] == "")
       else
         && width > 0 && (forall k | 0 <= k < width - 1 :: row[k] == cells[k])
         && row[width - 1] == S.Glued(cells[width - 1..], " | ")
  }

  ghost predicate RowOf(line: string, width: nat, row: seq<string>) {
    exists cells :: S.Row(line, cells) && Fits(cells, width, row)
  }

  ghost predicate TableHolds(header: string, body: seq<string>, b: Block) {
    && b.Table? && S.Row(header, b.headers) && |b.rows| == |body|
    && forall i | 0 <= i < |body| :: RowOf(body[i], |b.headers|, b.rows[i])
  }

  ghost predicate TitleHolds(line: string, b: Block) {
    b.Heading? && exists m :: IsPreferred(line, m) && b.level == |m.hashes| && S.Trims(m.text, b.text)
  }

  ghost predicate Becomes(r: Region, blocks: seq<Block>) {
    match r
    case Prose(lines) => Paragraphs(lines, blocks)
    case HeadingAt(line) => |blocks| == 1 && TitleHolds(line, blocks[0])
    case TableAt(header, _, body) => |blocks| == 1 && TableHolds(header, body, blocks[0])
  }

  lemma FitsIs(cells: seq<string>, width: nat)
    requires width >= 1
    ensures Fits(cells, width, Reconcile(cells, width))
  {
    if |cells| > width {
      S.JoinIsGlued(cells[width - 1..], " | ");
    }
  }

  lemma TableBecomes(header: string, body: seq<string>)
    ensures TableHolds(header, body, TableOf(header, body))
  {
    hide Cells, S.Row, Fits, Reconcile;
    S.CellsAre(header);
    var headers := Cells(header);
    forall i | 0 <= i < |body| ensures RowOf(body[i], |headers|, Reconcile(Cells(body[i]), |headers|)) {
      S.CellsAre(body[i]);
      FitsIs(Cells(body[i]), |headers|);
    }
  }

  lemma TitleBecomes(line: string)
    requires ParseHeading(line).Some?
    ensures var h := ParseHeading(line).value; TitleHolds(line, Heading(h.level, h.text))
  {
    hide ParseHeading, IsPreferred, S.Trims, Trim;
    var h := ParseHeading(line).value;
    HeadingIsPreferredMatch(line, h);
    var m :| Recognises(line, h, m);
    S.TrimIs(m.text);
  }

  // Paragraphs

  lemma EmitHolds(current: seq<string>)
    requires forall i | 0 <= i < |current| :: Inked(current[i])
    ensures current == [] ==> Emit(current) == []
    ensures current != [] ==> |Emit(current)| == 1 && Holds(Emit(current)[0], current)
  {
    if current != [] {
      var joined := Join(current, "\n");
      S.JoinIsGlued(current, "\n");
      JoinIsInked(current);
      InkedIs(joined);
      S.TrimIs(joined);
    }
    hide Trim, Join, S.Trims, Inked;
  }

  lemma JoinIsInked(parts: seq<string>)
    requires parts != [] && Inked(parts[0])
    ensures Inked(Join(parts, "\n"))
  {
    hide S.Space;
    var i :| 0 <= i < |parts[0]| && !S.Space(parts[0][i]);
    assert Join(parts, "\n")[i] == parts[0][i];
  }

  lemma BlankFirst(blank: string, rest: seq<string>, blocks: seq<Block>)
    requires !Inked(blank) && Paragraphs(rest, blocks)
    ensures Paragraphs([blank] + rest, blocks)
  {
    hide Inked, Holds;
    if blocks != [] {
      var gap, run, more :| Apart(rest, gap, run, more) && Holds(blocks[0], run) && Paragraphs(more, blocks[1..]);
      assert [blank] + (gap + run + more) == [blank] + gap + run + more;
      assert Apart([blank] + rest, [blank] + gap, run, more);
    }
  }

  lemma OneMoreRun(lines: seq<string>, gap: seq<string>, run: seq<string>, rest: seq<string>, b: Block,
                   blocks: seq<Block>)
    requires Apart(lines, gap, run, rest) && Holds(b, run) && Paragraphs(rest, blocks)
    ensures Paragraphs(lines, [b] + blocks)
  {
    hide Apart, Holds;
    assert ([b] + blocks)[1..] == blocks;
  }

  lemma RunApart(run: seq<string>, rest: seq<string>)
    requires run != [] && (forall i | 0 <= i < |run| :: Inked(run[i])) && (rest != [] ==> !Inked(rest[0]))
    ensures Apart(run + rest, [], run, rest)
  {
    hide Inked;
    assert [] + run == run;
  }

  lemma RunFirst(current: seq<string>, rest: seq<string>, blocks: seq<Block>)
    requires forall i | 0 <= i < |current| :: Inked(current[i])
    requires rest != [] ==> !Inked(rest[0])
    requires Paragraphs(rest, blocks)
    ensures Paragraphs(current + rest, Emit(current) + blocks)
  {
    hide Inked, Emit, Holds, Paragraphs;
    EmitHolds(current);
    if current == [] {
      assert current + rest == rest && Emit(current) + blocks == blocks;
    } else {
      assert Emit(current) == [Emit(current)[0]];
      RunApart(current, rest);
      OneMoreRun(current + rest, [], current, rest, Emit(current)[0], blocks);
    }
  }

  lemma NoParagraphs()
    ensures Paragraphs([], [])
  {}

  lemma {:induction false} GroupIsParagraphs(current: seq<string>, lines: seq<string>)
    requires forall i | 0 <= i < |current| :: Inked(current[i])
    ensures Paragraphs(current + lines, Group(current, lines))
    decreases |lines|
  {
    hide Inked, Trim, Emit, Paragraphs;
    if lines == [] {
      NoParagraphs();
      assert Emit(current) + [] == Emit(current);
      RunFirst(current, [], []);
    } else {
      InkedIs(lines[0]);
      if Trim(lines[0]) == "" {
        GroupIsParagraphs([], lines[1..]);
        assert [] + lines[1..] == lines[1..];
        assert [lines[0]] + lines[1..] == lines;
        BlankFirst(lines[0], lines[1..], Group([], lines[1..]));
        RunFirst(current, lines, Group([], lines[1..]));
      } else {
        GroupIsParagraphs(current + [lines[0]], lines[1..]);
        assert current + [lines[0]] + lines[1..] == current + lines;
      }
    }
  }

  // ---- The whole parse ----

  /** The blocks, region n region. */
  ghost predicate AllBecome(regions: seq<Region>, blocks: seq<Block>)
    decreases |regions|
  {
    if regions == [] then blocks == []
    else exists own, rest :: blocks == own + rest && Becomes(regions[0], own) && AllBecome(regions[1..], rest)
  }

  lemma RegionBecomes(r: Region)
    requires r.HeadingAt? ==> TitleLine(r.line)
    ensures Becomes(r, Blocks(r))
  {
    hide ParseHeading, Group, Paragraphs, TableHolds, TitleHolds, TitleLine, TableOf;
    match r
    case Prose(lines) =>
      GroupIsParagraphs([], lines);
      assert [] + lines == lines;
    case HeadingAt(line) => TitleIs(line); TitleBecomes(line);
    case TableAt(header, _, body) => TableBecomes(header, body);
  }

  lemma {:induction false} RegionsBecome(regions: seq<Region>)
    requires WellCut(regions)
    ensures AllBecome(regions, AllBlocks(regions))
  {
    hide Blocks, Becomes, TitleLine;
    if regions != [] {
      RegionBecomes(regions[0]);
      RegionsBecome(regions[1..]);
    }
  }

  /** The cut of a list of lines and what its regions become. */
  ghost predicate Reads(lines: seq<string>, regions: seq<Region>, blocks: seq<Block>) {
    AllLines(regions) == lines && WellCut(regions) && AllBecome(regions, blocks)
  }

  /** MAIN: the parse of a list of lines is what the parts of its only cut become, in order. */
  lemma ParseReads(lines: seq<string>)
    ensures Reads(lines, Segment(lines), Parse([], lines))
    ensures forall regions | WellCut(regions) && AllLines(regions) == lines :: regions == Segment(lines)
  {
    hide Segment, Parse, WellCut, AllBecome, Resume;
    SegmentCovers(lines);
    SegmentIsWellCut(lines);
    ParseIsSegmented([], lines);
    ResumeNothing(Segment(lines));
    RegionsBecome(Segment(lines));
    forall regions | WellCut(regions) && AllLines(regions) == lines ensures regions == Segment(lines) {
      OneWellCut(regions);
    }
  }

  // ---- The lines of a text ----

  predicate NoReturnFeed(s: string) {
    forall i | 0 <= i < |s| - 1 :: !(s[i] as int == 13 && s[i + 1] as int == 10)
  }

  /** A text with each carriage return before a line feed taken out. */
  ghost predicate Normal(s: string, t: string) {
    exists parts ::
      && parts != [] && (forall i | 0 <= i < |parts| :: NoReturnFeed(parts[i]))
      && s == S.Glued(parts, "\r\n") && t == S.Glued(parts, "\n")
  }

  lemma {:induction false} NormaliseParts(s: string) returns (parts: seq<string>)
    ensures parts != [] && forall i | 0 <= i < |parts| :: NoReturnFeed(parts[i])
    ensures s == Join(parts, "\r\n") && NormaliseNewlines(s) == Join(parts, "\n")
  {
    if |s| < 2 {
      parts := [s];
    } else if s[0] == '\r' && s[1] == '\n' {
      var rest := NormaliseParts(s[2..]);
      parts := [""] + rest;
      JoinUnfold("", rest, "\r\n");
      JoinUnfold("", rest, "\n");
      assert s == "\r\n" + s[2..];
    } else {
      var rest := NormaliseParts(s[1..]);
      parts := [[s[0]] + rest[0]] + rest[1..];
      JoinPush(s[0], rest, "\r\n");
      JoinPush(s[0], rest, "\n");
      JoinStarts(rest, "\r\n");
      assert s == [s[0]] + s[1..];
      assert NoReturnFeed(parts[0]);
    }
  }

  lemma JoinStarts(parts: seq<string>, sep: string)
    requires parts != []
    ensures parts[0] <= Join(parts, sep)
  {}

  lemma FeedAt(part: string, rest: string)
    ensures var s := part + "\r\n" + rest;
            if part == "" then s[0] == '\r' && s[1] == '\n' && s[2..] == rest
            else s[0] == part[0] && s[1] == (part + "\r")[1] && s[1..] == part[1..] + "\r\n" + rest
  {}

  lemma FirstBack(part: string, feed: string, rest: string)
    requires part != ""
    ensures [part[0]] + (part[1..] + feed + rest) == part + feed + rest
  {
    assert [part[0]] + part[1..] == part;
  }

  lemma NoFeedAfter(part: string)
    requires NoReturnFeed(part) && part != ""
    ensures NoReturnFeed(part[1..]) && !(part[0] == '\r' && (part + "\r")[1] == '\n')
  {
    assert forall i | 0 <= i < |part[1..]| :: part[1..][i] == part[i + 1];
  }

  lemma {:induction false} NormaliseFirst(part: string, rest: string)
    requires NoReturnFeed(part)
    ensures NormaliseNewlines(part + "\r\n" + rest) == part + "\n" + NormaliseNewlines(rest)
  {
    hide NoReturnFeed;
    FeedAt(part, rest);
    if part != "" {
      NoFeedAfter(part);
      NormaliseFirst(part[1..], rest);
      FirstBack(part, "\n", NormaliseNewlines(rest));
    }
  }

  lemma {:induction false} NormaliseWhole(part: string)
    requires NoReturnFeed(part)
    ensures NormaliseNewlines(part) == part
  {
    if |part| >= 2 {
      assert forall i | 0 <= i < |part[1..]| :: part[1..][i] == part[i + 1];
      NormaliseWhole(part[1..]);
      assert [part[0]] + part[1..] == part;
    }
  }

  lemma {:induction false} NormaliseJoined(parts: seq<string>)
    requires parts != [] && forall i | 0 <= i < |parts| :: NoReturnFeed(parts[i])
    ensures NormaliseNewlines(Join(parts, "\r\n")) == Join(parts, "\n")
  {
    hide NormaliseNewlines, NoReturnFeed, Join;
    if |parts| == 1 {
      NormaliseWhole(parts[0]);
      assert parts == [parts[0]];
      JoinOfOne(parts[0], "\r\n");
      JoinOfOne(parts[0], "\n");
    } else {
      NormaliseJoined(parts[1..]);
      NormaliseFirst(parts[0], Join(parts[1..], "\r\n"));
      JoinUnfold(parts[0], parts[1..], "\r\n");
      JoinUnfold(parts[0], parts[1..], "\n");
      assert parts == [parts[0]] + parts[1..];
    }
  }

  lemma NormalIs(s: string, t: string)
    ensures Normal(s, t) <==> t == NormaliseNewlines(s)
  {
    hide NormaliseNewlines, NoReturnFeed, Join, S.Glued;
    var own := NormaliseParts(s);
    S.JoinIsGlued(own, "\r\n");
    S.JoinIsGlued(own, "\n");
    forall parts: seq<string>
      | parts != [] && (forall i | 0 <= i < |parts| :: NoReturnFeed(parts[i])) && s == S.Glued(parts, "\r\n")
      ensures S.Glued(parts, "\n") == NormaliseNewlines(s)
    {
      S.JoinIsGlued(parts, "\r\n");
      S.JoinIsGlued(parts, "\n");
      NormaliseJoined(parts);
    }
  }

  /** What a text is parsed into: it is cut at its line breaks, the lines into regions, the regions made blocks. */
  ghost predicate TextReads(text: string, blocks: seq<Block>) {
    exists t, lines, regions :: Normal(text, t) && S.CutAt(t, '\n', lines) && Reads(lines, regions, blocks)
  }

  /** MAIN: the blocks of a text. */
  lemma ParseTextReads(text: string)
    ensures TextReads(text, ParseText(text))
  {
    hide NormaliseNewlines, Split, Parse, Segment, Normal, S.CutAt, Reads;
    NormalIs(text, NormaliseNewlines(text));
    S.SplitIs(NormaliseNewlines(text), '\n');
    ParseReads(Lines(text));
  }
}
