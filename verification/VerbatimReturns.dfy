/**
 Carriage returns through the parser: no step of it adds one, printing adds none, and normalising line
 endings takes one away wherever a line feed follows a carriage return.
 */
module VerbatimReturns {
  import opened Wrappers
  import opened Text
  import Sequences
  import opened VerbatimBlocks
  import opened VerbatimRoundTrip
  import opened VerbatimHeading

  function Returns(s: string): nat {
    multiset(s)['\r']
  }

  function ReturnsIn(parts: seq<string>): nat {
    if parts == [] then 0 else Returns(parts[0]) + ReturnsIn(parts[1..])
  }

  function ReturnsInRows(rows: seq<seq<string>>): nat {
    if rows == [] then 0 else ReturnsIn(rows[0]) + ReturnsInRows(rows[1..])
  }

  function ReturnsInBlock(b: Block): nat {
    match b
    case Heading(_, text) => Returns(text)
    case Table(headers, rows) => ReturnsIn(headers) + ReturnsInRows(rows)
    case Paragraph(text) => Returns(text)
  }

  function ReturnsInBlocks(blocks: seq<Block>): nat {
    if blocks == [] then 0 else ReturnsInBlock(blocks[0]) + ReturnsInBlocks(blocks[1..])
  }

  // ---- Sums ----

  lemma {:induction false} InConcat(a: seq<string>, b: seq<string>)
    ensures ReturnsIn(a + b) == ReturnsIn(a) + ReturnsIn(b)
  {
    if a == [] {
      assert a + b == b;
    } else {
      assert (a + b)[1..] == a[1..] + b;
      InConcat(a[1..], b);
    }
  }

  lemma {:induction false} BlocksConcat(a: seq<Block>, b: seq<Block>)
    ensures ReturnsInBlocks(a + b) == ReturnsInBlocks(a) + ReturnsInBlocks(b)
  {
    if a == [] {
      assert a + b == b;
    } else {
      assert (a + b)[1..] == a[1..] + b;
      BlocksConcat(a[1..], b);
    }
  }

  lemma InOne(s: string)
    ensures ReturnsIn([s]) == Returns(s)
  {
    assert [s][1..] == [];
  }

  // ---- Trimming, splitting and joining ----

  lemma TrimAddsNone(s: string)
    ensures Returns(Trim(s)) <= Returns(s)
  {
    var lead, trail := TrimParts(s);
    hide Trim;
    assert multiset(s) == multiset(lead) + multiset(Trim(s)) + multiset(trail);
  }

  lemma {:induction false} TrimAllAddsNone(parts: seq<string>)
    ensures ReturnsIn(TrimAll(parts)) <= ReturnsIn(parts)
  {
    hide Trim;
    if parts != [] {
      TrimAddsNone(parts[0]);
      TrimAllAddsNone(parts[1..]);
      assert TrimAll(parts)[1..] == TrimAll(parts[1..]);
    }
  }

  lemma {:induction false} JoinKeeps(parts: seq<string>, sep: string)
    requires '\r' !in sep
    ensures Returns(Join(parts, sep)) == ReturnsIn(parts)
  {
    if |parts| > 1 {
      JoinKeeps(parts[1..], sep);
      assert multiset(Join(parts, sep)) == multiset(parts[0]) + multiset(sep) + multiset(Join(parts[1..], sep));
    } else if |parts| == 1 {
      InOne(parts[0]);
      JoinOfOne(parts[0], sep);
      assert parts == [parts[0]];
    }
  }

  lemma SplitKeeps(s: string, sep: char)
    requires sep != '\r'
    ensures ReturnsIn(Split(s, sep)) == Returns(s)
  {
    JoinOfSplit(s, sep);
    JoinKeeps(Split(s, sep), [sep]);
  }

  // ---- Rows and tables ----

  lemma PipesAside(s: string)
    ensures Returns(DropOuterPipes(s)) <= Returns(s)
  {
    var t := if s != "" && s[0] == '|' then s[1..] else s;
    if s != "" { assert s == [s[0]] + s[1..]; }
    if t != "" { assert t == t[..|t| - 1] + [t[|t| - 1]]; }
  }

  lemma CellsAddNone(line: string)
    ensures ReturnsIn(Cells(line)) <= Returns(line)
  {
    TrimAddsNone(line);
    PipesAside(Trim(line));
    SplitKeeps(DropOuterPipes(Trim(line)), '|');
    TrimAllAddsNone(Split(DropOuterPipes(Trim(line)), '|'));
  }

  lemma {:induction false} PaddingHasNone(s: string, n: nat)
    requires Returns(s) == 0
    ensures ReturnsIn(Repeat(s, n)) == 0
  {
    if n > 0 {
      assert Repeat(s, n)[1..] == Repeat(s, n - 1);
      PaddingHasNone(s, n - 1);
    }
  }

  lemma ReconcileKeeps(cells: seq<string>, width: nat)
    requires width >= 1
    ensures ReturnsIn(Reconcile(cells, width)) == ReturnsIn(cells)
  {
    if |cells| < width {
      PaddingHasNone("", width - |cells|);
      InConcat(cells, Repeat("", width - |cells|));
    } else if |cells| > width {
      var tail := cells[width - 1..];
      JoinKeeps(tail, " | ");
      InOne(Join(tail, " | "));
      InConcat(cells[..width - 1], tail);
      InConcat(cells[..width - 1], [Join(tail, " | ")]);
      Sequences.Split(cells, width - 1);
    }
  }

  lemma {:induction false} RowsAddNone(lines: seq<string>, width: nat)
    requires width >= 1
    ensures ReturnsInRows(RowsOf(lines, width)) <= ReturnsIn(lines)
  {
    hide Cells, Reconcile;
    if lines != [] {
      CellsAddNone(lines[0]);
      ReconcileKeeps(Cells(lines[0]), width);
      RowsAddNone(lines[1..], width);
      assert RowsOf(lines, width)[1..] == RowsOf(lines[1..], width);
    }
  }

  // ---- Headings and paragraphs ----

  lemma HeadingAddsNone(line: string)
    requires ParseHeading(line).Some?
    ensures Returns(ParseHeading(line).value.text) <= Returns(line)
  {
    var lead, rest := HeadingParts(line);
    WithParts(line, lead, rest);
    var m := HeadingMatch(line, lead, rest);
    hide HeadingContent, ParseHeading, LeadingHashes, IsTail, OneLine, Blank;
    assert multiset(line) == multiset(m.hashes) + (multiset(m.space) + (multiset(m.text) + multiset(m.tail)));
  }

  lemma EmitAddsNone(current: seq<string>)
    ensures ReturnsInBlocks(Emit(current)) <= ReturnsIn(current)
  {
    JoinKeeps(current, "\n");
    TrimAddsNone(Join(current, "\n"));
    hide Trim, Join;
    assert [Paragraph(Trim(Join(current, "\n")))][1..] == [];
  }

  lemma {:induction false} GroupAddsNone(current: seq<string>, lines: seq<string>)
    ensures ReturnsInBlocks(Group(current, lines)) <= ReturnsIn(current) + ReturnsIn(lines)
    decreases |lines|
  {
    hide Emit, Trim;
    EmitAddsNone(current);
    if lines != [] {
      if Trim(lines[0]) == "" {
        GroupAddsNone([], lines[1..]);
        BlocksConcat(Emit(current), Group([], lines[1..]));
      } else {
        InConcat(current, [lines[0]]);
        InOne(lines[0]);
        GroupAddsNone(current + [lines[0]], lines[1..]);
      }
    }
  }

  // ---- The parse ----

  lemma OneBlock(before: seq<Block>, b: Block, after: seq<Block>)
    ensures ReturnsInBlocks(before + ([b] + after)) ==
            ReturnsInBlocks(before) + ReturnsInBlock(b) + ReturnsInBlocks(after)
  {
    BlocksConcat(before, [b] + after);
    assert ([b] + after)[1..] == after;
  }

  lemma {:induction false} ParseAddsNone(buffer: seq<string>, lines: seq<string>)
    ensures ReturnsInBlocks(Parse(buffer, lines)) <= ReturnsIn(buffer) + ReturnsIn(lines)
    decreases |lines|
  {
    hide Group, ParseHeading, StartsTable, BodyLength, Cells, RowsOf;
    GroupAddsNone([], buffer);
    if lines == [] {
    } else if ParseHeading(lines[0]).Some? {
      var h := ParseHeading(lines[0]).value;
      HeadingAddsNone(lines[0]);
      ParseAddsNone([], lines[1..]);
      OneBlock(Group([], buffer), Heading(h.level, h.text), Parse([], lines[1..]));
    } else if |lines| > 1 && StartsTable(lines[0], lines[1]) {
      var n := BodyLength(lines[2..]);
      TableAddsNone(lines, n);
      ParseAddsNone([], lines[2 + n..]);
      OneBlock(Group([], buffer), TableOf(lines[0], lines[2..2 + n]), Parse([], lines[2 + n..]));
    } else {
      InConcat(buffer, [lines[0]]);
      InOne(lines[0]);
      ParseAddsNone(buffer + [lines[0]], lines[1..]);
    }
  }

  lemma TableAddsNone(lines: seq<string>, n: nat)
    requires |lines| >= 2 + n
    ensures ReturnsInBlock(TableOf(lines[0], lines[2..2 + n])) + ReturnsIn(lines[2 + n..]) <= ReturnsIn(lines)
  {
    TableLines(lines, n);
    CellsAddNone(lines[0]);
    RowsAddNone(lines[2..2 + n], |Cells(lines[0])|);
    hide Cells, RowsOf, ReturnsIn, ReturnsInRows, Returns;
  }

  lemma TableLines(lines: seq<string>, n: nat)
    requires |lines| >= 2 + n
    ensures ReturnsIn(lines) ==
            Returns(lines[0]) + Returns(lines[1]) + ReturnsIn(lines[2..2 + n]) + ReturnsIn(lines[2 + n..])
  {
    assert lines[1..][1..] == lines[2..];
    Slices(lines, n);
    InConcat(lines[2..2 + n], lines[2 + n..]);
  }

  lemma Slices(lines: seq<string>, n: nat)
    requires |lines| >= 2 + n
    ensures lines[2..] == lines[2..2 + n] + lines[2 + n..]
  {}

  // ---- Printing and normalising ----

  lemma PrintRowKeeps(row: seq<string>)
    ensures Returns(PrintRow(row)) == ReturnsIn(row)
  {
    JoinKeeps(row, " | ");
    assert multiset(PrintRow(row)) == multiset("| ") + multiset(Join(row, " | ")) + multiset(" |");
  }

  lemma {:induction false} PrintRowsKeep(rows: seq<seq<string>>)
    ensures ReturnsIn(PrintRows(rows)) == ReturnsInRows(rows)
  {
    hide PrintRow;
    if rows != [] {
      PrintRowKeeps(rows[0]);
      PrintRowsKeep(rows[1..]);
      assert PrintRows(rows)[1..] == PrintRows(rows[1..]);
    }
  }

  lemma HashesHaveNone(level: nat, text: string)
    ensures Returns(Repeat('#', level) + " " + text) == Returns(text)
  {
    assert '\r' !in Repeat('#', level);
    assert multiset(Repeat('#', level) + " " + text) == multiset(Repeat('#', level)) + multiset(" ") + multiset(text);
  }

  lemma PrintBlockKeeps(b: Block)
    ensures ReturnsIn(PrintBlock(b)) == ReturnsInBlock(b)
  {
    hide PrintRow, PrintRows, Repeat, Split, Returns;
    match b
    case Heading(level, text) =>
      HashesHaveNone(level, text);
      InOne(Repeat('#', level) + " " + text);
    case Table(headers, rows) =>
      PrintRowKeeps(headers);
      DashesHaveNone(|headers|);
      PrintRowKeeps(Repeat("---", |headers|));
      PrintRowsKeep(rows);
      var top := [PrintRow(headers), PrintRow(Repeat("---", |headers|))];
      InConcat(top, PrintRows(rows));
      assert top[1..] == [top[1]];
      InOne(top[1]);
    case Paragraph(text) => SplitKeeps(text, '\n');
  }

  lemma DashesHaveNone(n: nat)
    ensures ReturnsIn(Repeat("---", n)) == 0
  {
    assert '\r' !in "---";
    PaddingHasNone("---", n);
  }

  lemma {:induction false} PrintLinesKeep(blocks: seq<Block>)
    ensures ReturnsIn(PrintLines(blocks)) == ReturnsInBlocks(blocks)
  {
    hide PrintBlock;
    if blocks != [] {
      PrintBlockKeeps(blocks[0]);
      PrintLinesKeep(blocks[1..]);
      InConcat(PrintBlock(blocks[0]) + [""], PrintLines(blocks[1..]));
      InConcat(PrintBlock(blocks[0]), [""]);
      InOne("");
    }
  }

  /** Somewhere a line feed comes right after a carriage return. */
  ghost predicate HasCrLf(s: string) {
    exists i :: 1 <= i < |s| && s[i] == '\n' && s[i - 1] == '\r'
  }

  lemma HeadAndTail(s: string)
    requires s != ""
    ensures Returns(s) == Returns([s[0]]) + Returns(s[1..])
  {
    assert s == [s[0]] + s[1..];
  }

  lemma {:induction false} NormaliseRemoves(s: string)
    ensures Returns(NormaliseNewlines(s)) <= Returns(s)
    ensures HasCrLf(s) ==> Returns(NormaliseNewlines(s)) < Returns(s)
  {
    if |s| >= 2 {
      HeadAndTail(s);
      HeadAndTail(NormaliseNewlines(s));
      if s[0] == '\r' && s[1] == '\n' {
        NormaliseRemoves(s[2..]);
        HeadAndTail(s[1..]);
        assert s[1..][1..] == s[2..] && NormaliseNewlines(s)[1..] == NormaliseNewlines(s[2..]);
      } else {
        NormaliseRemoves(s[1..]);
        assert NormaliseNewlines(s)[1..] == NormaliseNewlines(s[1..]);
        if HasCrLf(s) {
          var i :| 1 <= i < |s| && s[i] == '\n' && s[i - 1] == '\r';
          assert s[1..][i - 1] == '\n' && s[1..][i - 2] == '\r';
        }
      }
    }
  }

  /** Blocks whose printed text holds a line feed after a carriage return do not come back. */
  lemma ReturnsAreLost(blocks: seq<Block>)
    requires HasCrLf(Print(blocks))
    ensures ParseText(Print(blocks)) != blocks
  {
    var text := Print(blocks);
    PrintLinesKeep(blocks);
    JoinKeeps(PrintLines(blocks), "\n");
    NormaliseRemoves(text);
    SplitKeeps(NormaliseNewlines(text), '\n');
    ParseAddsNone([], Lines(text));
  }
}
