/**
 What the lines of a verbatim text are made of: table rows, separator rows and the cells of a row, each stated by
 the pieces the line consists of.
 */
module VerbatimShapes {
  import opened Text
  import opened VerbatimBlocks

  // ---- Characters ----

  /** White space, by code point. */
  predicate Space(c: char) {
    var n := c as int;
    9 <= n <= 13 || 8192 <= n <= 8202 || n in {32, 160, 5760, 8232, 8233, 8239, 8287, 12288, 65279}
  }

  predicate AllSpace(s: string) {
    forall i | 0 <= i < |s| :: Space(s[i])
  }

  lemma CharacterClasses(c: char)
    ensures IsSpace(c) <==> Space(c)
    ensures IsLineTerminator(c) <==> c as int in {10, 13, 8232, 8233}
  {}

  // ---- Trimming ----

  /** Neither end is white space. */
  predicate Bare(s: string) {
    s == "" || (!Space(s[0]) && !Space(s[|s| - 1]))
  }

  predicate Around(s: string, lead: string, t: string, trail: string) {
    s == lead + t + trail && AllSpace(lead) && AllSpace(trail) && Bare(t)
  }

  /** `t` is `s` without the white space at its ends. */
  ghost predicate Trims(s: string, t: string) {
    exists lead, trail :: Around(s, lead, t, trail)
  }

  lemma TrimIs(s: string)
    ensures Trims(s, Trim(s))
    ensures forall t :: Trims(s, t) ==> t == Trim(s)
  {
    var lead, trail := TrimParts(s);
    hide Trim;
    assert Around(s, lead, Trim(s), trail);
    forall t | Trims(s, t) ensures t == Trim(s) {
      var a, b :| Around(s, a, t, b);
      TrimPadded(a, t, b);
    }
  }

  // ---- Pieces between separators ----

  /** The parts with the separator between them. */
  function Glued(parts: seq<string>, sep: string): string
    requires parts != []
  {
    if |parts| == 1 then parts[0] else Glued(parts[..|parts| - 1], sep) + sep + parts[|parts| - 1]
  }

  lemma {:induction false} JoinIsGlued(parts: seq<string>, sep: string)
    requires parts != []
    ensures Join(parts, sep) == Glued(parts, sep)
  {
    if |parts| > 1 {
      var n := |parts| - 1;
      JoinIsGlued(parts[..n], sep);
      JoinLast(parts[..n], parts[n], sep);
      assert parts == parts[..n] + [parts[n]];
    }
  }

  lemma {:induction false} JoinLast(parts: seq<string>, last: string, sep: string)
    requires parts != []
    ensures Join(parts + [last], sep) == Join(parts, sep) + sep + last
  {
    if |parts| == 1 {
      assert parts + [last] == [parts[0]] + [last];
      JoinUnfold(parts[0], [last], sep);
    } else {
      JoinLast(parts[1..], last, sep);
      assert parts + [last] == [parts[0]] + (parts[1..] + [last]) && parts == [parts[0]] + parts[1..];
      JoinUnfold(parts[0], parts[1..] + [last], sep);
      JoinUnfold(parts[0], parts[1..], sep);
      Regroup(parts[0] + sep, Join(parts[1..], sep), sep, last);
    }
  }

  lemma Regroup(a: string, b: string, c: string, d: string)
    ensures a + (b + c + d) == a + b + c + d
  {}

  /** No part holds the separator, and together they are the string. */
  predicate CutAt(s: string, sep: char, parts: seq<string>) {
    parts != [] && (forall i | 0 <= i < |parts| :: sep !in parts[i]) && s == Glued(parts, [sep])
  }

  lemma SplitIs(s: string, sep: char)
    ensures forall parts :: CutAt(s, sep, parts) <==> parts == Split(s, sep)
  {
    hide Split, Glued, Join;
    SplitPieces(s, sep);
    JoinOfSplit(s, sep);
    JoinIsGlued(Split(s, sep), [sep]);
    forall parts | CutAt(s, sep, parts) ensures parts == Split(s, sep) {
      JoinIsGlued(parts, [sep]);
      SplitOfJoin(parts, sep);
    }
  }

  // ---- The cells of a row ----

  predicate Pipe(s: string) {
    s == "" || s == "|"
  }

  /** One pipe is taken off each end if there is one, the left end first. */
  predicate Framed(t: string, open: string, inner: string, close: string) {
    && t == open + inner + close && Pipe(open) && Pipe(close)
    && (open == "" ==> t == "" || t[0] != '|')
    && (close == "" ==> inner == "" || inner[|inner| - 1] != '|')
  }

  lemma FirstPipe(t: string) returns (open: string, rest: string)
    ensures t == open + rest && Pipe(open) && (open == "" ==> t == "" || t[0] != '|')
    ensures rest == if t != "" && t[0] == '|' then t[1..] else t
  {
    if t != "" && t[0] == '|' {
      open, rest := "|", t[1..];
      assert t == [t[0]] + t[1..];
    } else {
      open, rest := "", t;
    }
  }

  lemma LastPipe(t: string) returns (inner: string, close: string)
    ensures t == inner + close && Pipe(close) && (close == "" ==> inner == "" || inner[|inner| - 1] != '|')
    ensures inner == if t != "" && t[|t| - 1] == '|' then t[..|t| - 1] else t
  {
    if t != "" && t[|t| - 1] == '|' {
      inner, close := t[..|t| - 1], "|";
      assert t == t[..|t| - 1] + [t[|t| - 1]];
    } else {
      inner, close := t, "";
    }
  }

  lemma FramePieces(t: string)
    ensures exists open, close :: Framed(t, open, DropOuterPipes(t), close)
  {
    hide DropOuterPipes, Framed, Pipe;
    var open, rest := FirstPipe(t);
    var inner, close := LastPipe(rest);
    DropsToInner(t, rest, inner);
    FramedBy(t, open, rest, inner, close);
  }

  lemma DropsToInner(t: string, rest: string, inner: string)
    requires rest == if t != "" && t[0] == '|' then t[1..] else t
    requires inner == if rest != "" && rest[|rest| - 1] == '|' then rest[..|rest| - 1] else rest
    ensures DropOuterPipes(t) == inner
  {}

  lemma FramedBy(t: string, open: string, rest: string, inner: string, close: string)
    requires t == open + rest && rest == inner + close && Pipe(open) && Pipe(close)
    requires open == "" ==> t == "" || t[0] != '|'
    requires close == "" ==> inner == "" || inner[|inner| - 1] != '|'
    ensures Framed(t, open, inner, close)
  {
    assert open + inner + close == open + (inner + close);
  }

  lemma DropIs(t: string)
    ensures exists open, close :: Framed(t, open, DropOuterPipes(t), close)
    ensures forall open, inner, close | Framed(t, open, inner, close) :: inner == DropOuterPipes(t)
  {
    hide Framed, DropOuterPipes;
    FramePieces(t);
    forall open, inner, close | Framed(t, open, inner, close) ensures inner == DropOuterPipes(t) {
      OneFrame(t, open, inner, close);
    }
  }

  lemma OneFrame(t: string, open: string, inner: string, close: string)
    requires Framed(t, open, inner, close)
    ensures inner == DropOuterPipes(t)
  {
    var rest := inner + close;
    assert t == open + rest && (open == "|" ==> t[0] == '|' && t[1..] == rest);
    assert rest != "" ==> rest[|rest| - 1] == if close == "" then inner[|inner| - 1] else '|';
    assert close == "|" ==> rest[..|rest| - 1] == inner;
  }

  /** The cells of a row: what stands between its pipes, less one pipe at each end, each trimmed. */
  ghost predicate Row(line: string, cells: seq<string>) {
    exists t, open, inner, close, pieces ::
      && Trims(line, t) && Framed(t, open, inner, close) && CutAt(inner, '|', pieces)
      && |cells| == |pieces| && forall i | 0 <= i < |cells| :: Trims(pieces[i], cells[i])
  }

  lemma CellsAre(line: string)
    ensures forall cells :: Row(line, cells) <==> cells == Cells(line)
  {
    hide Trim, DropOuterPipes, Trims, CutAt, Split, Framed;
    var t := Trim(line);
    var inner := DropOuterPipes(t);
    var pieces := Split(inner, '|');
    TrimIs(line);
    DropIs(t);
    SplitIs(inner, '|');
    forall i | 0 <= i < |pieces| ensures forall c :: Trims(pieces[i], c) <==> c == Trim(pieces[i]) {
      TrimIs(pieces[i]);
    }
    var open, close :| Framed(t, open, inner, close);
    assert Row(line, Cells(line));
    forall cells | Row(line, cells) ensures cells == Cells(line) {}
  }

  // ---- Separator rows ----

  predicate Dashes(s: string) {
    s != "" && forall i | 0 <= i < |s| :: s[i] == '-'
  }

  predicate Colon(s: string) {
    s == "" || s == ":"
  }

  predicate DashParts(c: string, a: string, dashes: string, b: string) {
    c == a + dashes + b && Colon(a) && Dashes(dashes) && Colon(b)
  }

  /** Dashes, with a colon before them or not and after them or not. */
  ghost predicate Rule(c: string) {
    exists a, dashes, b :: DashParts(c, a, dashes, b)
  }

  lemma RuleIs(c: string)
    ensures IsDashCell(c) <==> Rule(c)
  {
    if IsDashCell(c) {
      DashCellParts(c);
    }
    if a, dashes, b :| DashParts(c, a, dashes, b) {
      PartsAreDashCell(c, a, dashes, b);
    }
  }

  lemma DashCellParts(c: string)
    requires IsDashCell(c)
    ensures Rule(c)
  {
    var a := if c[0] == ':' then ":" else "";
    var b := if c[|c| - 1] == ':' then ":" else "";
    var dashes := c[|a|..|c| - |b|];
    assert c == a + dashes + b;
    assert forall i | 0 <= i < |dashes| :: dashes[i] == c[|a| + i];
    assert DashParts(c, a, dashes, b);
  }

  lemma PartsAreDashCell(c: string, a: string, dashes: string, b: string)
    requires DashParts(c, a, dashes, b)
    ensures IsDashCell(c)
  {
    assert c[|a|] == dashes[0] && c[|a| + |dashes| - 1] == dashes[|dashes| - 1];
    assert a == ":" ==> c[0] == ':';
    assert b == ":" ==> c[|c| - 1] == ':';
    forall i | |a| <= i < |a| + |dashes| ensures c[i] == '-' {
      assert c[i] == dashes[i - |a|];
    }
  }

  /** A separator row: every cell is a rule. */
  ghost predicate SeparatorLine(line: string) {
    exists cells :: Row(line, cells) && forall i | 0 <= i < |cells| :: Rule(cells[i])
  }

  lemma SeparatorIs(line: string)
    ensures IsSeparatorRow(line) <==> SeparatorLine(line)
  {
    hide Row, Cells, IsDashCell, Rule;
    CellsAre(line);
    forall c ensures IsDashCell(c) <==> Rule(c) {
      RuleIs(c);
    }
  }

  /** Nothing but dashes, colons, pipes and white space. */
  predicate Ruled(s: string) {
    forall i | 0 <= i < |s| :: s[i] in "-:|" || Space(s[i])
  }

  lemma RuledConcat(a: string, b: string)
    requires Ruled(a) && Ruled(b)
    ensures Ruled(a + b)
  {}

  lemma RuledTrim(s: string, t: string)
    requires Trims(s, t) && Ruled(t)
    ensures Ruled(s)
  {
    var lead, trail :| Around(s, lead, t, trail);
    RuledConcat(lead, t);
    RuledConcat(lead + t, trail);
  }

  lemma RuleIsRuled(c: string)
    requires Rule(c)
    ensures Ruled(c)
  {
    var a, dashes, b :| DashParts(c, a, dashes, b);
    RuledConcat(a, dashes);
    RuledConcat(a + dashes, b);
  }

  lemma {:induction false} GluedIsRuled(parts: seq<string>)
    requires parts != [] && forall i | 0 <= i < |parts| :: Ruled(parts[i])
    ensures Ruled(Glued(parts, "|"))
  {
    hide Ruled;
    if |parts| > 1 {
      var n := |parts| - 1;
      GluedIsRuled(parts[..n]);
      assert Ruled("|") by { PipeIsRuled(); }
      RuledConcat(Glued(parts[..n], "|"), "|");
      RuledConcat(Glued(parts[..n], "|") + "|", parts[n]);
    }
  }

  lemma PipeIsRuled()
    ensures Ruled("|") && Ruled("")
  {}

  /** The line a table drops holds no wording: only dashes, colons, pipes and white space. */
  lemma SeparatorIsRuled(line: string)
    requires IsSeparatorRow(line)
    ensures Ruled(line)
  {
    SeparatorIs(line);
    hide Trims, Ruled, Rule, Framed, CutAt, Row;
    var cells :| Row(line, cells) && forall i | 0 <= i < |cells| :: Rule(cells[i]);
    RowIsRuled(line, cells);
  }

  lemma RowIsRuled(line: string, cells: seq<string>)
    requires Row(line, cells) && forall i | 0 <= i < |cells| :: Rule(cells[i])
    ensures Ruled(line)
  {
    hide Trims, Ruled, Rule;
    var t, open, inner, close, pieces :|
      && Trims(line, t) && Framed(t, open, inner, close) && CutAt(inner, '|', pieces)
      && |cells| == |pieces| && forall i | 0 <= i < |cells| :: Trims(pieces[i], cells[i]);
    forall i | 0 <= i < |pieces| ensures Ruled(pieces[i]) {
      RuleIsRuled(cells[i]);
      RuledTrim(pieces[i], cells[i]);
    }
    GluedIsRuled(pieces);
    PipeIsRuled();
    RuledConcat(open, inner);
    RuledConcat(open + inner, close);
    RuledTrim(line, t);
  }
}
