/**
 What the extractor's output says about its input.

 The main theorem reads each chapter's output, piece by piece, as the lines of the document that belong
 to that chapter, each once and in order, where belonging is defined by looking at the document alone:
 a standard is in force, and the line starts a paragraph of the chapter or continues one with no chapter
 header, heading, footnote, table or FAQ line in between.
 */
module ChapterSelection {
  import opened Wrappers
  import opened ChapterExtract
  import Sequences

  // ---------------------------------------------------------------- lines by shape

  datatype Shape = ChapterLine | FooterLine | IndentedLine | StartLine | SupplementLine | HeadingLine | LooseLine

  function ShapeOf(line: string): Shape {
    if OpensChapter(line) then ChapterLine
    else if IsFooter(line) then FooterLine
    else if !IsFlushLeft(line) then IndentedLine
    else if ParagraphStart(line).Some? then StartLine
    else if IsSupplement(Strip(line)) then SupplementLine
    else if LooksHeading(line) then HeadingLine
    else LooseLine
  }

  /** The lines that open or close a paragraph. */
  predicate IsControl(line: string) {
    ShapeOf(line) in {ChapterLine, StartLine, SupplementLine, HeadingLine}
  }

  /** Line `h` is the last chapter header before line `i`. */
  ghost predicate LastHeader(lines: seq<string>, h: nat, i: nat) {
    && h < i <= |lines| && OpensChapter(lines[h])
    && forall j | h < j < i :: !OpensChapter(lines[j])
  }

  ghost predicate InForce(lines: seq<string>, std: string, i: nat) {
    exists h: nat :: LastHeader(lines, h, i) && ChapterHeader(lines[h]).value.std == std
  }

  /** The paragraph started at line `c` is still open when line `i` is reached. */
  ghost predicate OpenFrom(lines: seq<string>, c: nat, i: nat) {
    && c < i <= |lines| && ShapeOf(lines[c]).StartLine?
    && forall j | c < j < i :: !IsControl(lines[j])
  }

  predicate Starts(line: string, chap: nat) {
    ShapeOf(line).StartLine? && PrefixNumber(ParagraphStart(line).value.prefix) == chap
  }

  predicate Continues(line: string) {
    ShapeOf(line).IndentedLine? && Strip(line) != ""
  }

  /** Line `i` is part of the text of a chapter. */
  ghost predicate BelongsTo(lines: seq<string>, i: nat, key: Key) {
    && i < |lines| && InForce(lines, key.std, i)
    && (|| Starts(lines[i], key.chap)
        || (Continues(lines[i]) && exists c: nat :: OpenFrom(lines, c, i) && Starts(lines[c], key.chap)))
  }

  /** The text a line contributes: a paragraph start loses its number. */
  function TextOf(line: string): string {
    if ShapeOf(line).StartLine? then ParagraphStart(line).value.rest else Strip(line)
  }

  /** The first `n` lines that belong to a chapter, in order. */
  ghost function Selected(lines: seq<string>, key: Key, n: nat): seq<Piece>
    requires n <= |lines|
  {
    if n == 0 then []
    else
      Selected(lines, key, n - 1) +
      (if BelongsTo(lines, n - 1, key) then [Piece(n - 1, TextOf(lines[n - 1]))] else [])
  }

  function Flat(paras: seq<Para>): seq<Piece> {
    if paras == [] then [] else Flat(paras[..|paras| - 1]) + paras[|paras| - 1].pieces
  }

  function Paras(chapters: map<Key, seq<Para>>, key: Key): seq<Para> {
    if key in chapters then chapters[key] else []
  }

  // ---------------------------------------------------------------- what every prefix keeps

  predicate WellNumbered(chapters: map<Key, seq<Para>>) {
    forall key: Key | key in chapters :: forall p: Para <- chapters[key] :: PrefixNumber(p.prefix) == key.chap
  }

  predicate Sound(s: State) {
    && (s.pending ==> s.heading.Some? && s.para.None?)
    && (s.std.None? ==> s.para.None? && s.chapters == map[])
    && (s.std.Some? ==> Key(s.std.value, s.chap) in s.chapters)
    && (s.para.Some? ==> s.std.Some? && s.para.value.key == Key(s.std.value, s.chap)
                         && s.para.value.key in s.chapters
                         && s.para.value.index + 1 == |s.chapters[s.para.value.key]|)
    && WellNumbered(s.chapters)
  }

  lemma AppendKeepsNumbers(chapters: map<Key, seq<Para>>, at: Ref, piece: Piece)
    requires WellNumbered(chapters)
    ensures WellNumbered(AppendTo(chapters, at, piece))
  {
    var t := AppendTo(chapters, at, piece);
    forall key: Key | key in t ensures forall p: Para <- t[key] :: PrefixNumber(p.prefix) == key.chap {
      if key == at.key && at.index < |chapters[key]| {
        var was := chapters[key][at.index];
        assert forall p: Para <- t[key] :: p in chapters[key] || p == was.(pieces := was.pieces + [piece]);
      }
    }
  }

  lemma OpenIsSound(s: State, i: nat, p: Start)
    requires Sound(s) && s.std.Some?
    ensures Sound(OpenParagraph(s, i, p))
  {
    var t := OpenParagraph(s, i, p);
    var key := Key(s.std.value, PrefixNumber(p.prefix));
    forall k: Key | k in t.chapters ensures forall q: Para <- t.chapters[k] :: PrefixNumber(q.prefix) == k.chap {
      if k == key {
        assert forall q: Para <- t.chapters[k] :: q in Paras(s.chapters, key) || q.prefix == p.prefix;
      }
    }
  }

  lemma HeaderIsSound(s: State, h: Header)
    requires Sound(s)
    ensures Sound(State(Some(h.std), h.chap, None, None, false, SetDefault(s.chapters, Key(h.std, h.chap))))
  {}

  lemma AppendIsSound(s: State, piece: Piece)
    requires Sound(s) && s.para.Some?
    ensures Sound(s.(chapters := AppendTo(s.chapters, s.para.value, piece)))
  {
    AppendKeepsKeys(s.chapters, s.para.value, piece);
    AppendKeepsNumbers(s.chapters, s.para.value, piece);
    hide WellNumbered;
  }

  lemma HeadingsAreSound(s: State, line: string)
    requires Sound(s)
    ensures Sound(s.(pending := false, para := None))
    ensures Sound(s.(heading := Some(Strip(line)), pending := true, para := None))
    ensures s.pending ==> Sound(s.(heading := ExtendHeading(s.heading, line)))
  {
    hide WellNumbered;
  }

  lemma StepIsSound(s: State, i: nat, line: string)
    requires Sound(s)
    ensures Sound(Step(s, i, line))
  {
    OpensHasHeader(line);
    hide Sound, OpensChapter, ChapterHeader, IsFooter, IsFlushLeft, ParagraphStart, IsSupplement, IsWrapped,
         LooksHeading,
         Strip, OpenParagraph, AppendTo, SetDefault, ExtendHeading;
    HeadingsAreSound(s, line);
    if OpensChapter(line) {
      HeaderIsSound(s, ChapterHeader(line).value);
    } else {
      if s.para.Some? {
        AppendIsSound(s, Piece(i, Strip(line)));
      }
      if s.std.Some? && ParagraphStart(line).Some? {
        OpenIsSound(s, i, ParagraphStart(line).value);
      }
    }
  }

  /** At every line: a pending heading means a heading is set and no paragraph is open; the open
      paragraph is the last of the chapter in force; every paragraph sits in the chapter its own number
      names. */
  lemma {:induction false} ScanIsSound(lines: seq<string>)
    ensures Sound(Scan(lines))
  {
    if lines != [] {
      ScanIsSound(lines[..|lines| - 1]);
      StepIsSound(Scan(lines[..|lines| - 1]), |lines| - 1, lines[|lines| - 1]);
    }
  }

  // ---------------------------------------------------------------- reading the state off the document

  lemma InForceOfOne(lines: seq<string>, line: string, std: string)
    ensures InForce(lines + [line], std, |lines| + 1) <==>
            if OpensChapter(line) then ChapterHeader(line).value.std == std else InForce(lines, std, |lines|)
  {
    hide OpensChapter, ChapterHeader;
    var all, n := lines + [line], |lines|;
    assert all[n] == line && forall j | 0 <= j < n :: all[j] == lines[j];
    assert OpensChapter(line) ==> ChapterHeader(line).Some? by { OpensHasHeader(line); }
    if OpensChapter(line) {
      assert LastHeader(all, n, n + 1);
      var m := n + 1;
      assert forall h: nat :: LastHeader(all, h, m) ==> h == n;
    } else {
      forall h: nat ensures LastHeader(all, h, n + 1) <==> LastHeader(lines, h, n) {}
    }
  }

  lemma OpensHasHeader(line: string)
    ensures OpensChapter(line) ==> ChapterHeader(line).Some?
  {}

  lemma OpenFromOfOne(lines: seq<string>, line: string, c: nat)
    ensures OpenFrom(lines + [line], c, |lines| + 1) <==>
            (c == |lines| && ShapeOf(line).StartLine?) || (!IsControl(line) && OpenFrom(lines, c, |lines|))
  {
    hide ShapeOf;
    var all, n := lines + [line], |lines|;
    assert all[n] == line && forall j | 0 <= j < n :: all[j] == lines[j];
  }

  /** The open paragraph, read off the document. */
  ghost predicate OpenIn(lines: seq<string>, chap: nat) {
    exists c: nat :: OpenFrom(lines, c, |lines|) && Starts(lines[c], chap)
  }

  lemma OpenInOfOne(lines: seq<string>, line: string, chap: nat)
    ensures OpenIn(lines + [line], chap) <==>
            if IsControl(line) then Starts(line, chap) else OpenIn(lines, chap)
  {
    hide ShapeOf;
    var all, n := lines + [line], |lines|;
    assert all[n] == line && forall j | 0 <= j < n :: all[j] == lines[j];
    forall c: nat ensures OpenFrom(all, c, n + 1) <==>
      (c == n && ShapeOf(line).StartLine?) || (!IsControl(line) && OpenFrom(lines, c, n))
    {
      OpenFromOfOne(lines, line, c);
    }
    if Starts(line, chap) {
      assert OpenFrom(all, n, n + 1);
    }
    if !IsControl(line) && OpenIn(lines, chap) {
      var c: nat :| OpenFrom(lines, c, n) && Starts(lines[c], chap);
      assert OpenFrom(all, c, n + 1) && Starts(all[c], chap);
    }
  }

  /** `std` and `para` say what the document says. */
  ghost predicate Meant(lines: seq<string>, s: State) {
    && (forall std :: InForce(lines, std, |lines|) <==> s.std == Some(std))
    && (s.std.Some? ==> forall chap :: OpenIn(lines, chap) <==> s.para.Some? && s.chap == chap)
  }

  lemma WrappedIsNotHeading(line: string)
    ensures IsWrapped(line) ==> !LooksHeading(line)
  {}

  /** What a line does to the state, by its shape. */
  lemma StepByShape(s: State, i: nat, line: string)
    ensures var t, shape := Step(s, i, line), ShapeOf(line);
            && t.std == (if shape.ChapterLine? then Some(ChapterHeader(line).value.std) else s.std)
            && (shape.ChapterLine? ==> t.para.None?)
            && (s.std.Some? ==>
                  && (shape in {SupplementLine, HeadingLine} ==> t.para.None?)
                  && (shape.StartLine? ==> t.para.Some? && t.chap == PrefixNumber(ParagraphStart(line).value.prefix))
                  && (shape in {FooterLine, IndentedLine, LooseLine} ==> t.para == s.para && t.chap == s.chap))
  {
    WrappedIsNotHeading(line);
    OpensHasHeader(line);
    hide ChapterHeader, OpensChapter, IsFooter, IsFlushLeft, ParagraphStart, IsSupplement, IsWrapped, LooksHeading,
         Strip, AppendTo;
  }

  lemma NothingIsMeant()
    ensures Meant([], START)
  {}

  lemma MeantStandard(before: seq<string>, s: State, line: string, std: string)
    requires InForce(before, std, |before|) <==> s.std == Some(std)
    ensures InForce(before + [line], std, |before| + 1) <==> Step(s, |before|, line).std == Some(std)
  {
    StepByShape(s, |before|, line);
    OpensByShape(line);
    InForceOfOne(before, line, std);
    hide *;
  }

  lemma ControlByShape(line: string, chap: nat)
    ensures var shape := ShapeOf(line);
            && (IsControl(line) <==> shape in {ChapterLine, StartLine, SupplementLine, HeadingLine})
            && (shape in {FooterLine, IndentedLine, LooseLine} <==> !IsControl(line))
            && (Starts(line, chap) <==>
                  shape.StartLine? && PrefixNumber(ParagraphStart(line).value.prefix) == chap)
  {
    OpensByShape(line);
    hide ShapeOf, ParagraphStart, PrefixNumber;
  }

  lemma MeantParagraph(before: seq<string>, s: State, line: string, chap: nat)
    requires s.std.Some? ==> (OpenIn(before, chap) <==> s.para.Some? && s.chap == chap)
    ensures var t := Step(s, |before|, line);
            t.std.Some? ==> (OpenIn(before + [line], chap) <==> t.para.Some? && t.chap == chap)
  {
    StepByShape(s, |before|, line);
    ControlByShape(line, chap);
    OpenInOfOne(before, line, chap);
    hide *;
  }

  lemma MeantStep(before: seq<string>, s: State, line: string)
    requires Meant(before, s)
    ensures Meant(before + [line], Step(s, |before|, line))
  {
    hide Step, InForce, OpenIn;
    forall std: string
      ensures InForce(before + [line], std, |before| + 1) <==> Step(s, |before|, line).std == Some(std)
    {
      MeantStandard(before, s, line, std);
    }
    forall chap: nat
      ensures var t := Step(s, |before|, line);
              t.std.Some? ==> (OpenIn(before + [line], chap) <==> t.para.Some? && t.chap == chap)
    {
      MeantParagraph(before, s, line, chap);
    }
  }

  lemma {:induction false} StateIsMeant(lines: seq<string>)
    ensures Meant(lines, Scan(lines))
  {
    hide Step, Meant;
    if lines == [] {
      NothingIsMeant();
    } else {
      var n := |lines| - 1;
      StateIsMeant(lines[..n]);
      MeantStep(lines[..n], Scan(lines[..n]), lines[n]);
      assert lines == lines[..n] + [lines[n]];
    }
  }

  lemma OpensByShape(line: string)
    ensures OpensChapter(line) <==> ShapeOf(line).ChapterLine?
    ensures ShapeOf(line).StartLine? ==> ParagraphStart(line).Some?
  {}

  // ---------------------------------------------------------------- the selection

  lemma BelongsToPrefix(lines: seq<string>, more: seq<string>, i: nat, key: Key)
    requires i < |lines|
    ensures BelongsTo(lines + more, i, key) <==> BelongsTo(lines, i, key)
  {
    hide ShapeOf, OpensChapter, ChapterHeader, Strip;
    var all := lines + more;
    assert forall j | 0 <= j < |lines| :: all[j] == lines[j];
    forall h: nat ensures LastHeader(all, h, i) <==> LastHeader(lines, h, i) {}
    forall c: nat ensures OpenFrom(all, c, i) <==> OpenFrom(lines, c, i) {}
    forall h: nat | LastHeader(lines, h, i) ensures ChapterHeader(lines[h]).Some? { OpensHasHeader(lines[h]); }
  }

  lemma {:induction false} SelectedPrefix(lines: seq<string>, line: string, key: Key, k: nat)
    requires k <= |lines|
    ensures Selected(lines + [line], key, k) == Selected(lines, key, k)
  {
    hide BelongsTo, TextOf;
    if k > 0 {
      SelectedPrefix(lines, line, key, k - 1);
      BelongsToPrefix(lines, [line], k - 1, key);
      assert (lines + [line])[k - 1] == lines[k - 1];
    }
  }

  /** Whether the next line belongs to a chapter, from the state before it. */
  lemma BelongsByState(lines: seq<string>, line: string, key: Key)
    ensures BelongsTo(lines + [line], |lines|, key) <==> Adds(Scan(lines), line, key)
  {
    hide ShapeOf, OpensChapter, ChapterHeader, Strip, Scan;
    StateIsMeant(lines);
    var all, n := lines + [line], |lines|;
    assert all[n] == line && forall j | 0 <= j < n :: all[j] == lines[j];
    forall h: nat ensures LastHeader(all, h, n) <==> LastHeader(lines, h, n) {}
    forall h: nat | LastHeader(lines, h, n) ensures ChapterHeader(lines[h]).Some? { OpensHasHeader(lines[h]); }
    assert InForce(all, key.std, n) <==> InForce(lines, key.std, n);
    forall c: nat ensures OpenFrom(all, c, n) <==> OpenFrom(lines, c, n) {}
    assert (exists c: nat :: OpenFrom(all, c, n) && Starts(all[c], key.chap)) <==> OpenIn(lines, key.chap);
  }

  lemma FlatOfOne(paras: seq<Para>, p: Para)
    ensures Flat(paras + [p]) == Flat(paras) + p.pieces
  {
    assert (paras + [p])[..|paras|] == paras;
  }

  lemma FlatOfLast(paras: seq<Para>, piece: Piece)
    requires paras != []
    ensures var n := |paras| - 1;
            Flat(paras[n := paras[n].(pieces := paras[n].pieces + [piece])]) == Flat(paras) + [piece]
  {
    var n := |paras| - 1;
    var p := paras[n];
    var q := p.(pieces := p.pieces + [piece]);
    assert paras[n := q] == paras[..n] + [q] && paras == paras[..n] + [p];
    FlatOfOne(paras[..n], p);
    FlatOfOne(paras[..n], q);
    assert Flat(paras[..n]) + (p.pieces + [piece]) == Flat(paras[..n]) + p.pieces + [piece];
  }

  lemma {:induction false} TrimEndKeeps(s: string)
    requires s != [] && !IsBlank(s[0])
    ensures TrimEnd(s) != []
  {
    if IsBlank(s[|s| - 1]) {
      TrimEndKeeps(s[..|s| - 1]);
    }
  }

  /** A paragraph start always has text after its number. */
  lemma StartHasText(line: string)
    ensures ParagraphStart(line).Some? ==> ParagraphStart(line).value.rest != ""
  {
    if ParagraphStart(line).Some? {
      var d := Digits(line[3..]);
      var after := line[3 + d..];
      var text := after[Blanks(after)..];
      assert !IsBlank(text[0]);
      assert Blanks(text) == 0 && text[0..] == text;
      TrimEndKeeps(text);
    }
  }

  predicate Adds(s: State, line: string, key: Key) {
    s.std == Some(key.std) &&
    (Starts(line, key.chap) || (Continues(line) && s.para.Some? && s.chap == key.chap))
  }

  lemma StartAdds(s: State, i: nat, line: string, key: Key)
    requires s.std.Some? && ParagraphStart(line).Some?
    ensures var p := ParagraphStart(line).value;
            Flat(Paras(OpenParagraph(s, i, p).chapters, key)) ==
            Flat(Paras(s.chapters, key)) +
                (if key == Key(s.std.value, PrefixNumber(p.prefix)) then [Piece(i, p.rest)] else [])
  {
    StartHasText(line);
    EmptyFlat();
    var p := ParagraphStart(line).value;
    hide PrefixNumber, Flat, ParagraphStart;
    FlatOfOne(Paras(s.chapters, key), Para(p.prefix, p.item, s.heading, [Piece(i, p.rest)]));
    assert Flat(Paras(s.chapters, key)) + [] == Flat(Paras(s.chapters, key));
  }

  lemma ContinuationAdds(s: State, i: nat, text: string, key: Key)
    requires Sound(s) && s.para.Some?
    ensures Flat(Paras(AppendTo(s.chapters, s.para.value, Piece(i, text)), key)) ==
            Flat(Paras(s.chapters, key)) + (if key == s.para.value.key then [Piece(i, text)] else [])
  {
    hide Flat;
    FlatOfLast(Paras(s.chapters, s.para.value.key), Piece(i, text));
    assert Flat(Paras(s.chapters, key)) + [] == Flat(Paras(s.chapters, key));
  }

  /** The effect of a line on the chapters, by its shape. */
  lemma ChaptersByShape(s: State, i: nat, line: string)
    requires Sound(s)
    ensures var t, shape := Step(s, i, line).chapters, ShapeOf(line);
            if shape.StartLine? && s.std.Some? then
              ParagraphStart(line).Some? && t == OpenParagraph(s, i, ParagraphStart(line).value).chapters
            else if Continues(line) && s.para.Some? then
              t == AppendTo(s.chapters, s.para.value, Piece(i, TextOf(line)))
            else forall key :: Paras(t, key) == Paras(s.chapters, key)
  {
    hide ChapterHeader, IsFooter, IsFlushLeft, ParagraphStart, IsSupplement, IsWrapped, LooksHeading, Strip,
         OpenParagraph, AppendTo;
  }

  /** What one line adds to the text of a chapter. */
  lemma StepAdds(s: State, i: nat, line: string, key: Key)
    requires Sound(s)
    ensures Flat(Paras(Step(s, i, line).chapters, key)) ==
            Flat(Paras(s.chapters, key)) + (if Adds(s, line, key) then [Piece(i, TextOf(line))] else [])
  {
    ChaptersByShape(s, i, line);
    OpensByShape(line);
    hide Step, ShapeOf, Flat, Paras, Strip, OpenParagraph, AppendTo, ParagraphStart, PrefixNumber;
    if ShapeOf(line).StartLine? && s.std.Some? {
      StartAdds(s, i, line, key);
    } else if Continues(line) && s.para.Some? {
      ContinuationAdds(s, i, TextOf(line), key);
    } else {
      assert Flat(Paras(s.chapters, key)) + [] == Flat(Paras(s.chapters, key));
    }
  }

  lemma EmptyFlat()
    ensures Flat([]) == []
  {}

  /** For every document and chapter: the chapter's text, paragraph by paragraph, is exactly the lines
      that belong to it, each once and in the order of the document. */
  lemma {:induction false} ChapterIsSelection(lines: seq<string>, key: Key)
    ensures Flat(Paras(Scan(lines).chapters, key)) == Selected(lines, key, |lines|)
  {
    hide Step, BelongsTo, TextOf, Adds, Flat;
    if lines == [] {
      EmptyFlat();
    } else {
      var n := |lines| - 1;
      var before, line := lines[..n], lines[n];
      assert lines == before + [line];
      ChapterIsSelection(before, key);
      ScanIsSound(before);
      StepAdds(Scan(before), n, line, key);
      BelongsByState(before, line, key);
      SelectedPrefix(before, line, key, n);
    }
  }

  /** No line is used in two chapters. */
  lemma OneChapterPerLine(lines: seq<string>, i: nat, x: Key, y: Key)
    requires BelongsTo(lines, i, x) && BelongsTo(lines, i, y)
    ensures x == y
  {
    hide BelongsTo, ShapeOf, Scan;
    assert i < |lines| by { InBounds(lines, i, x); }
    var before := lines[..i];
    assert lines == before + [lines[i]] + lines[i + 1..];
    BelongsToPrefix(before + [lines[i]], lines[i + 1..], i, x);
    BelongsToPrefix(before + [lines[i]], lines[i + 1..], i, y);
    BelongsByState(before, lines[i], x);
    BelongsByState(before, lines[i], y);
  }

  lemma InBounds(lines: seq<string>, i: nat, key: Key)
    requires BelongsTo(lines, i, key)
    ensures i < |lines|
  {}

  /** Every paragraph of the output sits in the chapter its own number names. */
  lemma ParagraphsSitWhereNumbered(lines: seq<string>, key: Key, p: Para)
    requires p in Paras(Scan(lines).chapters, key)
    ensures PrefixNumber(p.prefix) == key.chap
  {
    ScanIsSound(lines);
  }

  // ---------------------------------------------------------------- the written rows keep every character

  function Ink(s: string): string {
    if s == "" then "" else (if IsBlank(s[0]) then "" else [s[0]]) + Ink(s[1..])
  }

  function InkOfPieces(pieces: seq<Piece>): string {
    if pieces == [] then "" else InkOfPieces(pieces[..|pieces| - 1]) + Ink(pieces[|pieces| - 1].text)
  }

  lemma {:induction false} InkOfConcat(a: string, b: string)
    ensures Ink(a + b) == Ink(a) + Ink(b)
  {
    if a == "" {
      assert a + b == b;
    } else {
      assert (a + b)[1..] == a[1..] + b;
      InkOfConcat(a[1..], b);
      assert Ink(a + b) == (if IsBlank(a[0]) then "" else [a[0]]) + (Ink(a[1..]) + Ink(b));
    }
  }

  lemma {:induction false} InkOfBlanks(s: string)
    requires forall i | 0 <= i < |s| :: IsBlank(s[i])
    ensures Ink(s) == ""
  {
    if s != "" {
      InkOfBlanks(s[1..]);
    }
  }

  lemma InkAfterBlanks(s: string)
    ensures Ink(s[Blanks(s)..]) == Ink(s)
  {
    var n := Blanks(s);
    assert s == s[..n] + s[n..];
    InkOfConcat(s[..n], s[n..]);
    InkOfBlanks(s[..n]);
  }

  lemma {:induction false} InkOfTrimEnd(s: string)
    ensures Ink(TrimEnd(s)) == Ink(s)
  {
    if s != "" && IsBlank(s[|s| - 1]) {
      InkOfTrimEnd(s[..|s| - 1]);
      assert s == s[..|s| - 1] + [s[|s| - 1]];
      InkOfConcat(s[..|s| - 1], [s[|s| - 1]]);
      InkOfBlanks([s[|s| - 1]]);
    }
  }

  lemma InkOfStrip(s: string)
    ensures Ink(Strip(s)) == Ink(s)
  {
    InkAfterBlanks(s);
    InkOfTrimEnd(s[Blanks(s)..]);
  }

  lemma {:induction false} InkOfCollapse(s: string)
    ensures Ink(Collapse(s)) == Ink(s)
    decreases |s|
  {
    if s != "" {
      if IsBlank(s[0]) {
        InkOfCollapse(s[Blanks(s)..]);
        InkAfterBlanks(s);
        InkOfConcat(" ", Collapse(s[Blanks(s)..]));
        InkOfBlanks(" ");
      } else {
        InkOfCollapse(s[1..]);
        InkOfConcat([s[0]], Collapse(s[1..]));
        assert [s[0]] + s[1..] == s;
        InkOfConcat([s[0]], s[1..]);
      }
    }
  }

  lemma {:induction false} InkOfJoined(pieces: seq<Piece>)
    ensures Ink(Joined(pieces)) == InkOfPieces(pieces)
  {
    if |pieces| == 1 {
      assert pieces[..0] == [];
    } else if pieces != [] {
      var n := |pieces| - 1;
      InkOfJoined(pieces[..n]);
      InkOfConcat(Joined(pieces[..n]) + " ", pieces[n].text);
      InkOfConcat(Joined(pieces[..n]), " ");
      InkOfBlanks(" ");
    }
  }

  /** Joining, squeezing blanks and trimming lose no character of a paragraph. */
  lemma RowKeepsInk(p: Para)
    ensures Ink(RowText(p)) == InkOfPieces(p.pieces)
  {
    InkOfJoined(p.pieces);
    InkOfCollapse(Joined(p.pieces));
    InkOfStrip(Collapse(Joined(p.pieces)));
  }

  function InkOfRows(paras: seq<Para>): string {
    if paras == [] then "" else InkOfRows(paras[..|paras| - 1]) + Ink(RowText(paras[|paras| - 1]))
  }

  lemma InkOfPiecesLast(pieces: seq<Piece>, p: Piece)
    ensures InkOfPieces(pieces + [p]) == InkOfPieces(pieces) + Ink(p.text)
  {
    hide Ink;
    Sequences.Snoc(pieces, p);
  }

  lemma {:induction false} InkOfPiecesConcat(a: seq<Piece>, b: seq<Piece>)
    ensures InkOfPieces(a + b) == InkOfPieces(a) + InkOfPieces(b)
  {
    if b == [] {
      assert InkOfPieces([]) == "";
      hide *;
      Sequences.Unit(a);
      Sequences.Unit(InkOfPieces(a));
    } else {
      hide *;
      var init, p := b[..|b| - 1], b[|b| - 1];
      assert b == init + [p];
      InkOfPiecesConcat(a, init);
      Sequences.Assoc(a, init, [p]);
      InkOfPiecesLast(a + init, p);
      InkOfPiecesLast(init, p);
      Sequences.Assoc(InkOfPieces(a), InkOfPieces(init), Ink(p.text));
    }
  }

  lemma {:induction false} InkOfFlat(paras: seq<Para>)
    ensures InkOfRows(paras) == InkOfPieces(Flat(paras))
  {
    hide RowText;
    if paras != [] {
      var n := |paras| - 1;
      InkOfFlat(paras[..n]);
      RowKeepsInk(paras[n]);
      InkOfPiecesConcat(Flat(paras[..n]), paras[n].pieces);
    }
  }

  /** The written text of a chapter has exactly the characters of the lines that belong to it (paragraph
      numbers aside), in the order of the document. */
  lemma ChapterTextIsConserved(lines: seq<string>, key: Key)
    ensures InkOfRows(Paras(Scan(lines).chapters, key)) == InkOfPieces(Selected(lines, key, |lines|))
  {
    InkOfFlat(Paras(Scan(lines).chapters, key));
    ChapterIsSelection(lines, key);
  }
}
