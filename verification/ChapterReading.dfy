/**
 Every paragraph of the extractor's output, read off the document: where it starts, its number, the heading it
 sits under and the lines that continue it.
 */
module ChapterReading {
  import opened Wrappers
  import opened ChapterExtract
  import opened ChapterSelection
  import S = ChapterShapes

  // ---------------------------------------------------------------- shapes

  ghost predicate NumberedLine(line: string) {
    exists prefix, item, rest :: S.StartLine(line, prefix, item, rest)
  }

  /** The shape of a line, by what it is made of; the first that fits. */
  lemma ShapeMeans(line: string, t: string)
    requires S.Stripped(line, t)
    ensures ShapeOf(line) ==
            if S.OpensLine(line) then ChapterLine
            else if S.FooterLine(line) then FooterLine
            else if line == "" || S.Space(line[0]) then IndentedLine
            else if NumberedLine(line) then StartLine
            else if S.Supplement(t) then SupplementLine
            else if S.HeadingText(t) then HeadingLine
            else LooseLine
  {
    S.OpensIs(line);
    S.FooterIs(line);
    S.FlushIs(line);
    S.StartIs(line);
    S.StripIs(line);
    S.SupplementIs(t);
    S.HeadingIs(line, t);
    hide OpensChapter, IsFooter, IsFlushLeft, ParagraphStart, IsSupplement, LooksHeading, Strip, S.OpensLine,
         S.FooterLine,
         S.StartLine, S.Supplement, S.HeadingText, S.Stripped, S.Space;
    if ParagraphStart(line).Some? {
      var p := ParagraphStart(line).value;
      assert S.StartLine(line, p.prefix, p.item, p.rest);
    }
    if prefix, item, rest :| S.StartLine(line, prefix, item, rest) {
      assert ParagraphStart(line) == Some(Start(prefix, item, rest));
    }
  }

  // ---------------------------------------------------------------- headings

  ghost predicate HasHeader(lines: seq<string>, i: nat) {
    exists g: nat :: LastHeader(lines, g, i)
  }

  /** Line `h` is the last heading of its chapter before line `i`. */
  ghost predicate LastHeading(lines: seq<string>, h: nat, i: nat) {
    && h < i <= |lines| && ShapeOf(lines[h]).HeadingLine? && HasHeader(lines, h)
    && forall j | h < j < i :: ShapeOf(lines[j]) !in {HeadingLine, ChapterLine}
  }

  predicate Quiet(lines: seq<string>, h: nat, i: nat) {
    i <= |lines| && forall k | h < k < i :: !IsControl(lines[k])
  }

  /** Line `j` carries on the heading at line `h`: it opens with a small letter, and nothing has opened or closed a
      paragraph since. */
  predicate Wraps(lines: seq<string>, h: nat, j: nat) {
    h < j < |lines| && ShapeOf(lines[j]).LooseLine? && IsWrapped(lines[j]) && Quiet(lines, h, j)
  }

  /** A hyphen at the end of a line joins it to the next without a space. */
  function Glue(t: string): string {
    if t != "" && t[|t| - 1] == '-' then "" else " "
  }

  /** The heading at line `h` with the lines before `i` that carry it on. */
  function HeadingFrom(lines: seq<string>, h: nat, i: nat): string
    requires h < i <= |lines|
    decreases i
  {
    if i == h + 1 then Strip(lines[h])
    else
      var t := HeadingFrom(lines, h, i - 1);
      if Wraps(lines, h, i - 1) then t + Glue(t) + Strip(lines[i - 1]) else t
  }

  /** The heading in force when line `i` is reached. */
  ghost predicate Under(lines: seq<string>, i: nat, heading: Option<string>) {
    if heading.None? then forall h: nat :: !LastHeading(lines, h, i)
    else exists h: nat :: LastHeading(lines, h, i) && heading.value == HeadingFrom(lines, h, i)
  }

  ghost predicate Awaiting(lines: seq<string>) {
    exists h: nat :: LastHeading(lines, h, |lines|) && Quiet(lines, h, |lines|)
  }

  ghost predicate HeadingMeant(lines: seq<string>, s: State) {
    Under(lines, |lines|, s.heading) && (s.pending <==> Awaiting(lines))
  }

  lemma {:induction false} HeadingFromPrefix(lines: seq<string>, more: seq<string>, h: nat, i: nat)
    requires h < i <= |lines|
    ensures HeadingFrom(lines + more, h, i) == HeadingFrom(lines, h, i)
    decreases i
  {
    hide ShapeOf, Strip, IsWrapped;
    assert forall j | 0 <= j < |lines| :: (lines + more)[j] == lines[j];
    if i > h + 1 {
      HeadingFromPrefix(lines, more, h, i - 1);
    }
  }

  lemma LastHeadingPrefix(lines: seq<string>, more: seq<string>, h: nat, i: nat)
    requires i <= |lines|
    ensures LastHeading(lines + more, h, i) <==> LastHeading(lines, h, i)
  {
    hide ShapeOf, OpensChapter;
    assert forall j | 0 <= j < |lines| :: (lines + more)[j] == lines[j];
    if h < i {
      forall g: nat ensures LastHeader(lines + more, g, h) <==> LastHeader(lines, g, h) {}
    }
  }

  lemma UnderPrefix(lines: seq<string>, more: seq<string>, i: nat, heading: Option<string>)
    requires i <= |lines| && Under(lines, i, heading)
    ensures Under(lines + more, i, heading)
  {
    hide HeadingFrom, ShapeOf, HasHeader;
    forall h: nat ensures LastHeading(lines + more, h, i) <==> LastHeading(lines, h, i) {
      LastHeadingPrefix(lines, more, h, i);
    }
    if heading.Some? {
      var h: nat :| LastHeading(lines, h, i) && heading.value == HeadingFrom(lines, h, i);
      HeadingBefore(lines, h, i);
      HeadingFromPrefix(lines, more, h, i);
    }
  }

  lemma HeadingBefore(lines: seq<string>, h: nat, i: nat)
    requires LastHeading(lines, h, i)
    ensures h < i <= |lines|
  {}

  lemma OneLastHeading(lines: seq<string>, g: nat, h: nat, i: nat)
    requires LastHeading(lines, g, i) && LastHeading(lines, h, i)
    ensures g == h
  {
    hide ShapeOf;
  }

  /** What a line does to the heading and to whether it waits for more, by its shape. */
  lemma HeadingByShape(s: State, i: nat, line: string)
    requires Sound(s)
    ensures var t, shape := Step(s, i, line), ShapeOf(line);
            if shape.ChapterLine? then t.heading == None && !t.pending
            else if s.std.None? then t.heading == s.heading && t.pending == s.pending
            else match shape
              case StartLine => t.heading == s.heading && !t.pending
              case SupplementLine => t.heading == s.heading && !t.pending
              case HeadingLine => t.heading == Some(Strip(line)) && t.pending
              case LooseLine =>
                && t.pending == s.pending
                && if s.pending && IsWrapped(line)
                   then s.heading.Some? &&
                        t.heading == Some(s.heading.value + Glue(s.heading.value) + Strip(line))
                   else t.heading == s.heading
              case _ => t.heading == s.heading && t.pending == s.pending
  {
    WrappedIsNotHeading(line);
    hide ChapterHeader, OpensChapter, IsFooter, IsFlushLeft, ParagraphStart, IsSupplement, IsWrapped, LooksHeading,
         Strip, AppendTo, WellNumbered;
  }

  lemma LastHeadingOfOne(lines: seq<string>, line: string, h: nat)
    ensures LastHeading(lines + [line], h, |lines| + 1) <==>
            || (h == |lines| && ShapeOf(line).HeadingLine? && HasHeader(lines, |lines|))
            || (ShapeOf(line) !in {HeadingLine, ChapterLine} && LastHeading(lines, h, |lines|))
  {
    hide ShapeOf, OpensChapter;
    var all, n := lines + [line], |lines|;
    assert all[n] == line && forall j | 0 <= j < n :: all[j] == lines[j];
    if h <= n {
      forall g: nat ensures LastHeader(all, g, h) <==> LastHeader(lines, g, h) {}
    }
  }

  lemma QuietOfOne(lines: seq<string>, line: string, h: nat)
    ensures h < |lines| ==>
              (Quiet(lines + [line], h, |lines| + 1) <==> Quiet(lines, h, |lines|) && !IsControl(line))
    ensures h == |lines| ==> Quiet(lines + [line], h, |lines| + 1)
  {
    hide IsControl;
    var all, n := lines + [line], |lines|;
    assert all[n] == line && forall j | 0 <= j < n :: all[j] == lines[j];
  }

  /** The heading at `h` after one more line. */
  lemma HeadingFromOne(lines: seq<string>, line: string, h: nat)
    requires h <= |lines|
    ensures h == |lines| ==> HeadingFrom(lines + [line], h, |lines| + 1) == Strip(line)
    ensures h < |lines| ==>
              var t := HeadingFrom(lines, h, |lines|);
              HeadingFrom(lines + [line], h, |lines| + 1) ==
              if ShapeOf(line).LooseLine? && IsWrapped(line) && Quiet(lines, h, |lines|)
              then t + Glue(t) + Strip(line) else t
  {
    hide ShapeOf, Strip, IsWrapped;
    var all, n := lines + [line], |lines|;
    assert all[n] == line && forall j | 0 <= j < n :: all[j] == lines[j];
    if h < n {
      HeadingFromPrefix(lines, [line], h, n);
      assert Quiet(all, h, n) <==> Quiet(lines, h, n);
    }
  }

  lemma HeaderInForce(lines: seq<string>, s: State)
    requires Meant(lines, s)
    ensures s.std.Some? <==> HasHeader(lines, |lines|)
  {
    hide OpenIn, OpensChapter, ChapterHeader;
    if g: nat :| LastHeader(lines, g, |lines|) {
      OpensHasHeader(lines[g]);
      assert InForce(lines, ChapterHeader(lines[g]).value.std, |lines|);
    }
    if s.std.Some? {
      assert InForce(lines, s.std.value, |lines|);
    }
  }

  lemma NoHeadingYet(lines: seq<string>, s: State)
    requires Meant(lines, s) && s.std.None?
    ensures forall h: nat :: !LastHeading(lines, h, |lines|)
  {
    HeaderInForce(lines, s);
    hide Meant, OpensChapter;
    if h: nat :| LastHeading(lines, h, |lines|) {
      HeaderStays(lines, h);
    }
  }

  lemma HeaderStays(lines: seq<string>, h: nat)
    requires LastHeading(lines, h, |lines|)
    ensures HasHeader(lines, |lines|)
  {
    hide ShapeOf, OpensChapter;
    var g: nat :| LastHeader(lines, g, h);
    forall j | h <= j < |lines| ensures !OpensChapter(lines[j]) { OpensByShape(lines[j]); }
    assert LastHeader(lines, g, |lines|);
  }

  lemma HeadingBegins(before: seq<string>, line: string)
    requires ShapeOf(line).HeadingLine? && HasHeader(before, |before|)
    ensures Under(before + [line], |before| + 1, Some(Strip(line)))
  {
    hide ShapeOf, Strip, IsWrapped, HasHeader, LastHeading, HeadingFrom, Under;
    LastHeadingOfOne(before, line, |before|);
    HeadingFromOne(before, line, |before|);
    IsUnder(before + [line], |before|, |before| + 1);
  }

  lemma StillNoHeading(before: seq<string>, line: string)
    requires ShapeOf(line).ChapterLine? || forall h: nat :: !LastHeading(before, h, |before|)
    requires ShapeOf(line).HeadingLine? ==> !HasHeader(before, |before|)
    ensures Under(before + [line], |before| + 1, None)
  {
    hide ShapeOf, HasHeader, LastHeading;
    var m := |before| + 1;
    forall h: nat ensures !LastHeading(before + [line], h, m) {
      LastHeadingOfOne(before, line, h);
    }
  }

  lemma UnderStep(before: seq<string>, s: State, line: string)
    requires Sound(s) && Meant(before, s) && HeadingMeant(before, s)
    ensures Under(before + [line], |before| + 1, Step(s, |before|, line).heading)
  {
    hide ShapeOf, Step, Strip, IsWrapped, Sound, Meant, HeadingFrom, HasHeader, Quiet;
    HeadingByShape(s, |before|, line);
    HeaderInForce(before, s);
    if s.std.None? { NoHeadingYet(before, s); }
    var n, shape := |before|, ShapeOf(line);
    if shape.HeadingLine? && s.std.Some? {
      HeadingBegins(before, line);
    } else if !shape.ChapterLine? && s.std.Some? && s.heading.Some? {
      var h: nat :| LastHeading(before, h, n) && s.heading.value == HeadingFrom(before, h, n);
      HeadingGoesOn(before, s, line, h);
    } else {
      StillNoHeading(before, line);
    }
  }

  lemma HeadingGoesOn(before: seq<string>, s: State, line: string, h: nat)
    requires Sound(s) && HeadingMeant(before, s) && s.std.Some? && ShapeOf(line) !in {HeadingLine, ChapterLine}
    requires LastHeading(before, h, |before|) && s.heading == Some(HeadingFrom(before, h, |before|))
    ensures Under(before + [line], |before| + 1, Step(s, |before|, line).heading)
  {
    HeadingByShape(s, |before|, line);
    HeadingBefore(before, h, |before|);
    hide ShapeOf, Step, Strip, IsWrapped, Sound, LastHeading, HeadingFrom, HasHeader, Quiet, Under;
    LastHeadingOfOne(before, line, h);
    HeadingFromOne(before, line, h);
    AwaitsAt(before, h);
    IsUnder(before + [line], h, |before| + 1);
  }

  lemma IsUnder(lines: seq<string>, h: nat, i: nat)
    requires LastHeading(lines, h, i)
    ensures Under(lines, i, Some(HeadingFrom(lines, h, i)))
  {
    hide ShapeOf, HeadingFrom, HasHeader;
  }

  lemma AwaitsAt(lines: seq<string>, h: nat)
    requires LastHeading(lines, h, |lines|)
    ensures Awaiting(lines) <==> Quiet(lines, h, |lines|)
  {
    hide LastHeading, Quiet;
    if g: nat :| LastHeading(lines, g, |lines|) && Quiet(lines, g, |lines|) {
      OneLastHeading(lines, g, h, |lines|);
    }
  }

  /** Whether a heading is awaited after one more line. */
  lemma AwaitingOfOne(before: seq<string>, line: string)
    ensures Awaiting(before + [line]) <==>
            (ShapeOf(line).HeadingLine? && HasHeader(before, |before|)) || (Awaiting(before) && !IsControl(line))
  {
    hide *;
    if Awaiting(before + [line]) { AwaitedFrom(before, line); }
    if ShapeOf(line).HeadingLine? && HasHeader(before, |before|) { AwaitedAtOnce(before, line); }
    if Awaiting(before) && !IsControl(line) { AwaitedStill(before, line); }
  }

  lemma AwaitedFrom(before: seq<string>, line: string)
    requires Awaiting(before + [line])
    ensures (ShapeOf(line).HeadingLine? && HasHeader(before, |before|)) || (Awaiting(before) && !IsControl(line))
  {
    hide ShapeOf, IsControl, LastHeading, HasHeader, Quiet;
    var m := |before| + 1;
    var h: nat :| LastHeading(before + [line], h, m) && Quiet(before + [line], h, m);
    LastHeadingOfOne(before, line, h);
    QuietOfOne(before, line, h);
    if LastHeading(before, h, |before|) { HeadingBefore(before, h, |before|); }
  }

  lemma IsAwaited(lines: seq<string>, h: nat)
    requires LastHeading(lines, h, |lines|) && Quiet(lines, h, |lines|)
    ensures Awaiting(lines)
  {
    hide LastHeading, Quiet;
  }

  lemma AwaitedAtOnce(before: seq<string>, line: string)
    requires ShapeOf(line).HeadingLine? && HasHeader(before, |before|)
    ensures Awaiting(before + [line])
  {
    hide *;
    LastHeadingOfOne(before, line, |before|);
    QuietOfOne(before, line, |before|);
    assert |before + [line]| == |before| + 1;
    IsAwaited(before + [line], |before|);
  }

  lemma AwaitedStill(before: seq<string>, line: string)
    requires Awaiting(before) && !IsControl(line)
    ensures Awaiting(before + [line])
  {
    hide ShapeOf, IsControl, LastHeading, Quiet;
    var h: nat :| LastHeading(before, h, |before|) && Quiet(before, h, |before|);
    AwaitedStillAt(before, line, h);
  }

  lemma AwaitedStillAt(before: seq<string>, line: string, h: nat)
    requires LastHeading(before, h, |before|) && Quiet(before, h, |before|) && !IsControl(line)
    ensures Awaiting(before + [line])
  {
    hide *;
    ControlByShape(line, 0);
    HeadingBefore(before, h, |before|);
    LastHeadingOfOne(before, line, h);
    QuietOfOne(before, line, h);
    assert |before + [line]| == |before| + 1;
    IsAwaited(before + [line], h);
  }

  lemma AwaitingStep(before: seq<string>, s: State, line: string)
    requires Sound(s) && Meant(before, s) && HeadingMeant(before, s)
    ensures Step(s, |before|, line).pending <==> Awaiting(before + [line])
  {
    HeadingByShape(s, |before|, line);
    HeaderInForce(before, s);
    AwaitingOfOne(before, line);
    ControlByShape(line, 0);
    if s.std.None? { NoHeadingYet(before, s); }
    hide ShapeOf, IsControl, Step, Strip, IsWrapped, Sound, Meant, LastHeading, HasHeader, Quiet, Under;
  }

  lemma HeadingStep(before: seq<string>, s: State, line: string)
    requires Sound(s) && Meant(before, s) && HeadingMeant(before, s)
    ensures HeadingMeant(before + [line], Step(s, |before|, line))
  {
    hide *;
    UnderStep(before, s, line);
    AwaitingStep(before, s, line);
    BothMeant(before + [line], Step(s, |before|, line));
  }

  lemma BothMeant(lines: seq<string>, s: State)
    requires Under(lines, |lines|, s.heading) && (s.pending <==> Awaiting(lines))
    ensures HeadingMeant(lines, s)
  {}

  lemma NoHeadingMeant()
    ensures HeadingMeant([], START)
  {}

  lemma {:induction false} HeadingIsMeant(lines: seq<string>)
    ensures HeadingMeant(lines, Scan(lines))
  {
    hide Step, Meant, HeadingMeant, Sound;
    if lines == [] {
      NoHeadingMeant();
    } else {
      var n := |lines| - 1;
      HeadingIsMeant(lines[..n]);
      ScanIsSound(lines[..n]);
      StateIsMeant(lines[..n]);
      HeadingStep(lines[..n], Scan(lines[..n]), lines[n]);
      assert lines == lines[..n] + [lines[n]];
    }
  }

  // ---------------------------------------------------------------- paragraphs

  ghost predicate StartsIn(lines: seq<string>, i: nat, key: Key) {
    i < |lines| && InForce(lines, key.std, i) && Starts(lines[i], key.chap)
  }

  /** The lines before `n` that continue the paragraph started at line `c`. */
  ghost function Continued(lines: seq<string>, c: nat, n: nat): seq<Piece>
    requires n <= |lines|
    decreases n
  {
    if n <= c + 1 then []
    else
      Continued(lines, c, n - 1) +
      (if Continues(lines[n - 1]) && OpenFrom(lines, c, n - 1) then [Piece(n - 1, Strip(lines[n - 1]))] else [])
  }

  /** The paragraph started at line `c`: its number and opening text from the line, its heading from the lines
      before, the rest of its text from the lines after. */
  ghost predicate ParagraphIs(lines: seq<string>, c: nat, p: Para) {
    && c < |lines| && ParagraphStart(lines[c]).Some?
    && p.prefix == ParagraphStart(lines[c]).value.prefix && p.item == ParagraphStart(lines[c]).value.item
    && Under(lines, c, p.heading)
    && p.pieces == [Piece(c, ParagraphStart(lines[c]).value.rest)] + Continued(lines, c, |lines|)
  }

  /** The paragraphs of a chapter start at the lines `at`, in order, and at no others. */
  ghost predicate ListedAt(lines: seq<string>, paras: seq<Para>, key: Key, at: seq<nat>) {
    && |at| == |paras| && (forall i, j | 0 <= i < j < |at| :: at[i] < at[j])
    && (forall c: nat :: c in at <==> StartsIn(lines, c, key))
    && forall k | 0 <= k < |at| :: ParagraphIs(lines, at[k], paras[k])
  }

  lemma StartsInOfOne(lines: seq<string>, s: State, line: string, key: Key, c: nat)
    requires Meant(lines, s)
    ensures StartsIn(lines + [line], c, key) <==>
            if c == |lines| then s.std == Some(key.std) && Starts(line, key.chap) else StartsIn(lines, c, key)
  {
    hide ShapeOf, OpensChapter, ChapterHeader, Starts, OpenIn;
    var all, n := lines + [line], |lines|;
    assert all[n] == line && forall j | 0 <= j < n :: all[j] == lines[j];
    if c <= n {
      forall h: nat ensures LastHeader(all, h, c) <==> LastHeader(lines, h, c) {}
      forall h: nat | LastHeader(lines, h, c) ensures ChapterHeader(lines[h]).Some? { OpensHasHeader(lines[h]); }
      assert InForce(all, key.std, c) <==> InForce(lines, key.std, c);
    }
  }

  lemma {:induction false} ContinuedPrefix(lines: seq<string>, more: seq<string>, c: nat, n: nat)
    requires n <= |lines|
    ensures Continued(lines + more, c, n) == Continued(lines, c, n)
    decreases n
  {
    hide ShapeOf, Strip;
    if n > c + 1 {
      ContinuedPrefix(lines, more, c, n - 1);
      assert forall j | 0 <= j < |lines| :: (lines + more)[j] == lines[j];
      assert OpenFrom(lines + more, c, n - 1) <==> OpenFrom(lines, c, n - 1);
    }
  }

  /** A paragraph after one more line: the same, or with that line appended. */
  lemma ParagraphOfOne(lines: seq<string>, line: string, c: nat, p: Para)
    requires ParagraphIs(lines, c, p)
    ensures ParagraphIs(lines + [line], c,
                        if Continues(line) && OpenFrom(lines, c, |lines|)
                        then p.(pieces := p.pieces + [Piece(|lines|, Strip(line))]) else p)
  {
    hide ShapeOf, Strip, ParagraphStart, Continues, Under;
    var all, n := lines + [line], |lines|;
    assert all[n] == line && forall j | 0 <= j < n :: all[j] == lines[j];
    UnderPrefix(lines, [line], c, p.heading);
    ContinuedPrefix(lines, [line], c, n);
    assert OpenFrom(all, c, n) <==> OpenFrom(lines, c, n);
    var more := if Continues(line) && OpenFrom(lines, c, n) then [Piece(n, Strip(line))] else [];
    assert Continued(all, c, n + 1) == Continued(lines, c, n) + more;
    assert p.pieces + more == [Piece(c, ParagraphStart(lines[c]).value.rest)] + (Continued(lines, c, n) + more);
    assert p.pieces + [] == p.pieces;
  }

  /** A paragraph that is open is the one the state holds open. */
  lemma OpenIsCurrent(lines: seq<string>, s: State, key: Key, c: nat)
    requires Sound(s) && Meant(lines, s) && StartsIn(lines, c, key) && OpenFrom(lines, c, |lines|)
    ensures s.std == Some(key.std) && s.para.Some? && s.para.value.key == key
  {
    hide ShapeOf, WellNumbered, InForce, Starts;
    ForceLasts(lines, key.std, c);
    assert InForce(lines, key.std, |lines|);
    assert OpenIn(lines, key.chap);
  }

  /** The standard in force where a paragraph starts stays in force while it is open. */
  lemma ForceLasts(lines: seq<string>, std: string, c: nat)
    requires OpenFrom(lines, c, |lines|)
    ensures InForce(lines, std, c) <==> InForce(lines, std, |lines|)
  {
    forall j | c <= j < |lines| ensures !OpensChapter(lines[j]) {
      OpensByShape(lines[j]);
    }
    hide ShapeOf, ChapterHeader;
    forall h: nat ensures LastHeader(lines, h, c) <==> LastHeader(lines, h, |lines|) {}
  }

  /** The paragraph the state holds open starts at the last of the chapter's lines. */
  lemma CurrentIsOpen(lines: seq<string>, s: State, key: Key, at: seq<nat>)
    requires Sound(s) && Meant(lines, s) && s.para.Some? && s.para.value.key == key
    requires forall i, j | 0 <= i < j < |at| :: at[i] < at[j]
    requires forall c: nat :: c in at <==> StartsIn(lines, c, key)
    ensures at != [] && OpenFrom(lines, at[|at| - 1], |lines|)
    ensures forall k | 0 <= k < |at| - 1 :: !OpenFrom(lines, at[k], |lines|)
  {
    hide WellNumbered, ShapeOf, InForce, Starts;
    assert OpenIn(lines, key.chap);
    var c: nat :| OpenFrom(lines, c, |lines|) && Starts(lines[c], key.chap);
    assert InForce(lines, key.std, |lines|);
    ForceLasts(lines, key.std, c);
    assert StartsIn(lines, c, key);
    OnlyLastIsOpen(lines, key, at, c);
  }

  lemma OnlyLastIsOpen(lines: seq<string>, key: Key, at: seq<nat>, c: nat)
    requires forall i, j | 0 <= i < j < |at| :: at[i] < at[j]
    requires forall c: nat :: c in at <==> StartsIn(lines, c, key)
    requires OpenFrom(lines, c, |lines|) && c in at
    ensures at[|at| - 1] == c && forall k | 0 <= k < |at| - 1 :: !OpenFrom(lines, at[k], |lines|)
  {
    hide ShapeOf;
    assert at[|at| - 1] in at;
    var k :| 0 <= k < |at| && at[k] == c;
    assert IsControl(lines[at[|at| - 1]]);
    assert k == |at| - 1;
  }

  // ---------------------------------------------------------------- the chapter's list

  /** The list after a line that starts a paragraph of the chapter. */
  lemma ListedStart(lines: seq<string>, s: State, line: string, key: Key, at: seq<nat>)
    requires Sound(s) && Meant(lines, s) && HeadingMeant(lines, s) && ListedAt(lines, Paras(s.chapters, key), key, at)
    requires s.std == Some(key.std) && Starts(line, key.chap) && ParagraphStart(line).Some? && !Continues(line)
    ensures var p := ParagraphStart(line).value;
            ListedAt(lines + [line], Paras(s.chapters, key) +
                     [Para(p.prefix, p.item, s.heading, [Piece(|lines|, p.rest)])],
                     key, at + [|lines|])
  {
    hide ShapeOf, Strip, ParagraphStart, Continues, Starts, Under, InForce, Sound, Meant, OpenFrom;
    var n, paras := |lines|, Paras(s.chapters, key);
    forall c: nat ensures StartsIn(lines + [line], c, key) <==> c == n || StartsIn(lines, c, key) {
      StartsInOfOne(lines, s, line, key, c);
    }
    forall k | 0 <= k < |at| ensures ParagraphIs(lines + [line], at[k], paras[k]) {
      ParagraphOfOne(lines, line, at[k], paras[k]);
    }
    NewParagraph(lines, s, line);
    forall k | 0 <= k < |at| ensures at[k] < n {
      assert at[k] in at;
    }
  }

  lemma NewParagraph(lines: seq<string>, s: State, line: string)
    requires HeadingMeant(lines, s) && ParagraphStart(line).Some?
    ensures var p := ParagraphStart(line).value;
            ParagraphIs(lines + [line], |lines|, Para(p.prefix, p.item, s.heading, [Piece(|lines|, p.rest)]))
  {
    hide ParagraphStart, Under;
    UnderPrefix(lines, [line], |lines|, s.heading);
    var p := ParagraphStart(line).value;
    assert (lines + [line])[|lines|] == line;
    assert Continued(lines + [line], |lines|, |lines| + 1) == [];
    assert [Piece(|lines|, p.rest)] + [] == [Piece(|lines|, p.rest)];
  }

  /** The list after any other line: the open paragraph, if it is the chapter's, may take the line. */
  lemma ListedOther(lines: seq<string>, s: State, line: string, key: Key, at: seq<nat>)
    requires Sound(s) && Meant(lines, s) && ListedAt(lines, Paras(s.chapters, key), key, at)
    requires !(s.std == Some(key.std) && Starts(line, key.chap))
    requires Continues(line) ==> !s.para.Some? || s.para.value.key != key
    ensures ListedAt(lines + [line], Paras(s.chapters, key), key, at)
  {
    hide ShapeOf, Strip, ParagraphStart, Continues, Starts, Under, InForce, Sound, Meant, OpenFrom;
    var n, paras := |lines|, Paras(s.chapters, key);
    forall c: nat ensures StartsIn(lines + [line], c, key) <==> StartsIn(lines, c, key) {
      StartsInOfOne(lines, s, line, key, c);
    }
    forall k | 0 <= k < |at| ensures ParagraphIs(lines + [line], at[k], paras[k]) {
      ParagraphOfOne(lines, line, at[k], paras[k]);
      assert at[k] in at;
      if Continues(line) && OpenFrom(lines, at[k], n) {
        OpenIsCurrent(lines, s, key, at[k]);
      }
    }
  }

  lemma ListedContinuation(lines: seq<string>, s: State, line: string, key: Key, at: seq<nat>)
    requires Sound(s) && Meant(lines, s) && ListedAt(lines, Paras(s.chapters, key), key, at)
    requires Continues(line) && !Starts(line, key.chap) && s.para.Some? && s.para.value.key == key
    ensures |Paras(s.chapters, key)| == s.para.value.index + 1
    ensures var paras, last := Paras(s.chapters, key), s.para.value.index;
            ListedAt(lines + [line],
                     paras[last := paras[last].(pieces := paras[last].pieces + [Piece(|lines|, Strip(line))])], key, at)
  {
    hide *;
    IsListed(lines, Paras(s.chapters, key), key, at);
    CurrentIsOpen(lines, s, key, at);
    CurrentIndex(s, key);
    SameStarts(lines, s, line, key);
    LastTakes(lines, line, Paras(s.chapters, key), key, at);
  }

  lemma IsListed(lines: seq<string>, paras: seq<Para>, key: Key, at: seq<nat>)
    requires ListedAt(lines, paras, key, at)
    ensures |at| == |paras| && (forall i, j | 0 <= i < j < |at| :: at[i] < at[j])
    ensures forall c: nat :: c in at <==> StartsIn(lines, c, key)
  {}

  lemma SameStarts(lines: seq<string>, s: State, line: string, key: Key)
    requires Meant(lines, s) && !Starts(line, key.chap)
    ensures forall c: nat :: StartsIn(lines + [line], c, key) <==> StartsIn(lines, c, key)
  {
    hide Meant, StartsIn;
    forall c: nat ensures StartsIn(lines + [line], c, key) <==> StartsIn(lines, c, key) {
      StartsInOfOne(lines, s, line, key, c);
      NotBeyond(lines, c, key);
    }
  }

  lemma LastTakes(lines: seq<string>, line: string, paras: seq<Para>, key: Key, at: seq<nat>)
    requires ListedAt(lines, paras, key, at) && at != [] && Continues(line)
    requires OpenFrom(lines, at[|at| - 1], |lines|)
    requires forall k | 0 <= k < |at| - 1 :: !OpenFrom(lines, at[k], |lines|)
    requires forall c: nat :: StartsIn(lines + [line], c, key) <==> StartsIn(lines, c, key)
    ensures var last := |paras| - 1;
            ListedAt(lines + [line],
                     paras[last := paras[last].(pieces := paras[last].pieces + [Piece(|lines|, Strip(line))])], key, at)
  {
    hide Strip, Continues, OpenFrom, ParagraphIs, StartsIn;
    forall k | 0 <= k < |at|
      ensures ParagraphIs(lines + [line], at[k],
                          if k == |at| - 1 then paras[k].(pieces := paras[k].pieces + [Piece(|lines|, Strip(line))])
                          else paras[k])
    {
      ParagraphOfOne(lines, line, at[k], paras[k]);
    }
  }

  lemma NotBeyond(lines: seq<string>, c: nat, key: Key)
    ensures StartsIn(lines, c, key) ==> c < |lines|
  {}

  lemma CurrentIndex(s: State, key: Key)
    requires Sound(s) && s.para.Some? && s.para.value.key == key
    ensures |Paras(s.chapters, key)| == s.para.value.index + 1
  {
    hide WellNumbered;
  }

  lemma StartOrContinues(line: string, chap: nat)
    ensures Starts(line, chap) ==> ParagraphStart(line).Some? && !Continues(line)
  {
    OpensByShape(line);
    hide ShapeOf, ParagraphStart, Strip;
  }

  lemma OpenedList(s: State, i: nat, line: string, key: Key)
    requires s.std.Some? && ParagraphStart(line).Some?
    ensures var p := ParagraphStart(line).value;
            Paras(OpenParagraph(s, i, p).chapters, key) ==
            Paras(s.chapters, key) +
            (if key == Key(s.std.value, PrefixNumber(p.prefix))
             then [Para(p.prefix, p.item, s.heading, [Piece(i, p.rest)])]
             else [])
  {
    StartHasText(line);
    hide PrefixNumber, ParagraphStart;
  }

  /** A line that continues the chapter's open paragraph is appended to it. */
  lemma ContinuedList(s: State, i: nat, line: string, key: Key)
    requires Sound(s) && Continues(line) && s.para.Some? && s.para.value.key == key
    ensures s.para.value.index < |Paras(s.chapters, key)|
    ensures var paras, last := Paras(s.chapters, key), s.para.value.index;
            Paras(Step(s, i, line).chapters, key) ==
            paras[last := paras[last].(pieces := paras[last].pieces + [Piece(i, Strip(line))])]
  {
    ChaptersByShape(s, i, line);
    hide Step, ShapeOf, Strip, OpenParagraph, ParagraphStart, WellNumbered;
  }

  /** Any other line leaves the chapter's list alone. */
  lemma OtherList(s: State, i: nat, line: string, key: Key)
    requires Sound(s)
    requires !(s.std == Some(key.std) && Starts(line, key.chap))
    requires !(Continues(line) && s.para.Some? && s.para.value.key == key)
    ensures Paras(Step(s, i, line).chapters, key) == Paras(s.chapters, key)
  {
    ChaptersByShape(s, i, line);
    OpensByShape(line);
    if ShapeOf(line).StartLine? && s.std.Some? {
      OpenedList(s, i, line, key);
    }
    hide Step, ShapeOf, Strip, OpenParagraph, ParagraphStart, PrefixNumber, WellNumbered;
  }

  lemma StartedList(s: State, i: nat, line: string, key: Key)
    requires Sound(s) && s.std == Some(key.std) && Starts(line, key.chap) && ParagraphStart(line).Some?
    ensures var p := ParagraphStart(line).value;
            Paras(Step(s, i, line).chapters, key) ==
            Paras(s.chapters, key) + [Para(p.prefix, p.item, s.heading, [Piece(i, p.rest)])]
  {
    ChaptersByShape(s, i, line);
    OpenedList(s, i, line, key);
    hide Step, ShapeOf, Strip, OpenParagraph, ParagraphStart, PrefixNumber, Paras, Sound;
  }

  lemma ListedStep(lines: seq<string>, s: State, line: string, key: Key, at: seq<nat>) returns (next: seq<nat>)
    requires Sound(s) && Meant(lines, s) && HeadingMeant(lines, s) && ListedAt(lines, Paras(s.chapters, key), key, at)
    ensures ListedAt(lines + [line], Paras(Step(s, |lines|, line).chapters, key), key, next)
  {
    StartOrContinues(line, key.chap);
    hide *;
    next := at;
    if s.std == Some(key.std) && Starts(line, key.chap) {
      StartedList(s, |lines|, line, key);
      ListedStart(lines, s, line, key, at);
      next := at + [|lines|];
    } else if Continues(line) && s.para.Some? && s.para.value.key == key {
      ContinuedList(s, |lines|, line, key);
      if Starts(line, key.chap) { StartOrContinues(line, key.chap); }
      ListedContinuation(lines, s, line, key, at);
    } else {
      OtherList(s, |lines|, line, key);
      ListedOther(lines, s, line, key, at);
    }
  }

  lemma NothingListed(key: Key)
    ensures ListedAt([], Paras(START.chapters, key), key, [])
  {
    assert forall c: nat :: !StartsIn([], c, key);
  }

  lemma {:induction false} ChapterListed(lines: seq<string>, key: Key) returns (at: seq<nat>)
    ensures ListedAt(lines, Paras(Scan(lines).chapters, key), key, at)
  {
    hide Step, Meant, HeadingMeant, Sound, ListedAt, Paras;
    if lines == [] {
      NothingListed(key);
      at := [];
    } else {
      var n := |lines| - 1;
      at := ChapterListed(lines[..n], key);
      ScanIsSound(lines[..n]);
      StateIsMeant(lines[..n]);
      HeadingIsMeant(lines[..n]);
      at := ListedStep(lines[..n], Scan(lines[..n]), lines[n], key, at);
      assert lines == lines[..n] + [lines[n]];
    }
  }

  // ---------------------------------------------------------------- in the document's own terms

  /** Line `c` starts a paragraph of the chapter: a header of the standard is the last before it, and it opens with
      the chapter's two digits, a full stop and the paragraph's number. */
  ghost predicate Opens(lines: seq<string>, c: nat, key: Key, prefix: string, item: string, rest: string) {
    && c < |lines| && ShapeOf(lines[c]).StartLine? && S.StartLine(lines[c], prefix, item, rest)
    && |prefix| == 2 && S.Reads(prefix[0], prefix[1], key.chap)
    && exists h: nat, chap: nat :: LastHeader(lines, h, c) && S.HeaderLine(lines[h], key.std, chap)
  }

  /** A paragraph of the output as the document gives it. */
  ghost predicate ReadOff(lines: seq<string>, c: nat, key: Key, p: Para) {
    exists rest ::
      && Opens(lines, c, key, p.prefix, p.item, rest) && Under(lines, c, p.heading)
      && p.pieces == [Piece(c, rest)] + Continued(lines, c, |lines|)
  }

  lemma OpensIsStart(lines: seq<string>, c: nat, key: Key)
    ensures (exists prefix, item, rest :: Opens(lines, c, key, prefix, item, rest)) ==> StartsIn(lines, c, key)
    ensures StartsIn(lines, c, key) ==>
              var p := ParagraphStart(lines[c]);
              p.Some? && Opens(lines, c, key, p.value.prefix, p.value.item, p.value.rest)
  {
    hide ShapeOf, S.HeaderLine, S.StartLine, S.Reads, ChapterHeader, ParagraphStart, Starts, InForce;
    ForceIs(lines, key.std, c);
    if prefix, item, rest :| Opens(lines, c, key, prefix, item, rest) {
      StartIsNumbered(lines[c], key.chap);
    }
    if StartsIn(lines, c, key) {
      StartsShape(lines[c], key.chap);
      StartIsNumbered(lines[c], key.chap);
    }
  }

  lemma StartsShape(line: string, chap: nat)
    requires Starts(line, chap)
    ensures ShapeOf(line).StartLine?
  {}

  lemma ForceIs(lines: seq<string>, std: string, c: nat)
    ensures InForce(lines, std, c) <==>
            exists h: nat, chap: nat :: LastHeader(lines, h, c) && S.HeaderLine(lines[h], std, chap)
  {
    hide ChapterHeader, S.HeaderLine;
    if h: nat :| LastHeader(lines, h, c) && ChapterHeader(lines[h]).value.std == std {
      var head := ChapterHeader(lines[h]).value;
      S.HeaderIs(lines[h], head.std, head.chap);
    }
    if h: nat, chap: nat :| LastHeader(lines, h, c) && S.HeaderLine(lines[h], std, chap) {
      S.HeaderIs(lines[h], std, chap);
    }
  }

  lemma StartIsNumbered(line: string, chap: nat)
    requires ShapeOf(line).StartLine?
    ensures ParagraphStart(line).Some?
    ensures forall prefix, item, rest ::
              S.StartLine(line, prefix, item, rest) <==> ParagraphStart(line) == Some(Start(prefix, item, rest))
    ensures var prefix := ParagraphStart(line).value.prefix;
            |prefix| == 2 && (S.Reads(prefix[0], prefix[1], chap) <==> Starts(line, chap))
  {
    OpensByShape(line);
    S.StartIs(line);
    PrefixIsDigits(line);
    var prefix := ParagraphStart(line).value.prefix;
    S.NumberReads(prefix[0], prefix[1]);
    hide ShapeOf, ParagraphStart, Number, S.StartLine;
  }

  lemma PrefixIsDigits(line: string)
    requires ParagraphStart(line).Some?
    ensures var prefix := ParagraphStart(line).value.prefix;
            |prefix| == 2 && IsDigit(prefix[0]) && IsDigit(prefix[1])
  {
    hide Strip, Digits, Blanks;
  }

  /** MAIN: each chapter of the output is the list of the paragraphs that start in it, in the order of the document,
      each with its own number, the heading it stands under and the lines that continue it. */
  lemma ChapterReads(lines: seq<string>, key: Key)
    ensures var paras := Paras(Scan(lines).chapters, key);
            exists at: seq<nat> ::
              && |at| == |paras| && (forall i, j | 0 <= i < j < |at| :: at[i] < at[j])
              && (forall c: nat :: c in at <==> exists prefix, item, rest :: Opens(lines, c, key, prefix, item, rest))
              && forall k | 0 <= k < |at| :: ReadOff(lines, at[k], key, paras[k])
  {
    hide Scan, Opens, Paras, ParagraphStart, Under, StartsIn;
    var paras := Paras(Scan(lines).chapters, key);
    var at := ChapterListed(lines, key);
    forall c: nat
      ensures c in at <==> exists prefix, item, rest :: Opens(lines, c, key, prefix, item, rest)
    {
      OpensIsStart(lines, c, key);
    }
    forall k | 0 <= k < |at| ensures ReadOff(lines, at[k], key, paras[k]) {
      assert at[k] in at;
      OpensIsStart(lines, at[k], key);
    }
  }
}
