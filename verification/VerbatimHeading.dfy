/**
 The heading expression, `^(#{1,6})\s+(.+?)\s*#*\s*$`, by the rules of a backtracking matcher: the
 hashes and the white space take as much as they can, the text as little.  `ParseHeading` finds exactly
 the match such a matcher prefers, without searching.
 */
module VerbatimHeading {
  import opened Wrappers
  import opened Text
  import Sequences
  import opened VerbatimBlocks
  import opened VerbatimConservation

  /** `\s*#*\s*` up to the end. */
  ghost predicate IsTail(s: string) {
    exists a, h, b :: s == a + h + b && Blank(a) && OnlyHashes(h) && Blank(b)
  }

  /** The text the lazy group matches: a tail follows it, and none follows a shorter one. */
  ghost predicate IsShortest(rest: string, text: string) {
    && text != "" && text <= rest && IsTail(rest[|text|..])
    && forall k | 1 <= k < |text| :: !IsTail(rest[k..])
  }

  lemma TailIs(s: string, a: string, h: string, b: string)
    requires s == a + h + b && Blank(a) && OnlyHashes(h) && Blank(b)
    ensures IsTail(s)
  {}

  /** What stands where in a tail. */
  lemma TailAt(a: string, h: string, b: string, m: nat)
    requires m < |a + h + b| && Blank(a) && OnlyHashes(h) && Blank(b)
    ensures m < |a| || m >= |a| + |h| ==> IsSpace((a + h + b)[m])
    ensures |a| <= m < |a| + |h| ==> (a + h + b)[m] == '#'
  {
    var s := a + h + b;
    hide IsSpace;
    if m < |a| {
      assert s[m] == a[m];
    } else if m < |a| + |h| {
      assert s[m] == h[m - |a|];
    } else {
      assert s[m] == b[m - |a| - |h|];
    }
  }

  /** A tail in which a non-blank stands at `m`: it is a hash, and after a blank only blanks follow. */
  lemma TailFrom(s: string, m: nat)
    requires IsTail(s) && m < |s| && !IsSpace(s[m])
    ensures s[m] == '#'
    ensures m + 1 < |s| && IsSpace(s[m + 1]) ==> forall i | m < i < |s| :: IsSpace(s[i])
  {
    var a, h, b :| s == a + h + b && Blank(a) && OnlyHashes(h) && Blank(b);
    assert !IsSpace('#');
    hide Blank, IsSpace, OnlyHashes;
    TailAt(a, h, b, m);
    if m + 1 < |s| && IsSpace(s[m + 1]) {
      TailAt(a, h, b, m + 1);
      forall i | m < i < |s| ensures IsSpace(s[i]) {
        TailAt(a, h, b, i);
      }
    }
  }

  /** The four parts of what follows the opening hashes and white space. */
  lemma Dissect(rest: string) returns (bare: string, gap: string, close: string, trail: string)
    ensures bare == TrimEnd(DropTrailingHashes(TrimEnd(rest)))
    ensures rest == bare + (gap + close + trail)
    ensures Blank(gap) && OnlyHashes(close) && Blank(trail)
    ensures bare != "" ==> !IsSpace(bare[|bare| - 1])
    ensures bare != "" && gap == "" ==> bare[|bare| - 1] != '#'
    ensures gap != "" ==> close != ""
  {
    trail := TrimEndParts(rest);
    var hashed := TrimEnd(rest);
    close := HashesAround(hashed);
    var inner := DropTrailingHashes(hashed);
    gap := TrimEndParts(inner);
    bare := TrimEnd(inner);
    hide TrimEnd, DropTrailingHashes, IsSpace, Blank, OnlyHashes;
    Together(bare, gap, close, trail);
    if gap == "" {
      Sequences.Unit(bare);
    } else if close == "" {
      Sequences.Unit(inner);
      LastOfGap(bare, gap);
    }
  }

  lemma Together(bare: string, gap: string, close: string, trail: string)
    ensures bare + gap + close + trail == bare + (gap + close + trail)
  {}

  lemma LastOfGap(bare: string, gap: string)
    requires gap != "" && Blank(gap)
    ensures IsSpace((bare + gap)[|bare + gap| - 1])
  {
    assert (bare + gap)[|bare + gap| - 1] == gap[|gap| - 1];
  }

  /** The content of a heading is what the lazy group matches. */
  lemma ContentIsShortest(rest: string)
    requires rest != "" && !IsSpace(rest[0])
    ensures IsShortest(rest, HeadingContent(rest))
  {
    hide TrimEnd, DropTrailingHashes, IsSpace, Blank, OnlyHashes;
    var bare, gap, close, trail := Dissect(rest);
    if bare == "" {
      NothingElse(rest, gap, close, trail);
    } else {
      assert rest[|bare|..] == gap + close + trail;
      TailIs(rest[|bare|..], gap, close, trail);
      forall k | 1 <= k < |bare| ensures !IsTail(rest[k..]) {
        NotShorter(rest, bare, gap, close, trail, k);
      }
    }
  }

  lemma NothingElse(rest: string, gap: string, close: string, trail: string)
    requires rest != "" && !IsSpace(rest[0]) && rest == "" + (gap + close + trail)
    requires Blank(gap) && OnlyHashes(close) && Blank(trail)
    ensures IsShortest(rest, "#")
  {
    hide IsSpace;
    assert rest == gap + close + trail;
    TailAt(gap, close, trail, 0);
    assert |gap| == 0 && |close| > 0 && rest[0] == '#';
    assert rest[1..] == "" + close[1..] + trail;
    TailIs(rest[1..], "", close[1..], trail);
  }

  lemma NotShorter(rest: string, bare: string, gap: string, close: string, trail: string, k: nat)
    requires rest == bare + (gap + close + trail) && 1 <= k < |bare|
    requires !IsSpace(bare[|bare| - 1])
    requires Blank(gap) && OnlyHashes(close)
    requires gap == "" ==> bare[|bare| - 1] != '#'
    requires gap != "" ==> close != ""
    ensures !IsTail(rest[k..])
  {
    var s, m := rest[k..], |bare| - 1 - k;
    assert s[m] == bare[|bare| - 1];
    assert !IsSpace('#');
    if gap != "" {
      assert s[m + 1] == gap[0] && IsSpace(gap[0]);
      assert s[m + 1 + |gap|] == close[0] == '#';
    }
    hide IsSpace, Blank, OnlyHashes;
    if IsTail(s) {
      TailFrom(s, m);
    }
  }

  lemma ShortestParts(rest: string)
    requires rest != "" && !IsSpace(rest[0])
    ensures var content := HeadingContent(rest);
            content != "" && content <= rest && IsTail(rest[|content|..])
    ensures forall k | 1 <= k < |HeadingContent(rest)| :: !IsTail(rest[k..])
  {
    ContentIsShortest(rest);
    hide HeadingContent, IsTail, IsSpace;
  }

  // ---- The preferred match ----

  /** A match of the expression: what its hashes, white space, text and tail take. */
  datatype Match = Match(hashes: string, space: string, text: string, tail: string)

  ghost predicate IsMatch(line: string, m: Match) {
    && line == m.hashes + (m.space + (m.text + m.tail))
    && 1 <= |m.hashes| <= 6 && OnlyHashes(m.hashes)
    && m.space != "" && Blank(m.space)
    && m.text != "" && OneLine(m.text)
    && IsTail(m.tail)
  }

  /** Longer hashes before shorter, then longer white space, then shorter text. */
  predicate NoWorse(m: Match, other: Match) {
    || |other.hashes| < |m.hashes|
    || (|other.hashes| == |m.hashes| &&
        (|other.space| < |m.space| || (|other.space| == |m.space| && |m.text| <= |other.text|)))
  }

  /** The match a backtracking matcher finds first. */
  ghost predicate IsPreferred(line: string, m: Match) {
    IsMatch(line, m) && forall other | IsMatch(line, other) :: NoWorse(m, other)
  }

  lemma Cancel(a: string, b: string, c: string, d: string)
    requires a + b == c + d && |a| == |c|
    ensures a == c && b == d
  {
    assert a == (a + b)[..|a|] && b == (a + b)[|a|..];
    assert c == (c + d)[..|c|] && d == (c + d)[|c|..];
  }

  lemma {:induction false} LeadingExactly(hashes: string, more: string)
    requires OnlyHashes(hashes) && more != "" && more[0] != '#'
    ensures LeadingHashes(hashes + more) == |hashes|
  {
    if hashes == "" {
      assert hashes + more == more;
    } else {
      assert (hashes + more)[1..] == hashes[1..] + more;
      LeadingExactly(hashes[1..], more);
    }
  }

  /** A match takes the line's leading hashes. */
  lemma MatchHashes(line: string, m: Match)
    requires IsMatch(line, m)
    ensures LeadingHashes(line) == |m.hashes| < |line| && IsSpace(line[|m.hashes|])
    ensures line[|m.hashes|..] == m.space + (m.text + m.tail)
  {
    var more := m.space + (m.text + m.tail);
    assert more[0] == m.space[0] && !IsSpace('#');
    hide IsSpace, OneLine, IsTail;
    LeadingExactly(m.hashes, more);
    Dropped(m.hashes, more);
  }

  lemma Dropped(a: string, b: string)
    ensures (a + b)[|a|..] == b && (b != "" ==> (a + b)[|a|] == b[0])
  {}

  /** White space that begins a string reaches no further than the string's own leading white space. */
  lemma SpaceReach(space: string, more: string, lead: string, rest: string)
    requires space + more == lead + rest && Blank(space) && rest != "" && !IsSpace(rest[0])
    ensures |space| <= |lead|
  {
    hide IsSpace;
    var s := space + more;
    assert forall i | 0 <= i < |space| :: s[i] == space[i];
    assert s[|lead|] == rest[0];
  }

  /** A text that is not blank reaches into the rest. */
  lemma TextReach(space: string, text: string, tail: string, lead: string, rest: string)
    requires space + (text + tail) == lead + rest && Blank(lead) && |space| <= |lead| && !Blank(text)
    ensures |lead| < |space| + |text|
    ensures |lead| + |rest| == |space| + |text| + |tail|
  {
    hide IsSpace;
    var s := space + (text + tail);
    var k :| 0 <= k < |text| && !IsSpace(text[k]);
    assert s[|space| + k] == text[k];
    assert forall i | 0 <= i < |lead| :: s[i] == lead[i];
    assert |s| == |lead| + |rest|;
  }

  /** What such a text covers of the rest, and what it leaves to the tail. */
  lemma TextSplits(space: string, text: string, tail: string, lead: string, rest: string, k: nat)
    requires space + (text + tail) == lead + rest && k == |space| + |text| - |lead| <= |rest|
    requires |space| <= |lead|
    ensures tail == rest[k..]
    ensures forall i | 0 <= i < k :: 0 <= |lead| + i - |space| < |text| && rest[i] == text[|lead| + i - |space|]
  {
    var s := space + (text + tail);
    assert tail == s[|space| + |text|..] && rest[k..] == s[|lead| + k..];
    assert forall i | 0 <= i < k :: rest[i] == s[|lead| + i] == text[|lead| + i - |space|];
  }

  /** A match whose text is not blank takes the whole content of the heading with it. */
  lemma MatchCovers(m: Match, lead: string, rest: string)
    requires m.space + (m.text + m.tail) == lead + rest && Blank(lead) && Blank(m.space)
    requires rest != "" && !IsSpace(rest[0])
    requires !Blank(m.text) && OneLine(m.text) && IsTail(m.tail)
    ensures OneLine(HeadingContent(rest))
  {
    SpaceReach(m.space, m.text + m.tail, lead, rest);
    TextReach(m.space, m.text, m.tail, lead, rest);
    var k := |m.space| + |m.text| - |lead|;
    TextSplits(m.space, m.text, m.tail, lead, rest, k);
    ShortestParts(rest);
    hide IsSpace, HeadingContent, IsTail, IsLineTerminator, Blank;
    var content := HeadingContent(rest);
    assert |content| <= k;
    forall i | 0 <= i < |content| ensures !IsLineTerminator(content[i]) {
      assert content[i] == rest[i];
    }
  }

  /** The parts of a heading line. */
  function HeadingMatch(line: string, lead: string, rest: string): Match
    requires |HeadingContent(rest)| <= |rest|
  {
    var content := HeadingContent(rest);
    Match(line[..LeadingHashes(line)], lead, content, rest[|content|..])
  }

  ghost predicate HasParts(line: string, lead: string, rest: string) {
    var n := LeadingHashes(line);
    && 1 <= n <= 6 && n < |line| && IsSpace(line[n]) && line[n..] == lead + rest && Blank(lead)
    && rest != "" && !IsSpace(rest[0]) && OneLine(HeadingContent(rest))
    && HeadingContent(rest) != "" && HeadingContent(rest) <= rest
  }

  lemma SomeWhiteSpace(line: string, n: nat, lead: string, rest: string)
    requires n < |line| && line[n..] == lead + rest && IsSpace(line[n])
    requires rest != "" && !IsSpace(rest[0])
    ensures lead != ""
  {
    hide IsSpace;
    assert line[n] == (lead + rest)[0];
  }

  lemma WithParts(line: string, lead: string, rest: string)
    requires HasParts(line, lead, rest)
    ensures IsMatch(line, HeadingMatch(line, lead, rest))
  {
    var n, content := LeadingHashes(line), HeadingContent(rest);
    ShortestParts(rest);
    SomeWhiteSpace(line, n, lead, rest);
    Sequences.Split(line, n);
    Sequences.Split(rest, |content|);
    assert rest[..|content|] == content;
    hide IsSpace, HeadingContent, IsTail, LeadingHashes, OneLine, Blank;
  }

  /** No match is preferred to a heading's own parts. */
  lemma PartsArePreferred(line: string, lead: string, rest: string)
    requires HasParts(line, lead, rest)
    ensures IsPreferred(line, HeadingMatch(line, lead, rest))
  {
    WithParts(line, lead, rest);
    ShortestParts(rest);
    var m := HeadingMatch(line, lead, rest);
    forall other | IsMatch(line, other) ensures NoWorse(m, other) {
      MatchHashes(line, other);
      hide *;
      NothingBetter(m, other, lead, rest);
    }
  }

  lemma NothingBetter(m: Match, other: Match, lead: string, rest: string)
    requires |m.hashes| == |other.hashes| && m.space == lead && 1 <= |m.text| <= |rest|
    requires other.space + (other.text + other.tail) == lead + rest && Blank(other.space) && other.text != ""
    requires rest != "" && !IsSpace(rest[0]) && IsTail(other.tail)
    requires forall k | 1 <= k < |m.text| :: !IsTail(rest[k..])
    ensures NoWorse(m, other)
  {
    SpaceReach(other.space, other.text + other.tail, lead, rest);
    hide Blank, IsSpace, IsTail;
    if |other.space| == |lead| {
      Cancel(other.space, other.text + other.tail, lead, rest);
      Dropped(other.text, other.tail);
      assert other.tail == rest[|other.text|..];
    }
  }

  lemma ContentIsTrimmed(rest: string)
    requires rest != "" && !IsSpace(rest[0])
    ensures Trimmed(HeadingContent(rest)) && HeadingContent(rest) != ""
  {
    assert !IsSpace('#');
    hide TrimEnd, DropTrailingHashes, IsSpace;
    var bare, gap, close, trail := Dissect(rest);
    if bare != "" {
      assert rest[0] == bare[0];
    }
  }

  /** What the route does with the expression: the trimmed text of the preferred match, unless that is
      nothing. */
  ghost predicate Recognises(line: string, h: HeadingLine, m: Match) {
    IsPreferred(line, m) && Trim(m.text) != "" && h == HeadingLine(|m.hashes|, Trim(m.text))
  }

  lemma HeadingParts(line: string) returns (lead: string, rest: string)
    requires ParseHeading(line).Some?
    ensures HasParts(line, lead, rest)
    ensures rest == TrimStart(line[LeadingHashes(line)..])
    ensures ParseHeading(line).value == HeadingLine(LeadingHashes(line), HeadingContent(rest))
  {
    lead := TrimStartParts(line[LeadingHashes(line)..]);
    rest := TrimStart(line[LeadingHashes(line)..]);
    ShortestParts(rest);
    hide HeadingContent, IsTail, IsSpace, LeadingHashes;
  }

  lemma HeadingIsRecognised(line: string) returns (m: Match)
    requires ParseHeading(line).Some?
    ensures Recognises(line, ParseHeading(line).value, m)
  {
    var lead, rest := HeadingParts(line);
    m := HeadingMatch(line, lead, rest);
    PartsArePreferred(line, lead, rest);
    ContentIsTrimmed(rest);
    TrimOfTrimmed(HeadingContent(rest));
    hide IsPreferred, Trim, HeadingContent, ParseHeading, LeadingHashes;
  }

  lemma HeadingWithParts(line: string, n: nat, rest: string)
    requires n == LeadingHashes(line) && 1 <= n <= 6 && n < |line| && IsSpace(line[n])
    requires rest == TrimStart(line[n..]) && rest != "" && OneLine(HeadingContent(rest))
    ensures ParseHeading(line).Some?
  {}

  lemma BlankPart(space: string, text: string, tail: string)
    requires Blank(space + (text + tail))
    ensures Blank(text)
  {
    assert forall i | 0 <= i < |text| :: text[i] == (space + (text + tail))[|space| + i];
  }

  lemma MatchIsHeading(line: string, m: Match)
    requires IsMatch(line, m) && Trim(m.text) != ""
    ensures ParseHeading(line).Some?
  {
    MatchHashes(line, m);
    var n := |m.hashes|;
    var lead := TrimStartParts(line[n..]);
    var rest := TrimStart(line[n..]);
    TrimToNothing(m.text);
    hide TrimStart, Trim, IsSpace, IsTail, HeadingContent, OneLine, ParseHeading, LeadingHashes, Blank;
    if rest == "" {
      Sequences.Unit(lead);
      BlankPart(m.space, m.text, m.tail);
    }
    MatchCovers(m, lead, rest);
    HeadingWithParts(line, n, rest);
  }

  /** A line is a heading exactly when the expression has a match whose text is not blank, and the heading is
      then the preferred match: its number of hashes and its text, trimmed. */
  lemma HeadingIsPreferredMatch(line: string, h: HeadingLine)
    ensures ParseHeading(line).Some? <==> exists m :: IsMatch(line, m) && Trim(m.text) != ""
    ensures ParseHeading(line) == Some(h) <==> exists m :: Recognises(line, h, m)
  {
    hide ParseHeading, Trim, LeadingHashes, IsMatch;
    forall m | IsMatch(line, m) && Trim(m.text) != "" ensures ParseHeading(line).Some? {
      MatchIsHeading(line, m);
    }
    if ParseHeading(line).Some? {
      var own := HeadingIsRecognised(line);
      assert Recognises(line, ParseHeading(line).value, own);
      forall m | Recognises(line, h, m) ensures ParseHeading(line) == Some(h) {
        assert NoWorse(own, m) && NoWorse(m, own);
        SamePreference(line, own, m);
      }
    }
  }

  lemma SamePreference(line: string, m: Match, other: Match)
    requires IsMatch(line, m) && IsMatch(line, other) && NoWorse(m, other) && NoWorse(other, m)
    ensures m == other
  {
    hide IsTail, Blank, OneLine, OnlyHashes;
    Cancel(m.hashes, m.space + (m.text + m.tail), other.hashes, other.space + (other.text + other.tail));
    Cancel(m.space, m.text + m.tail, other.space, other.text + other.tail);
    Cancel(m.text, m.tail, other.text, other.tail);
  }
}
