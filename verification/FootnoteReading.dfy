/**
 What the footnote parser makes of a text, by the pieces the text consists of: where it is divided, which parts are
 an apparatus, where each note begins, and what is left of the body.
 */
module FootnoteReading {
  import opened Wrappers
  import opened Text
  import opened Footnotes
  import S = VerbatimShapes
  import Spacing

  // ---------------------------------------------------------------- white space and digits

  predicate AllDigits(s: string) {
    forall i | 0 <= i < |s| :: '0' <= s[i] <= '9'
  }

  lemma {:induction false} RunOfSpaces(a: string, b: string)
    requires S.AllSpace(a) && (b == "" || !S.Space(b[0]))
    ensures Spaces(a + b) == |a|
  {
    if a == "" {
      assert a + b == b;
    } else {
      assert (a + b)[1..] == a[1..] + b;
      RunOfSpaces(a[1..], b);
    }
  }

  lemma {:induction false} RunOfDigits(a: string, b: string)
    requires AllDigits(a) && (b == "" || !('0' <= b[0] <= '9'))
    ensures Digits(a + b) == |a|
  {
    if a == "" {
      assert a + b == b;
    } else {
      assert (a + b)[1..] == a[1..] + b;
      RunOfDigits(a[1..], b);
    }
  }

  lemma SpaceRun(s: string)
    ensures S.AllSpace(s[..Spaces(s)]) && (Spaces(s) < |s| ==> !S.Space(s[Spaces(s)]))
  {}

  lemma DigitRun(s: string)
    ensures AllDigits(s[..Digits(s)])
  {}

  lemma NotDigit(s: string)
    requires s != "" && S.AllSpace(s)
    ensures !('0' <= s[0] <= '9')
  {}

  // ---------------------------------------------------------------- where the text is divided

  predicate SeparatorParts(t: string, lead: string, gap: string, more: string) {
    && t == lead + "Footnotes" + gap + more && S.AllSpace(lead) && gap != "" && S.AllSpace(gap)
    && (more == "" || !S.Space(more[0]))
  }

  /** White space or none, the word, and white space. */
  ghost predicate BeginsSeparator(t: string) {
    exists lead, gap, more :: SeparatorParts(t, lead, gap, more)
  }

  lemma SeparatorGrouped(lead: string, gap: string, more: string)
    ensures var t := lead + "Footnotes" + gap + more;
            && t == lead + ("Footnotes" + (gap + more))
            && t[|lead|..] == "Footnotes" + (gap + more) && t[|lead| + 9..] == gap + more
            && t[|lead| + 9 + |gap|..] == more
  {
    assert lead + "Footnotes" + gap + more == lead + ("Footnotes" + (gap + more));
  }

  lemma SeparatorFrom(t: string, lead: string, gap: string, more: string)
    requires SeparatorParts(t, lead, gap, more)
    ensures SeparatorLength(t) == |lead| + 9 + |gap| && t[SeparatorLength(t)..] == more
  {
    hide S.Space;
    SeparatorGrouped(lead, gap, more);
    var word := "Footnotes" + (gap + more);
    assert word[0] == 'F' && !S.Space('F') by { NoSpaceF(); }
    RunOfSpaces(lead, word);
    assert WORD <= word;
    RunOfSpaces(gap, more);
  }

  lemma NoSpaceF()
    ensures !S.Space('F')
  {}

  lemma SeparatorCut(t: string, k: nat, m: nat)
    requires k + 9 + m <= |t| && "Footnotes" <= t[k..]
    ensures t == t[..k] + "Footnotes" + t[k + 9..][..m] + t[k + 9 + m..]
  {
    assert t[k..k + 9] == "Footnotes" && t[..k + 9] == t[..k] + t[k..k + 9];
    Thirds(t, k + 9, m);
  }

  lemma SeparatorIs(t: string)
    ensures SeparatorLength(t) > 0 <==> BeginsSeparator(t)
    ensures SeparatorLength(t) > 0 ==> exists lead, gap :: SeparatorParts(t, lead, gap, t[SeparatorLength(t)..])
  {
    hide S.Space;
    if SeparatorLength(t) > 0 {
      var k := Spaces(t);
      var m := Spaces(t[k + 9..]);
      SeparatorCut(t, k, m);
      SpaceRun(t);
      SpaceRun(t[k + 9..]);
      assert t[k + 9..][m..] == t[k + 9 + m..];
      assert SeparatorParts(t, t[..k], t[k + 9..][..m], t[k + 9 + m..]);
    }
    if lead, gap, more :| SeparatorParts(t, lead, gap, more) {
      SeparatorFrom(t, lead, gap, more);
    }
  }

  /** The text up to the first separator, and what comes after it. */
  ghost predicate FirstCut(s: string, before: string, after: string) {
    && before <= s && (exists lead, gap :: SeparatorParts(s[|before|..], lead, gap, after))
    && forall k | 0 <= k < |before| :: !BeginsSeparator(s[k..])
  }

  /** The parts between the separators. */
  ghost predicate Divided(s: string, parts: seq<string>)
    decreases |parts|
  {
    && parts != []
    && if |parts| == 1 then parts[0] == s && forall k | 0 <= k <= |s| :: !BeginsSeparator(s[k..])
       else exists after :: FirstCut(s, parts[0], after) && Divided(after, parts[1..])
  }

  lemma {:induction false} FirstSeparatorIs(s: string)
    ensures var q := FirstSeparator(s);
            && (forall k | 0 <= k < q :: SeparatorLength(s[k..]) == 0)
            && (q == |s| ==> SeparatorLength(s[q..]) == 0)
  {
    hide SeparatorLength;
    if s == "" {
      assert s[0..] == "";
      EmptyIsNoSeparator();
    } else if SeparatorLength(s) > 0 {
      assert s[0..] == s;
    } else {
      FirstSeparatorIs(s[1..]);
      assert s[0..] == s;
      assert forall k | 0 < k <= |s| :: s[1..][k - 1..] == s[k..];
    }
  }

  lemma EmptyIsNoSeparator()
    ensures SeparatorLength("") == 0
  {}

  lemma {:induction false} PartsAre(s: string)
    ensures Divided(s, Parts(s))
    decreases |s|
  {
    hide SeparatorLength, BeginsSeparator, SeparatorParts, FirstSeparator;
    var q := FirstSeparator(s);
    FirstSeparatorIs(s);
    forall k | 0 <= k <= |s| ensures SeparatorLength(s[k..]) > 0 <==> BeginsSeparator(s[k..]) {
      SeparatorIs(s[k..]);
    }
    if q == |s| {
      PartsOfWhole(s);
    } else {
      PartsUnfold(s);
      RestFollows(s);
      PartsAre(Rest(s));
      SeparatorIs(s[q..]);
      assert s[q..][SeparatorLength(s[q..])..] == Rest(s);
      assert FirstCut(s, s[..q], Rest(s));
      assert ([s[..q]] + Parts(Rest(s)))[1..] == Parts(Rest(s));
    }
  }

  // ---------------------------------------------------------------- numbers

  /** The digits of a number, most significant first. */
  predicate Reads(s: string, n: nat) {
    && s != "" && s[|s| - 1] == "0123456789"[n % 10]
    && if |s| == 1 then n < 10 else Reads(s[..|s| - 1], n / 10)
  }

  /** Without a zero in front. */
  predicate Numeral(s: string, n: nat) {
    Reads(s, n) && (|s| > 1 ==> s[0] != '0')
  }

  lemma DigitIs(d: nat)
    requires d < 10
    ensures "0123456789"[d] as int == 48 + d
  {}

  lemma {:induction false} DecimalIs(n: nat)
    ensures Numeral(Decimal(n), n) && (n > 0 ==> Decimal(n)[0] != '0')
  {
    DigitIs(n % 10);
    if n >= 10 {
      DecimalIs(n / 10);
      var front, last := Decimal(n / 10), [('0' as int + n % 10) as char];
      assert Decimal(n) == front + last;
      assert (front + last)[..|front|] == front && (front + last)[0] == front[0];
    }
  }

  lemma {:induction false} NumeralOnce(s: string, n: nat)
    requires Numeral(s, n)
    ensures s == Decimal(n)
  {
    DigitIs(n % 10);
    var last := |s| - 1;
    assert s == s[..last] + [s[last]];
    if |s| > 1 {
      ReadsAtLeast(s[..last], n / 10);
      NumeralOnce(s[..last], n / 10);
    }
  }

  /** A numeral that does not begin with zero is not the number zero. */
  lemma {:induction false} ReadsAtLeast(s: string, n: nat)
    requires Reads(s, n) && s[0] != '0'
    ensures n > 0
  {
    DigitIs(n % 10);
    if |s| > 1 {
      ReadsAtLeast(s[..|s| - 1], n / 10);
    }
  }

  lemma {:induction false} ValueIs(s: string)
    requires s != "" && forall c <- s :: IsDigit(c)
    ensures Reads(s, Value(s))
  {
    var n := |s| - 1;
    assert s[n] in s;
    assert forall c <- s[..n] :: c in s;
    var d: nat := s[n] as int - 48;
    DigitIs(d);
    LastDigit(if n == 0 then 0 else Value(s[..n]), d);
    if n > 0 {
      ValueIs(s[..n]);
    } else {
      assert s[..0] == "";
    }
  }

  lemma LastDigit(m: nat, d: nat)
    requires d < 10
    ensures (m * 10 + d) % 10 == d && (m * 10 + d) / 10 == m
  {}

  // ---------------------------------------------------------------- where a note begins

  predicate OpeningParts(s: string, i: nat, word: string, gap: string, more: string) {
    && 2 <= i <= |s| && s[i - 2] in ".;" && S.Space(s[i - 1])
    && s[i..] == word + gap + more && gap != "" && S.AllSpace(gap)
    && more != "" && ('A' <= more[0] <= 'Z' || more[0] == '(')
  }

  /** The number `n` begins a note at `i`: after a full stop or semicolon and white space, and before white space and
      a capital or bracket; its text begins at `past`. */
  ghost predicate Opening(s: string, n: nat, i: nat, past: nat) {
    exists word, gap, more ::
      Numeral(word, n) && OpeningParts(s, i, word, gap, more) && past == i + |word| + |gap|
  }

  lemma OpeningFrom(s: string, n: nat, i: nat, gap: string, more: string)
    requires OpeningParts(s, i, Decimal(n), gap, more)
    ensures Opens(s, Decimal(n), i) && PastNumber(s, Decimal(n), i) == i + |Decimal(n)| + |gap|
  {
    hide Decimal, S.Space;
    var word := Decimal(n);
    assert word + gap + more == word + (gap + more) && s[i..][..|word|] == word;
    assert s[i + |word|..] == s[i..][|word|..] == gap + more;
    assert !S.Space(more[0]) by { CapitalIsNoSpace(more[0]); }
    RunOfSpaces(gap, more);
    assert IsSpace(s[i - 1]) by { S.CharacterClasses(s[i - 1]); }
    assert (gap + more)[|gap|] == more[0];
  }

  lemma CapitalIsNoSpace(c: char)
    requires 'A' <= c <= 'Z' || c == '('
    ensures !S.Space(c)
  {}

  lemma OpeningCut(s: string, i: nat, n: nat, w: nat)
    requires i + n + w <= |s|
    ensures s[i..] == s[i..i + n] + s[i + n..][..w] + s[i + n + w..]
    ensures s[i + n..][w..] == s[i + n + w..]
  {
    assert s[i..] == s[i..i + n] + s[i + n..];
  }

  lemma PartsOfOpening(s: string, n: nat, i: nat)
    requires Opens(s, Decimal(n), i)
    ensures Opening(s, n, i, PastNumber(s, Decimal(n), i))
  {
    hide Decimal, S.Space, Spaces, Numeral, IsSpace;
    var word := Decimal(n);
    var after := s[i + |word|..];
    var w := Spaces(after);
    SpaceRun(after);
    S.CharacterClasses(s[i - 1]);
    DecimalIs(n);
    assert s[i..][..|word|] == s[i..i + |word|] == word;
    OpeningCut(s, i, |word|, w);
    assert OpeningParts(s, i, word, after[..w], s[i + |word| + w..]);
  }

  lemma OpeningIs(s: string, n: nat, i: nat)
    ensures Opens(s, Decimal(n), i) ==> Opening(s, n, i, PastNumber(s, Decimal(n), i))
    ensures forall past | Opening(s, n, i, past) :: Opens(s, Decimal(n), i) && past == PastNumber(s, Decimal(n), i)
  {
    hide Decimal, Opens, OpeningParts, PastNumber, Numeral;
    if Opens(s, Decimal(n), i) {
      PartsOfOpening(s, n, i);
    }
    forall past | Opening(s, n, i, past)
      ensures Opens(s, Decimal(n), i) && past == PastNumber(s, Decimal(n), i)
    {
      var word, gap, more :| Numeral(word, n) && OpeningParts(s, i, word, gap, more) && past == i + |word| + |gap|;
      NumeralOnce(word, n);
      OpeningFrom(s, n, i, gap, more);
    }
  }

  /** The earliest beginning of note `n`. */
  ghost predicate FirstNote(s: string, n: nat, i: nat, past: nat) {
    && i <= past <= |s| && Opening(s, n, i, past) && forall j: nat, p: nat | Opening(s, n, j, p) :: i <= j
  }

  ghost predicate NoNoteBegins(s: string, n: nat) {
    forall i: nat, p: nat :: !Opening(s, n, i, p)
  }

  /** The notes of an apparatus: each ends where the next number begins one. */
  ghost predicate NotesRead(marker: nat, text: string, notes: seq<Note>)
    decreases |notes|
  {
    && notes != []
    && if |notes| == 1 then
         notes[0] == Note(marker, text) && NoNoteBegins(text, marker + 1)
       else exists i: nat, past: nat ::
         && FirstNote(text, marker + 1, i, past) && notes[0] == Note(marker, text[..i])
         && NotesRead(marker + 1, text[past..], notes[1..])
  }

  lemma {:induction false} NotesAre(marker: nat, text: string)
    ensures NotesRead(marker, text, NotesOf(marker, text))
    decreases |text|
  {
    hide Decimal, Opens, PastNumber, FirstOpening, FirstNote, NoNoteBegins;
    var word, n := Decimal(marker + 1), marker + 1;
    var i := FirstOpening(text, word, 0);
    NotesUnfold(marker, text);
    if i < |text| {
      var past := PastNumber(text, word, i);
      NotesAre(n, text[past..]);
      FirstIsEarliest(text, n, i, past);
      var rest := NotesOf(n, text[past..]);
      assert ([Note(marker, text[..i])] + rest)[1..] == rest;
    } else {
      NoneIsFound(text, n);
    }
  }

  lemma NoneIsFound(text: string, n: nat)
    requires FirstOpening(text, Decimal(n), 0) == |text|
    ensures NoNoteBegins(text, n)
  {
    hide Decimal, Opens, Opening, PastNumber, FirstOpening;
    forall i: nat, p: nat ensures !Opening(text, n, i, p) {
      OpeningIs(text, n, i);
      if i >= |text| { NotAtEnd(text, n, i); }
    }
  }

  lemma NotAtEnd(text: string, n: nat, i: nat)
    requires i >= |text|
    ensures !Opens(text, Decimal(n), i)
  {}

  lemma FirstIsEarliest(text: string, n: nat, i: nat, past: nat)
    requires i == FirstOpening(text, Decimal(n), 0) < |text| && Opens(text, Decimal(n), i)
    requires past == PastNumber(text, Decimal(n), i)
    ensures FirstNote(text, n, i, past)
  {
    hide Decimal, Opens, Opening, PastNumber, FirstOpening;
    OpeningIs(text, n, i);
    forall j: nat, p: nat | Opening(text, n, j, p) ensures i <= j {
      OpeningIs(text, n, j);
    }
  }

  // ---------------------------------------------------------------- one part

  predicate Headed(t: string, digits: string, gap: string, rest: string) {
    && t == digits + gap + rest && 1 <= |digits| <= 3 && AllDigits(digits) && gap != "" && S.AllSpace(gap)
    && (rest == "" || !S.Space(rest[0]))
  }

  lemma HeadFrom(t: string, digits: string, gap: string, rest: string)
    requires Headed(t, digits, gap, rest)
    ensures HeadLength(t) == |digits| + |gap| && Digits(t) == |digits|
  {
    hide S.Space;
    NotDigit(gap);
    assert t == digits + (gap + rest) && t[|digits|..] == gap + rest;
    RunOfDigits(digits, gap + rest);
    RunOfSpaces(gap, rest);
  }

  lemma HeadIs(t: string) returns (gap: string)
    requires HeadLength(t) > 0
    ensures Headed(t, t[..Digits(t)], gap, t[HeadLength(t)..])
  {
    hide S.Space, Digits, Spaces;
    var d := Digits(t);
    var w := Spaces(t[d..]);
    gap := t[d..][..w];
    DigitRun(t);
    SpaceRun(t[d..]);
    Thirds(t, d, w);
  }

  lemma Thirds(t: string, d: nat, w: nat)
    requires d + w <= |t|
    ensures t == t[..d] + t[d..][..w] + t[d + w..] && t[d..][w..] == t[d + w..]
  {
    assert t[d..][..w] == t[d..d + w] && t[..d + w] == t[..d] + t[d..d + w];
    assert t == t[..d + w] + t[d + w..];
  }

  /** What a part after the word becomes: an apparatus if it begins with one to three digits and white space, or else
      text for the body. */
  ghost predicate BlockReads(part: string, b: Block) {
    exists t :: S.Trims(part, t) &&
      match b
      case Folded(text) => text == t && forall digits, gap, rest :: !Headed(t, digits, gap, rest)
      case Apparatus(head, notes) =>
        exists gap, rest, n: nat :: Headed(t, head, gap, rest) && Reads(head, n) && NotesRead(n, rest, notes)
  }

  lemma BlockIs(part: string)
    ensures BlockReads(part, BlockOf(part))
  {
    hide Trim, Headed, NotesRead, Reads, S.Trims, HeadLength, Value, NotesOf;
    var t := Trim(part);
    S.TrimIs(part);
    if HeadLength(t) > 0 {
      var gap := HeadIs(t);
      HeadedHasDigits(t, t[..Digits(t)], gap, t[HeadLength(t)..]);
      ValueIs(t[..Digits(t)]);
      NotesAre(Value(t[..Digits(t)]), t[HeadLength(t)..]);
    } else {
      forall digits, gap, rest ensures !Headed(t, digits, gap, rest) {
        NotHeaded(t, digits, gap, rest);
      }
    }
  }

  lemma HeadedHasDigits(t: string, digits: string, gap: string, rest: string)
    requires Headed(t, digits, gap, rest)
    ensures digits != "" && forall c <- digits :: IsDigit(c)
  {}

  lemma NotHeaded(t: string, digits: string, gap: string, rest: string)
    requires HeadLength(t) == 0
    ensures !Headed(t, digits, gap, rest)
  {
    hide HeadLength;
    if Headed(t, digits, gap, rest) {
      HeadFrom(t, digits, gap, rest);
      HeadedHasDigits(t, digits, gap, rest);
    }
  }

  // ---------------------------------------------------------------- words

  function WordsIn(s: string): seq<string> {
    Spacing.Words(s, S.Space)
  }

  /** The words with one space between them. */
  function Even(s: string): string {
    Spacing.Spaced(WordsIn(s))
  }

  lemma {:induction false} SqueezeIs(s: string)
    ensures Spacing.Squeezed(s, Squeeze(s), S.Space)
    decreases |s|
  {
    if s != "" {
      if IsSpace(s[0]) {
        var n := Spaces(s);
        SqueezeIs(s[n..]);
        assert s == s[..n] + s[n..];
        Spacing.SqueezedRun(s[..n], s[n..], Squeeze(s[n..]), S.Space);
      } else {
        SqueezeIs(s[1..]);
        assert s == [s[0]] + s[1..];
        Spacing.SqueezedCons(s[0], s[1..], Squeeze(s[1..]), S.Space);
      }
    }
  }

  lemma SpaceIsSpace()
    ensures S.Space(' ')
  {}

  lemma CollapseIs(s: string)
    ensures Collapse(s) == Even(s)
  {
    SqueezeIs(s);
    S.TrimIs(Squeeze(s));
    SpaceIsSpace();
    hide Trim, Squeeze, Spacing.Words, Spacing.Spaced, S.Space;
    var lead, trail :| S.Around(Squeeze(s), lead, Trim(Squeeze(s)), trail);
    Spacing.SqueezedIsSpaced(s, Squeeze(s), lead, Trim(Squeeze(s)), trail, S.Space);
  }

  lemma WordsOfTrim(s: string)
    ensures WordsIn(Trim(s)) == WordsIn(s)
  {
    S.TrimIs(s);
    hide Trim, Spacing.Words, S.Space;
    var lead, trail :| S.Around(s, lead, Trim(s), trail);
    Spacing.WordsInside(lead, Trim(s), trail, S.Space);
  }

  lemma WordsAppended(before: string, text: string)
    ensures WordsIn(Trim(before + " " + text)) == WordsIn(before) + WordsIn(text)
  {
    SpaceIsSpace();
    hide Trim, Spacing.Words, S.Space;
    WordsOfTrim(before + " " + text);
    assert before + " " + text == before + (" " + text);
    Spacing.WordsOfBoth(before, " " + text, S.Space);
    Spacing.WordsAfterBlanks(" ", text, S.Space);
  }

  /** The words of the body: those of the first part and of the parts that are no apparatus. */
  function BodyWords(first: string, blocks: seq<Block>): seq<string> {
    if blocks == [] then WordsIn(first)
    else
      var n := |blocks| - 1;
      BodyWords(first, blocks[..n]) + (if blocks[n].Folded? then WordsIn(blocks[n].text) else [])
  }

  lemma {:induction false} BodyIs(first: string, blocks: seq<Block>)
    ensures WordsIn(BodyOf(first, blocks)) == BodyWords(first, blocks)
  {
    hide WordsIn, Trim;
    if blocks != [] {
      var n := |blocks| - 1;
      BodyIs(first, blocks[..n]);
      if blocks[n].Folded? {
        WordsAppended(BodyOf(first, blocks[..n]), blocks[n].text);
      }
    }
  }

  /** The notes with any words, each with its number and its words. */
  function WithWords(notes: seq<Note>): seq<Note> {
    if notes == [] then []
    else
      var n := notes[|notes| - 1];
      WithWords(notes[..|notes| - 1]) + (if WordsIn(n.text) == [] then [] else [Note(n.marker, Even(n.text))])
  }

  lemma NoWordsNoText(s: string)
    ensures Even(s) == "" <==> WordsIn(s) == []
  {
    if WordsIn(s) != [] {
      Spacing.FirstIsWord(s, S.Space);
    }
  }

  lemma {:induction false} CleanedIs(notes: seq<Note>)
    ensures Cleaned(notes) == WithWords(notes)
  {
    hide Collapse, WordsIn, Even;
    if notes != [] {
      var n := |notes| - 1;
      CleanedIs(notes[..n]);
      CollapseIs(notes[n].text);
      NoWordsNoText(notes[n].text);
    }
  }

  /** The notes of all the apparatus, in order. */
  function NotesIn(blocks: seq<Block>): seq<Note> {
    if blocks == [] then []
    else (if blocks[0].Apparatus? then blocks[0].notes else []) + NotesIn(blocks[1..])
  }

  lemma Regroup<T>(a: seq<T>, b: seq<T>, c: seq<T>)
    ensures a + (b + c) == a + b + c
  {}

  lemma {:induction false} NotesInLast(blocks: seq<Block>, b: Block)
    ensures NotesIn(blocks + [b]) == NotesIn(blocks) + if b.Apparatus? then b.notes else []
  {
    if blocks == [] {
      assert blocks + [b] == [b] && [b][1..] == [];
    } else {
      NotesInLast(blocks[1..], b);
      assert (blocks + [b])[1..] == blocks[1..] + [b];
      Regroup(if blocks[0].Apparatus? then blocks[0].notes else [], NotesIn(blocks[1..]),
              if b.Apparatus? then b.notes else []);
    }
  }

  lemma {:induction false} AllNotesAre(blocks: seq<Block>)
    ensures AllNotes(blocks) == NotesIn(blocks)
  {
    if blocks != [] {
      var n := |blocks| - 1;
      AllNotesAre(blocks[..n]);
      NotesInLast(blocks[..n], blocks[n]);
      assert blocks == blocks[..n] + [blocks[n]];
    }
  }

  // ---------------------------------------------------------------- the whole text

  ghost predicate LiftReads(raw: string, parts: seq<string>, blocks: seq<Block>, r: Lifted) {
    && Divided(raw, parts) && |blocks| + 1 == |parts|
    && (forall k | 0 <= k < |blocks| :: BlockReads(parts[k + 1], blocks[k]))
    && r == Lifted(Spacing.Spaced(BodyWords(parts[0], blocks)), WithWords(NotesIn(blocks)))
  }

  lemma {:induction false} BlocksAre(parts: seq<string>)
    ensures |BlocksOf(parts)| == |parts| && forall k | 0 <= k < |parts| :: BlocksOf(parts)[k] == BlockOf(parts[k])
  {
    hide BlockOf;
    if parts != [] {
      BlocksAre(parts[..|parts| - 1]);
    }
  }

  /** MAIN: a text is divided at its separators, each part but the first is read as an apparatus or as text, the body
      is the words of the text and the notes those of the apparatus, in order. */
  lemma TextReads(raw: string)
    ensures exists parts, blocks :: LiftReads(raw, parts, blocks, Lift(raw))
  {
    hide Divided, BlockReads, Parts, BlockOf, BodyOf, BodyWords, WithWords, NotesIn, AllNotes, Cleaned, Collapse;
    var parts := Parts(raw);
    var blocks := BlocksOf(parts[1..]);
    PartsAre(raw);
    BlocksAre(parts[1..]);
    forall k | 0 <= k < |blocks| ensures BlockReads(parts[k + 1], blocks[k]) {
      BlockIs(parts[k + 1]);
    }
    CollapseIs(BodyOf(parts[0], blocks));
    BodyIs(parts[0], blocks);
    AllNotesAre(blocks);
    CleanedIs(AllNotes(blocks));
    assert LiftReads(raw, parts, blocks, Lift(raw));
  }
}
