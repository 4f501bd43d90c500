/**
 Lifting the footnote apparatus out of a provision's text.

 The text is split at the word "Footnotes"; a part that begins with a number is an apparatus, divided at
 each next sequential number that starts a sentence; any other part is put back into the body.
 */
module Footnotes {
  import opened Wrappers
  import opened Text
  import Sequences

  predicate IsDigit(c: char) { '0' <= c <= '9' }

  /** Length of the leading white space. */
  function Spaces(s: string): (n: nat)
    ensures n <= |s| && (n < |s| ==> !IsSpace(s[n]))
    ensures forall i | 0 <= i < n :: IsSpace(s[i])
  {
    if s != "" && IsSpace(s[0]) then 1 + Spaces(s[1..]) else 0
  }

  function Digits(s: string): (n: nat)
    ensures n <= |s| && (n < |s| ==> !IsDigit(s[n]))
    ensures forall i | 0 <= i < n :: IsDigit(s[i])
  {
    if s != "" && IsDigit(s[0]) then 1 + Digits(s[1..]) else 0
  }

  /** Runs of white space become one space, then the ends are trimmed. */
  function Squeeze(s: string): string {
    if s == "" then ""
    else if IsSpace(s[0]) then " " + Squeeze(s[Spaces(s)..])
    else [s[0]] + Squeeze(s[1..])
  }

  function Collapse(s: string): string {
    Trim(Squeeze(s))
  }

  // ---------------------------------------------------------------- the separator

  const WORD := "Footnotes"

  /** Length of a separator at the start of `s`: white space, the word, white space; 0 if none. */
  function SeparatorLength(s: string): (n: nat)
    ensures n <= |s|
  {
    var k := Spaces(s);
    if WORD <= s[k..] then
      var m := Spaces(s[k + |WORD|..]);
      if m >= 1 then k + |WORD| + m else 0
    else 0
  }

  /** Where the first separator starts; |s| if there is none. */
  function FirstSeparator(s: string): (q: nat)
    ensures q <= |s|
    ensures q < |s| ==> SeparatorLength(s[q..]) > 0
  {
    if s == "" then 0
    else if SeparatorLength(s) > 0 then assert s[0..] == s; 0
    else
      assert forall i | 0 < i <= |s| :: s[1..][i - 1..] == s[i..];
      1 + FirstSeparator(s[1..])
  }

  /** What follows the first separator. */
  function Rest(s: string): (rest: string)
    requires FirstSeparator(s) < |s|
    ensures |rest| < |s|
  {
    var q := FirstSeparator(s);
    s[q + SeparatorLength(s[q..])..]
  }

  function Parts(s: string): (parts: seq<string>)
    ensures |parts| >= 1
    decreases |s|
  {
    var q := FirstSeparator(s);
    if q == |s| then [s] else [s[..q]] + Parts(Rest(s))
  }

  // ---------------------------------------------------------------- one apparatus

  datatype Note = Note(marker: nat, text: string)

  function Decimal(n: nat): (s: string)
    ensures |s| >= 1 && forall c <- s :: IsDigit(c)
  {
    var last := [('0' as int + n % 10) as char];
    if n < 10 then last else Decimal(n / 10) + last
  }

  function Value(digits: string): nat
    requires forall c <- digits :: IsDigit(c)
  {
    if digits == "" then 0
    else
      var n := |digits| - 1;
      assert digits[n] in digits && IsDigit(digits[n]);
      assert forall c <- digits[..n] :: c in digits;
      Value(digits[..n]) * 10 + (digits[n] as int - '0' as int)
  }

  /** Number `word` opens a note at position `i`: after a stop and a space, before a capital or bracket. */
  predicate Opens(s: string, word: string, i: nat) {
    && 2 <= i <= |s| && (s[i - 2] == '.' || s[i - 2] == ';') && IsSpace(s[i - 1])
    && word <= s[i..]
    && (var after := s[i + |word|..];
        var w := Spaces(after);
        1 <= w < |after| && ('A' <= after[w] <= 'Z' || after[w] == '('))
  }

  function FirstOpening(s: string, word: string, from: nat): (i: nat)
    requires from <= |s|
    ensures from <= i <= |s|
    ensures i < |s| ==> Opens(s, word, i)
    ensures forall j | from <= j < i :: !Opens(s, word, j)
    decreases |s| - from
  {
    if from == |s| then |s|
    else if Opens(s, word, from) then from
    else FirstOpening(s, word, from + 1)
  }

  /** Where the text of the next note begins, past its number. */
  function PastNumber(s: string, word: string, i: nat): (e: nat)
    requires Opens(s, word, i)
    ensures i + |word| < e <= |s|
  {
    i + |word| + Spaces(s[i + |word|..])
  }

  function NotesOf(marker: nat, rest: string): (notes: seq<Note>)
    ensures |notes| >= 1
    decreases |rest|
  {
    var word := Decimal(marker + 1);
    var i := FirstOpening(rest, word, 0);
    if i == |rest| then [Note(marker, rest)]
    else [Note(marker, rest[..i])] + NotesOf(marker + 1, rest[PastNumber(rest, word, i)..])
  }

  datatype Block = Folded(text: string) | Apparatus(head: string, notes: seq<Note>)

  /** Length of `^\d{1,3}\s+`, or 0. */
  function HeadLength(s: string): (n: nat)
    ensures n <= |s|
  {
    var d := Digits(s);
    var w := Spaces(s[d..]);
    if 1 <= d <= 3 && w >= 1 then d + w else 0
  }

  function BlockOf(part: string): Block {
    var s := Trim(part);
    var n := HeadLength(s);
    if n == 0 then Folded(s)
    else Apparatus(s[..Digits(s)], NotesOf(Value(s[..Digits(s)]), s[n..]))
  }

  function BlocksOf(parts: seq<string>): seq<Block> {
    if parts == [] then [] else BlocksOf(parts[..|parts| - 1]) + [BlockOf(parts[|parts| - 1])]
  }

  function BodyOf(body: string, blocks: seq<Block>): string {
    if blocks == [] then body
    else
      var before, b := BodyOf(body, blocks[..|blocks| - 1]), blocks[|blocks| - 1];
      if b.Folded? then Trim(before + " " + b.text) else before
  }

  function AllNotes(blocks: seq<Block>): seq<Note> {
    if blocks == [] then []
    else
      var b := blocks[|blocks| - 1];
      AllNotes(blocks[..|blocks| - 1]) + (if b.Apparatus? then b.notes else [])
  }

  /** Notes whose text is blank are dropped. */
  function Cleaned(notes: seq<Note>): seq<Note> {
    if notes == [] then []
    else
      var n := notes[|notes| - 1];
      var text := Collapse(n.text);
      Cleaned(notes[..|notes| - 1]) + (if text == "" then [] else [Note(n.marker, text)])
  }

  datatype Lifted = Lifted(body: string, notes: seq<Note>)

  function Lift(raw: string): Lifted {
    var parts := Parts(raw);
    var blocks := BlocksOf(parts[1..]);
    Lifted(Collapse(BodyOf(parts[0], blocks)), Cleaned(AllNotes(blocks)))
  }

  // ---------------------------------------------------------------- the loops

  /** The walk along one apparatus. */
  method WalkApparatus(head: nat, text: string) returns (notes: seq<Note>)
    ensures notes == NotesOf(head, text)
  {
    hide Decimal, Spaces, Opens, IsSpace, FirstOpening, NotesOf;
    notes := [];
    var marker, rest := head, text;
    var word := Decimal(marker + 1);
    var i := FirstOpening(rest, word, 0);
    while i < |rest|
      invariant word == Decimal(marker + 1) && i <= |rest| && i == FirstOpening(rest, word, 0)
      invariant notes + NotesOf(marker, rest) == NotesOf(head, text)
      decreases |rest|
    {
      ghost var before := notes;
      ghost var note := Note(marker, rest[..i]);
      NotesUnfold(marker, rest);
      notes := notes + [Note(marker, rest[..i])];
      rest := rest[PastNumber(rest, word, i)..];
      marker := marker + 1;
      Regroup(before, note, NotesOf(marker, rest));
      word := Decimal(marker + 1);
      i := FirstOpening(rest, word, 0);
    }
    NotesUnfold(marker, rest);
    notes := notes + [Note(marker, rest)];
  }

  lemma Regroup(a: seq<Note>, n: Note, b: seq<Note>)
    ensures a + ([n] + b) == a + [n] + b
  {}

  lemma OneMoreBlock(body: string, parts: seq<string>, part: string)
    ensures var before, b := BlocksOf(parts), BlockOf(part);
            && BodyOf(body, BlocksOf(parts + [part])) ==
               (if b.Folded? then Trim(BodyOf(body, before) + " " + b.text) else BodyOf(body, before))
            && AllNotes(BlocksOf(parts + [part])) == AllNotes(before) + (if b.Apparatus? then b.notes else [])
  {
    hide BlockOf;
    assert (parts + [part])[..|parts|] == parts;
    var before := BlocksOf(parts);
    assert (before + [BlockOf(part)])[..|before|] == before;
  }

  lemma OneMoreNote(notes: seq<Note>, n: Note)
    ensures Cleaned(notes + [n]) ==
            Cleaned(notes) + (if Collapse(n.text) == "" then [] else [Note(n.marker, Collapse(n.text))])
  {
    hide Collapse;
    assert (notes + [n])[..|notes|] == notes;
  }

  method CollapseNotes(acc: seq<Note>) returns (footnotes: seq<Note>)
    ensures footnotes == Cleaned(acc)
  {
    hide Cleaned, Collapse;
    footnotes := [];
    NoNotes();
    for i := 0 to |acc|
      invariant footnotes == Cleaned(acc[..i])
    {
      assert acc[..i + 1] == acc[..i] + [acc[i]];
      OneMoreNote(acc[..i], acc[i]);
      var text := Collapse(acc[i].text);
      if text != "" {
        footnotes := footnotes + [Note(acc[i].marker, text)];
      }
    }
    assert acc[..|acc|] == acc;
  }

  lemma NoNotes()
    ensures Cleaned([]) == [] && AllNotes([]) == [] && BlocksOf([]) == []
    ensures forall body :: BodyOf(body, []) == body
  {}

  method ParseFootnotes(raw: string) returns (r: Lifted)
    ensures r == Lift(raw)
  {
    hide BodyOf, AllNotes, BlocksOf, Cleaned, Parts, Trim, Collapse, HeadLength, NotesOf, Value;
    var parts := Parts(raw);
    var body := parts[0];
    var acc: seq<Note> := [];
    var blocks := parts[1..];
    NoNotes();
    for i := 0 to |blocks|
      invariant body == BodyOf(parts[0], BlocksOf(blocks[..i]))
      invariant acc == AllNotes(BlocksOf(blocks[..i]))
    {
      assert blocks[..i + 1] == blocks[..i] + [blocks[i]];
      OneMoreBlock(parts[0], blocks[..i], blocks[i]);
      var trimmed := Trim(blocks[i]);
      var n := HeadLength(trimmed);
      if n == 0 {
        body := Trim(body + " " + trimmed);
      } else {
        var notes := WalkApparatus(Value(trimmed[..Digits(trimmed)]), trimmed[n..]);
        acc := acc + notes;
      }
    }
    assert blocks[..|blocks|] == blocks;
    var footnotes := CollapseNotes(acc);
    r := Lifted(Collapse(body), footnotes);
  }

  // ---------------------------------------------------------------- numbering

  lemma NotesUnfold(marker: nat, rest: string)
    ensures var word := Decimal(marker + 1);
            var i := FirstOpening(rest, word, 0);
            NotesOf(marker, rest) ==
              if i == |rest| then [Note(marker, rest)]
              else [Note(marker, rest[..i])] + NotesOf(marker + 1, rest[PastNumber(rest, word, i)..])
  {
    hide Decimal, FirstOpening, Opens, PastNumber, IsSpace, Spaces;
  }

  /** A block's notes are numbered consecutively from its first number. */
  lemma {:induction false} NumberedConsecutively(marker: nat, rest: string, k: nat)
    requires k < |NotesOf(marker, rest)|
    ensures NotesOf(marker, rest)[k].marker == marker + k
    decreases k
  {
    hide *;
    NotesUnfold(marker, rest);
    var word := Decimal(marker + 1);
    var i := FirstOpening(rest, word, 0);
    if i < |rest| && k > 0 {
      NumberedConsecutively(marker + 1, rest[PastNumber(rest, word, i)..], k - 1);
    }
  }

  // ---------------------------------------------------------------- conservation

  /** What a text is made of, character by character, apart from white space. */
  function InkOfNotes(notes: seq<Note>): string {
    if notes == [] then ""
    else Ink(notes[0].text) + InkOfLaterNotes(notes[1..])
  }

  /** A note after the first is preceded by its number. */
  function InkOfLaterNotes(notes: seq<Note>): string {
    if notes == [] then ""
    else Decimal(notes[0].marker) + Ink(notes[0].text) + InkOfLaterNotes(notes[1..])
  }

  function InkOfBlocks(blocks: seq<Block>): string {
    if blocks == [] then ""
    else
      var b := blocks[|blocks| - 1];
      InkOfBlocks(blocks[..|blocks| - 1]) + WORD +
      (if b.Folded? then Ink(b.text) else b.head + InkOfNotes(b.notes))
  }

  lemma {:induction false} InkOfSolid(s: string)
    requires forall c <- s :: !IsSpace(c)
    ensures Ink(s) == s
  {
    if s != "" {
      assert s[0] in s && forall c <- s[1..] :: c in s;
      InkOfSolid(s[1..]);
    }
  }

  lemma InkOfLeading(s: string)
    ensures Ink(s[Spaces(s)..]) == Ink(s)
  {
    var n := Spaces(s);
    assert s == s[..n] + s[n..];
    InkConcat(s[..n], s[n..]);
    InkOfBlank(s[..n]);
  }

  lemma {:induction false} InkOfSqueeze(s: string)
    ensures Ink(Squeeze(s)) == Ink(s)
    decreases |s|
  {
    if s != "" {
      if IsSpace(s[0]) {
        InkOfSqueeze(s[Spaces(s)..]);
        InkOfLeading(s);
        InkConcat(" ", Squeeze(s[Spaces(s)..]));
        InkOfBlank(" ");
      } else {
        InkOfSqueeze(s[1..]);
        InkConcat([s[0]], Squeeze(s[1..]));
        InkConcat([s[0]], s[1..]);
        assert [s[0]] + s[1..] == s;
      }
    }
  }

  lemma InkOfCollapse(s: string)
    ensures Ink(Collapse(s)) == Ink(s)
  {
    InkOfSqueeze(s);
    InkOfTrim(Squeeze(s));
  }

  lemma DigitsAreInk(s: string)
    requires forall c <- s :: IsDigit(c)
    ensures Ink(s) == s
  {
    forall c | c in s ensures !IsSpace(c) {}
    InkOfSolid(s);
  }

  lemma {:induction false} NotesKeepInk(marker: nat, rest: string)
    ensures InkOfNotes(NotesOf(marker, rest)) == Ink(rest)
    decreases |rest|
  {
    hide Decimal, Opens, FirstOpening, PastNumber, NotesOf, Ink;
    var word := Decimal(marker + 1);
    var i := FirstOpening(rest, word, 0);
    NotesUnfold(marker, rest);
    if i == |rest| {
      FirstNoteInk(Note(marker, rest), []);
      Sequences.Unit(Ink(rest));
      Sequences.Unit([Note(marker, rest)]);
    } else {
      var e := PastNumber(rest, word, i);
      var later := NotesOf(marker + 1, rest[e..]);
      NotesKeepInk(marker + 1, rest[e..]);
      NumberedConsecutively(marker + 1, rest[e..], 0);
      FirstNoteInk(Note(marker, rest[..i]), later);
      LaterNotesInk(later);
      CutAtNumber(rest, word, i);
      DigitsAreInk(word);
      Associate(Ink(rest[..i]), word, Ink(later[0].text), InkOfLaterNotes(later[1..]));
    }
  }

  lemma FirstNoteInk(first: Note, later: seq<Note>)
    ensures InkOfNotes([first] + later) == Ink(first.text) + InkOfLaterNotes(later)
    ensures later == [] ==> InkOfLaterNotes(later) == ""
  {
    assert ([first] + later)[1..] == later;
  }

  lemma LaterNotesInk(later: seq<Note>)
    requires later != []
    ensures InkOfLaterNotes(later) == Decimal(later[0].marker) + Ink(later[0].text) + InkOfLaterNotes(later[1..])
    ensures InkOfNotes(later) == Ink(later[0].text) + InkOfLaterNotes(later[1..])
  {}

  lemma Cut(s: string, n: nat)
    requires n <= |s|
    ensures Ink(s) == Ink(s[..n]) + Ink(s[n..])
  {
    hide *;
    InkConcat(s[..n], s[n..]);
    Sequences.Split(s, n);
  }

  lemma CutAtNumber(s: string, word: string, i: nat)
    requires Opens(s, word, i)
    ensures Ink(s) == Ink(s[..i]) + (Ink(word) + Ink(s[PastNumber(s, word, i)..]))
  {
    hide *;
    NumberAt(s, word, i);
    CutTwice(s, i, word);
    CutSpace(s, i + |word|);
  }

  lemma CutTwice(s: string, i: nat, word: string)
    requires i + |word| <= |s| && s[i..][..|word|] == word
    ensures Ink(s) == Ink(s[..i]) + (Ink(word) + Ink(s[i + |word|..]))
  {
    hide *;
    Cut(s, i);
    Cut(s[i..], |word|);
    Sequences.DropDrop(s, i, |word|);
  }

  lemma CutSpace(s: string, n: nat)
    requires n <= |s|
    ensures Ink(s[n..]) == Ink(s[n + Spaces(s[n..])..])
  {
    hide *;
    InkOfLeading(s[n..]);
    Sequences.DropDrop(s, n, Spaces(s[n..]));
  }

  lemma NumberAt(s: string, word: string, i: nat)
    requires Opens(s, word, i)
    ensures i + |word| <= |s| && s[i..][..|word|] == word
    ensures PastNumber(s, word, i) == i + |word| + Spaces(s[i + |word|..])
  {
    hide Spaces, IsSpace;
    assert |word| <= |s[i..]|;
  }

  lemma Associate(a: string, b: string, c: string, d: string)
    ensures a + (b + c + d) == a + b + (c + d)
  {}

  lemma BlockKeepsInk(part: string)
    ensures var b := BlockOf(part);
            Ink(part) == if b.Folded? then Ink(b.text) else b.head + InkOfNotes(b.notes)
  {
    var s := Trim(part);
    InkOfTrim(part);
    var n, d := HeadLength(s), Digits(s);
    if n > 0 {
      assert s == s[..d] + s[d..];
      InkConcat(s[..d], s[d..]);
      InkOfLeading(s[d..]);
      assert s[d..][Spaces(s[d..])..] == s[n..];
      DigitsAreInk(s[..d]);
      NotesKeepInk(Value(s[..d]), s[n..]);
    }
  }

  function InkOfParts(parts: seq<string>): string {
    if parts == [] then "" else InkOfParts(parts[..|parts| - 1]) + WORD + Ink(parts[|parts| - 1])
  }

  lemma {:induction false} BlocksKeepInk(parts: seq<string>)
    ensures InkOfBlocks(BlocksOf(parts)) == InkOfParts(parts)
  {
    hide BlockOf;
    if parts != [] {
      var n := |parts| - 1;
      BlocksKeepInk(parts[..n]);
      BlockKeepsInk(parts[n]);
      assert BlocksOf(parts)[..n + 0] == BlocksOf(parts[..n]) by { LengthOfBlocks(parts[..n]); }
      LengthOfBlocks(parts[..n]);
    }
  }

  lemma {:induction false} LengthOfBlocks(parts: seq<string>)
    ensures |BlocksOf(parts)| == |parts|
  {
    if parts != [] {
      LengthOfBlocks(parts[..|parts| - 1]);
    }
  }

  lemma PartsSnoc(parts: seq<string>, part: string)
    ensures InkOfParts(parts + [part]) == InkOfParts(parts) + WORD + Ink(part)
  {
    hide Ink;
    Sequences.Snoc(parts, part);
  }

  lemma {:induction false} InkOfPartsFirst(part: string, parts: seq<string>)
    ensures InkOfParts([part] + parts) == WORD + Ink(part) + InkOfParts(parts)
  {
    if parts == [] {
      assert InkOfParts([]) == "";
      hide *;
      PartsSnoc([], part);
      Sequences.Unit([part]);
      Sequences.Unit(WORD);
      Sequences.Unit(WORD + Ink(part));
    } else {
      hide *;
      var init, last := parts[..|parts| - 1], parts[|parts| - 1];
      assert parts == init + [last];
      InkOfPartsFirst(part, init);
      Sequences.Assoc([part], init, [last]);
      PartsSnoc([part] + init, last);
      PartsSnoc(init, last);
      Sequences.Assoc(WORD + Ink(part), InkOfParts(init), WORD);
      Sequences.Assoc(WORD + Ink(part), InkOfParts(init) + WORD, Ink(last));
    }
  }

  lemma SeparatorShape(t: string)
    requires SeparatorLength(t) > 0
    ensures var k, w := Spaces(t), |WORD|;
            k + w <= |t| && WORD <= t[k..] && SeparatorLength(t) == k + w + Spaces(t[k + w..])
  {
    var k, w := Spaces(t), |WORD|;
    assert t[k..][w..] == t[k + w..];
  }

  lemma WordIsInk()
    ensures Ink(WORD) == WORD
  {
    InkOfSolid(WORD);
  }

  lemma WordFirst(u: string)
    requires WORD <= u
    ensures Ink(u) == WORD + Ink(u[|WORD|..])
  {
    hide *;
    Cut(u, |WORD|);
    WordIsInk();
    assert u[..|WORD|] == WORD;
  }

  /** A text beginning with a separator. */
  lemma SeparatorInk(t: string)
    requires SeparatorLength(t) > 0
    ensures Ink(t) == WORD + Ink(t[SeparatorLength(t)..])
  {
    hide *;
    SeparatorShape(t);
    var k, w := Spaces(t), |WORD|;
    InkOfLeading(t);
    WordFirst(t[k..]);
    Sequences.DropDrop(t, k, w);
    InkOfLeading(t[k + w..]);
    Sequences.DropDrop(t, k + w, Spaces(t[k + w..]));
  }

  lemma CutAtSeparator(s: string, q: nat)
    requires q <= |s| && SeparatorLength(s[q..]) > 0
    ensures Ink(s) == Ink(s[..q]) + (WORD + Ink(s[q + SeparatorLength(s[q..])..]))
  {
    hide *;
    SeparatorInk(s[q..]);
    Cut(s, q);
    Sequences.DropDrop(s, q, SeparatorLength(s[q..]));
  }

  lemma Regrouped(a: string, b: string, c: string, d: string)
    ensures a + (b + (c + d)) == a + (b + c + d)
  {}

  lemma PartsUnfold(s: string)
    requires FirstSeparator(s) < |s|
    ensures Parts(s) == [s[..FirstSeparator(s)]] + Parts(Rest(s))
  {
    hide SeparatorLength, FirstSeparator, Rest;
  }

  lemma RestFollows(s: string)
    requires FirstSeparator(s) < |s|
    ensures var q := FirstSeparator(s); SeparatorLength(s[q..]) > 0 && Rest(s) == s[q + SeparatorLength(s[q..])..]
  {
    hide SeparatorLength, FirstSeparator, Spaces, IsSpace;
  }

  lemma PartsOfWhole(s: string)
    requires FirstSeparator(s) == |s|
    ensures Parts(s) == [s]
  {}

  lemma OnePart(s: string)
    ensures Ink(s) == Ink([s][0]) + InkOfParts([s][1..])
  {
    assert [s][1..] == [];
    assert InkOfParts([]) == "" && Ink(s) + "" == Ink(s);
  }

  lemma {:induction false} PartsKeepInk(s: string)
    ensures Ink(s) == Ink(Parts(s)[0]) + InkOfParts(Parts(s)[1..])
    decreases |s|
  {
    hide *;
    var q := FirstSeparator(s);
    if q == |s| {
      PartsOfWhole(s);
      OnePart(s);
    } else {
      PartsUnfold(s);
      var rest := Rest(s);
      PartsKeepInk(rest);
      RestFollows(s);
      CutAtSeparator(s, q);
      FirstOfParts(s[..q], Ink(s), Parts(rest), Ink(rest));
    }
  }

  lemma FirstOfParts(head: string, whole: string, more: seq<string>, rest: string)
    requires more != [] && rest == Ink(more[0]) + InkOfParts(more[1..])
    requires whole == Ink(head) + (WORD + rest)
    ensures var parts := [head] + more; whole == Ink(parts[0]) + InkOfParts(parts[1..])
  {
    InkOfPartsFirst(more[0], more[1..]);
    hide *;
    assert more == [more[0]] + more[1..] && ([head] + more)[1..] == more;
    Regrouped(Ink(head), WORD, Ink(more[0]), InkOfParts(more[1..]));
  }

  /** Reading a text in order: its first part, then for each block the word and the block's own content. */
  lemma TextIsAccountedFor(raw: string)
    ensures Ink(raw) == Ink(Parts(raw)[0]) + InkOfBlocks(BlocksOf(Parts(raw)[1..]))
  {
    PartsKeepInk(raw);
    BlocksKeepInk(Parts(raw)[1..]);
  }

  // ---------------------------------------------------------------- where it ends up

  /** The ink of the blocks put back into the body. */
  function FoldedInk(blocks: seq<Block>): string {
    if blocks == [] then ""
    else
      var b := blocks[|blocks| - 1];
      FoldedInk(blocks[..|blocks| - 1]) + (if b.Folded? then Ink(b.text) else "")
  }

  lemma BodyOfOne(body: string, blocks: seq<Block>, b: Block)
    ensures BodyOf(body, blocks + [b]) ==
            if b.Folded? then Trim(BodyOf(body, blocks) + " " + b.text) else BodyOf(body, blocks)
    ensures FoldedInk(blocks + [b]) == FoldedInk(blocks) + (if b.Folded? then Ink(b.text) else "")
  {
    hide Trim, Ink;
    Sequences.Snoc(blocks, b);
  }

  lemma InkOfAppended(before: string, text: string)
    ensures Ink(Trim(before + " " + text)) == Ink(before) + Ink(text)
  {
    InkOfBlank(" ");
    hide *;
    InkOfTrim(before + " " + text);
    InkConcat(before + " ", text);
    InkConcat(before, " ");
    Sequences.Unit(Ink(before));
  }

  lemma {:induction false} BodyKeepsInk(body: string, blocks: seq<Block>)
    ensures Ink(BodyOf(body, blocks)) == Ink(body) + FoldedInk(blocks)
  {
    if blocks == [] {
      assert FoldedInk([]) == "" && BodyOf(body, []) == body;
      hide *;
      Sequences.Unit(Ink(body));
    } else {
      hide *;
      var init, b := blocks[..|blocks| - 1], blocks[|blocks| - 1];
      assert blocks == init + [b];
      BodyKeepsInk(body, init);
      BodyOfOne(body, init, b);
      if b.Folded? {
        InkOfAppended(BodyOf(body, init), b.text);
        Sequences.Assoc(Ink(body), FoldedInk(init), Ink(b.text));
      } else {
        Sequences.Unit(FoldedInk(init));
      }
    }
  }

  function NotesInk(notes: seq<Note>): string {
    if notes == [] then "" else NotesInk(notes[..|notes| - 1]) + Ink(notes[|notes| - 1].text)
  }

  lemma NotesInkOfOne(notes: seq<Note>, n: Note)
    ensures NotesInk(notes + [n]) == NotesInk(notes) + Ink(n.text)
  {
    assert (notes + [n])[..|notes|] == notes;
  }

  /** Dropping blank notes drops no ink. */
  lemma {:induction false} CleanedKeepsInk(notes: seq<Note>)
    ensures NotesInk(Cleaned(notes)) == NotesInk(notes)
  {
    if notes != [] {
      assert Ink("") == "";
      hide *;
      var init, n := notes[..|notes| - 1], notes[|notes| - 1];
      assert notes == init + [n];
      var text := Collapse(n.text);
      CleanedKeepsInk(init);
      InkOfCollapse(n.text);
      OneMoreNote(init, n);
      NotesInkOfOne(init, n);
      NotesInkOfOne(Cleaned(init), Note(n.marker, text));
      Sequences.Unit(NotesInk(init));
      Sequences.Unit(Cleaned(init));
    } else {
      NoNotes();
    }
  }

  /** The lifted body and notes hold what the reading above says of them. */
  lemma LiftKeepsInk(raw: string)
    ensures var parts := Parts(raw);
            var blocks := BlocksOf(parts[1..]);
            && Ink(Lift(raw).body) == Ink(parts[0]) + FoldedInk(blocks)
            && NotesInk(Lift(raw).notes) == NotesInk(AllNotes(blocks))
  {
    var parts := Parts(raw);
    var blocks := BlocksOf(parts[1..]);
    InkOfCollapse(BodyOf(parts[0], blocks));
    BodyKeepsInk(parts[0], blocks);
    CleanedKeepsInk(AllNotes(blocks));
  }

  /** What is removed: the word of every block, and the numbers of its notes. */
  function Removed(blocks: seq<Block>): string {
    if blocks == [] then ""
    else
      var b := blocks[|blocks| - 1];
      Removed(blocks[..|blocks| - 1]) + WORD +
      (if b.Folded? then "" else b.head + Numbers(b.notes[..]))
  }

  /** The numbers of the notes after the first. */
  function Numbers(notes: seq<Note>): string {
    if |notes| <= 1 then "" else Numbers(notes[..|notes| - 1]) + Decimal(notes[|notes| - 1].marker)
  }

  lemma {:induction false} LaterNotesLast(notes: seq<Note>, n: Note)
    ensures InkOfLaterNotes(notes + [n]) == InkOfLaterNotes(notes) + Decimal(n.marker) + Ink(n.text)
  {
    if notes == [] {
      assert notes + [n] == [n] && [n][1..] == [];
      assert InkOfLaterNotes([]) == "";
      assert InkOfLaterNotes([n]) == Decimal(n.marker) + Ink(n.text) + "";
    } else {
      assert (notes + [n])[1..] == notes[1..] + [n];
      LaterNotesLast(notes[1..], n);
    }
  }

  lemma InkOfNotesLast(notes: seq<Note>, n: Note)
    requires notes != []
    ensures InkOfNotes(notes + [n]) == InkOfNotes(notes) + Decimal(n.marker) + Ink(n.text)
  {
    LaterNotesLast(notes[1..], n);
    assert (notes + [n])[1..] == notes[1..] + [n];
    assert InkOfNotes(notes + [n]) == Ink(notes[0].text) + InkOfLaterNotes(notes[1..] + [n]);
    hide *;
    Trailing(Ink(notes[0].text), InkOfLaterNotes(notes[1..]), Decimal(n.marker), Ink(n.text));
  }

  lemma NumbersLast(notes: seq<Note>, n: Note)
    requires notes != []
    ensures Numbers(notes + [n]) == Numbers(notes) + Decimal(n.marker)
  {
    assert (notes + [n])[..|notes|] == notes;
  }

  lemma OneNote(n: Note)
    ensures InkOfNotes([n]) == Ink(n.text) && NotesInk([n]) == Ink(n.text) && Numbers([n]) == ""
  {
    assert [n][1..] == [] && [n][..0] == [];
    assert InkOfLaterNotes([]) == "" && NotesInk([]) == "";
    assert Ink(n.text) + "" == Ink(n.text) && "" + Ink(n.text) == Ink(n.text);
  }

  lemma {:induction false} NotesAsMultiset(notes: seq<Note>)
    requires notes != []
    ensures multiset(InkOfNotes(notes)) == multiset(NotesInk(notes)) + multiset(Numbers(notes))
  {
    hide *;
    if |notes| == 1 {
      assert notes == [notes[0]];
      OneNote(notes[0]);
    } else {
      var init, n := notes[..|notes| - 1], notes[|notes| - 1];
      assert notes == init + [n];
      NotesAsMultiset(init);
      InkOfNotesLast(init, n);
      NotesInkOfOne(init, n);
      NumbersLast(init, n);
      ThreeParts(InkOfNotes(init), Decimal(n.marker), Ink(n.text));
      TwoParts(NotesInk(init), Ink(n.text));
      TwoParts(Numbers(init), Decimal(n.marker));
    }
  }

  lemma ThreeParts(a: string, b: string, c: string)
    ensures multiset(a + b + c) == multiset(a) + multiset(b) + multiset(c)
  {}

  lemma TwoParts(a: string, b: string)
    ensures multiset(a + b) == multiset(a) + multiset(b)
  {}

  lemma Trailing(a: string, b: string, c: string, d: string)
    ensures a + (b + c + d) == a + b + c + d
  {}

  lemma Snoc(a: seq<Note>, b: seq<Note>)
    requires b != []
    ensures var n := |b| - 1; b == b[..n] + [b[n]] && a + b == a + b[..n] + [b[n]]
  {}

  lemma {:induction false} NotesInkConcat(a: seq<Note>, b: seq<Note>)
    ensures NotesInk(a + b) == NotesInk(a) + NotesInk(b)
  {
    if b == [] {
      assert a + b == a;
    } else {
      hide *;
      var init, n := b[..|b| - 1], b[|b| - 1];
      NotesInkConcat(a, init);
      NotesInkOfOne(a + init, n);
      NotesInkOfOne(init, n);
      Snoc(a, b);
      Sequences.Assoc(NotesInk(a), NotesInk(init), Ink(n.text));
    }
  }

  ghost predicate ApparatusHasNotes(blocks: seq<Block>) {
    forall b <- blocks :: b.Apparatus? ==> b.notes != []
  }

  function BlockInk(b: Block): string {
    if b.Folded? then Ink(b.text) else b.head + InkOfNotes(b.notes)
  }

  lemma BlocksOfOneMore(blocks: seq<Block>, b: Block)
    ensures var more := blocks + [b];
            && InkOfBlocks(more) == InkOfBlocks(blocks) + WORD + BlockInk(b)
            && FoldedInk(more) == FoldedInk(blocks) + (if b.Folded? then Ink(b.text) else "")
            && AllNotes(more) == AllNotes(blocks) + (if b.Apparatus? then b.notes else [])
            && Removed(more) == Removed(blocks) + WORD + (if b.Folded? then "" else b.head + Numbers(b.notes))
  {
    hide Ink, InkOfNotes, Numbers;
    assert (blocks + [b])[..|blocks|] == blocks;
    if b.Apparatus? {
      assert b.notes[..] == b.notes;
    }
  }

  lemma BlockAsMultiset(b: Block)
    requires b.Apparatus? ==> b.notes != []
    ensures multiset(BlockInk(b)) ==
            multiset(if b.Folded? then Ink(b.text) else "") +
            multiset(NotesInk(if b.Apparatus? then b.notes else [])) +
            multiset(if b.Folded? then "" else b.head + Numbers(b.notes))
  {
    if b.Apparatus? {
      NotesAsMultiset(b.notes);
      hide Ink, InkOfNotes, NotesInk, Numbers;
      TwoParts(b.head, InkOfNotes(b.notes));
      TwoParts(b.head, Numbers(b.notes));
    } else {
      assert NotesInk([]) == "";
    }
  }

  lemma NoBlocks()
    ensures multiset(InkOfBlocks([])) ==
            multiset(FoldedInk([])) + multiset(NotesInk(AllNotes([]))) + multiset(Removed([]))
  {}

  lemma {:induction false} BlocksAsMultiset(blocks: seq<Block>)
    requires ApparatusHasNotes(blocks)
    ensures multiset(InkOfBlocks(blocks)) ==
            multiset(FoldedInk(blocks)) + multiset(NotesInk(AllNotes(blocks))) + multiset(Removed(blocks))
  {
    hide InkOfBlocks, FoldedInk, NotesInk, AllNotes, Removed, BlockInk, Ink, Numbers, IsSpace, Decimal;
    if blocks == [] {
      NoBlocks();
    } else {
      var init, b := blocks[..|blocks| - 1], blocks[|blocks| - 1];
      assert ApparatusHasNotes(init) && (b.Apparatus? ==> b.notes != []) by {
        assert b in blocks && forall x <- init :: x in blocks;
      }
      hide *;
      assert blocks == init + [b];
      BlocksAsMultiset(init);
      BlocksOfOneMore(init, b);
      BlockAsMultiset(b);
      var folded := if b.Folded? then Ink(b.text) else "";
      var notes := if b.Apparatus? then b.notes else [];
      var gone := if b.Folded? then "" else b.head + Numbers(b.notes);
      NotesInkConcat(AllNotes(init), notes);
      ThreeParts(InkOfBlocks(init), WORD, BlockInk(b));
      ThreeParts(Removed(init), WORD, gone);
      TwoParts(FoldedInk(init), folded);
      TwoParts(NotesInk(AllNotes(init)), NotesInk(notes));
      Rearranged(multiset(FoldedInk(init)), multiset(NotesInk(AllNotes(init))), multiset(Removed(init)), multiset(WORD),
                 multiset(folded), multiset(NotesInk(notes)), multiset(gone));
    }
  }

  lemma Rearranged(f: multiset<char>, n: multiset<char>, r: multiset<char>, w: multiset<char>,
                   x: multiset<char>, y: multiset<char>, z: multiset<char>)
    ensures (f + n + r) + w + (x + y + z) == (f + x) + (n + y) + (r + w + z)
  {}

  lemma {:induction false} BlocksHaveNotes(parts: seq<string>)
    ensures ApparatusHasNotes(BlocksOf(parts))
  {
    if parts != [] {
      BlocksHaveNotes(parts[..|parts| - 1]);
    }
  }

  /** For every text: each character that is not white space ends up in the body or in a note, apart from
      the word "Footnotes" once per block and the numbers of the notes. */
  lemma EveryCharacterEndsUpSomewhere(raw: string)
    ensures multiset(Ink(raw)) ==
            multiset(Ink(Lift(raw).body)) + multiset(NotesInk(Lift(raw).notes)) +
                multiset(Removed(BlocksOf(Parts(raw)[1..])))
  {
    var parts := Parts(raw);
    var blocks := BlocksOf(parts[1..]);
    TextIsAccountedFor(raw);
    LiftKeepsInk(raw);
    BlocksHaveNotes(parts[1..]);
    BlocksAsMultiset(blocks);
  }
}
