/**
 The chapter extractor: one pass over the layout lines of the framework document.

 Each line is classified on its own; what is done with it depends on the standard and chapter in
 force, the paragraph being accumulated, and whether a heading was just set.
 */
module ChapterExtract {
  import opened Wrappers

  // ---------------------------------------------------------------- characters

  predicate IsBlank(c: char) {
    c == ' ' || '\t' <= c <= '\r' || '\U{1C}' <= c <= '\U{1F}' || c == '\U{85}' || c == '\U{A0}' || c == '\U{1680}' ||
    '\U{2000}' <= c <= '\U{200A}' || c == '\U{2028}' || c == '\U{2029}' || c == '\U{202F}' || c == '\U{205F}' ||
    c == '\U{3000}'
  }

  predicate IsDigit(c: char) { '0' <= c <= '9' }
  predicate IsUpper(c: char) { 'A' <= c <= 'Z' }
  predicate IsLower(c: char) { 'a' <= c <= 'z' }
  predicate IsWord(c: char) { IsDigit(c) || IsUpper(c) || IsLower(c) || c == '_' }

  /** Length of the longest prefix of one class of characters. */
  function Blanks(s: string): (n: nat)
    ensures n <= |s| && (n < |s| ==> !IsBlank(s[n]))
    ensures forall i | 0 <= i < n :: IsBlank(s[i])
  {
    if s != [] && IsBlank(s[0]) then 1 + Blanks(s[1..]) else 0
  }

  function Digits(s: string): (n: nat)
    ensures n <= |s| && (n < |s| ==> !IsDigit(s[n]))
    ensures forall i | 0 <= i < n :: IsDigit(s[i])
  {
    if s != [] && IsDigit(s[0]) then 1 + Digits(s[1..]) else 0
  }

  function Uppers(s: string): (n: nat)
    ensures n <= |s| && (n < |s| ==> !IsUpper(s[n]))
    ensures forall i | 0 <= i < n :: IsUpper(s[i])
  {
    if s != [] && IsUpper(s[0]) then 1 + Uppers(s[1..]) else 0
  }

  function TrimEnd(s: string): string {
    if s != [] && IsBlank(s[|s| - 1]) then TrimEnd(s[..|s| - 1]) else s
  }

  function Strip(s: string): string {
    TrimEnd(s[Blanks(s)..])
  }

  function Fold(c: char): char {
    if IsUpper(c) then ((c as int) + 32) as char else c
  }

  /** `s` starts with `word`, given in lower case, without regard to case. */
  predicate StartsWith(s: string, word: string) {
    |word| <= |s| && forall i | 0 <= i < |word| :: Fold(s[i]) == word[i]
  }

  predicate Boundary(s: string, n: nat) {
    n >= |s| || !IsWord(s[n])
  }

  predicate Contains(s: string, word: string) {
    exists i | 0 <= i <= |s| :: word <= s[i..]
  }

  // ---------------------------------------------------------------- line shapes

  const STANDARDS: set<string> := {"SCO", "CAP", "CRE", "MAR", "LCR", "NSF", "LEV", "LEX", "DIS", "RBC",
                                   "OPE", "SRP", "BCP", "MGN", "CVA"}

  function Number(d: char, e: char): nat
    requires IsDigit(d) && IsDigit(e)
  {
    (d as int - '0' as int) * 10 + (e as int - '0' as int)
  }

  datatype Header = Header(std: string, chap: nat)

  /** At least eight blanks, two to four capitals, two digits, blanks. */
  function ChapterHeader(line: string): Option<Header> {
    var b := Blanks(line);
    var rest := line[b..];
    var u := Uppers(rest);
    if b >= 8 && 2 <= u <= 4 && |rest| >= u + 2 && IsDigit(rest[u]) && IsDigit(rest[u + 1]) &&
       Blanks(rest[u + 2..]) == |rest| - u - 2
    then Some(Header(rest[..u], Number(rest[u], rest[u + 1])))
    else None
  }

  /** Page footers: the download stamp, or a page count such as 12/1905. */
  predicate IsFooter(line: string) {
    Contains(line, "Downloaded on") ||
    (var s := line[Blanks(line)..];
     var d := Digits(s);
     d >= 1 && d < |s| && s[d] == '/' &&
     (var t := s[d + 1..];
      var e := Digits(t);
      e >= 3 && Blanks(t[e..]) == |t| - e))
  }

  predicate IsFlushLeft(line: string) {
    |line| > 0 && !IsBlank(line[0])
  }

  datatype Start = Start(prefix: string, item: string, rest: string)

  /** Two digits, a dot, digits, blanks, then text. */
  function ParagraphStart(line: string): Option<Start> {
    if |line| >= 3 && IsDigit(line[0]) && IsDigit(line[1]) && line[2] == '.' then
      var d := Digits(line[3..]);
      var after := line[3 + d..];
      var b := Blanks(after);
      if d >= 1 && b >= 1 && b < |after| then Some(Start(line[..2], line[3..3 + d], Strip(after[b..]))) else None
    else None
  }

  /** FAQs, footnotes, tables of one digit, version notes and examples. */
  predicate IsSupplement(s: string) {
    || (StartsWith(s, "faq") && Boundary(s, 3 + Digits(s[3..])))
    || (StartsWith(s, "footnotes") && Boundary(s, 9))
    || (StartsWith(s, "footnote") && Boundary(s, 8))
    || (StartsWith(s, "table ") && |s| > 6 && IsDigit(s[6]) && Boundary(s, 7))
    || (StartsWith(s, "version effective") && Boundary(s, 17))
    || (StartsWith(s, "examples") && Boundary(s, 8))
    || (StartsWith(s, "example") && Boundary(s, 7))
  }

  predicate IsCrossReference(s: string) {
    exists n | 2 <= n <= 4 :: n < |s| && n <= Uppers(s) && IsDigit(s[n])
  }

  predicate LooksHeading(line: string) {
    var s := Strip(line);
    && 0 < |s| <= 90
    && !IsSupplement(s)
    && !IsCrossReference(s)
    && (IsUpper(s[0]) || s[0] == '(')
    && exists i | 0 <= i < |s| :: IsLower(s[i])
  }

  predicate IsWrapped(line: string) {
    var s := Strip(line);
    |s| > 0 && IsLower(s[0])
  }

  // ---------------------------------------------------------------- the pass

  datatype Key = Key(std: string, chap: nat)

  /** Text taken from a line; `line` is its index in the document, kept for the record. */
  datatype Piece = Piece(line: nat, text: string)

  datatype Para = Para(prefix: string, item: string, heading: Option<string>, pieces: seq<Piece>)

  /** The open paragraph is a reference into a chapter's list. */
  datatype Ref = Ref(key: Key, index: nat)

  datatype State = State(std: Option<string>, chap: nat, heading: Option<string>, para: Option<Ref>, pending: bool,
                         chapters: map<Key, seq<Para>>)

  const START := State(None, 0, None, None, false, map[])

  function SetDefault(chapters: map<Key, seq<Para>>, key: Key): map<Key, seq<Para>> {
    if key in chapters then chapters else chapters[key := []]
  }

  function AppendTo(chapters: map<Key, seq<Para>>, at: Ref, piece: Piece): map<Key, seq<Para>> {
    if at.key in chapters && at.index < |chapters[at.key]| then
      var list := chapters[at.key];
      var p := list[at.index];
      chapters[at.key := list[at.index := p.(pieces := p.pieces + [piece])]]
    else chapters
  }

  lemma AppendKeepsKeys(chapters: map<Key, seq<Para>>, at: Ref, piece: Piece)
    ensures AppendTo(chapters, at, piece).Keys == chapters.Keys
  {}

  function PrefixNumber(prefix: string): nat {
    if |prefix| == 2 && IsDigit(prefix[0]) && IsDigit(prefix[1]) then Number(prefix[0], prefix[1]) else 0
  }

  function OpenParagraph(s: State, i: nat, p: Start): State
    requires s.std.Some?
  {
    var chap := PrefixNumber(p.prefix);
    var key := Key(s.std.value, chap);
    var chapters := SetDefault(s.chapters, key);
    var para := Para(p.prefix, p.item, s.heading, if p.rest == "" then [] else [Piece(i, p.rest)]);
    s.(chap := chap, pending := false, para := Some(Ref(key, |chapters[key]|)),
       chapters := chapters[key := chapters[key] + [para]])
  }

  function ExtendHeading(heading: Option<string>, line: string): Option<string> {
    if heading.None? then None
    else
      var h := heading.value;
      Some(h + (if |h| > 0 && h[|h| - 1] == '-' then "" else " ") + Strip(line))
  }

  predicate OpensChapter(line: string) {
    var h := ChapterHeader(line);
    h.Some? && h.value.std in STANDARDS
  }

  function Step(s: State, i: nat, line: string): State {
    if OpensChapter(line) then
      var h := ChapterHeader(line).value;
      State(Some(h.std), h.chap, None, None, false, SetDefault(s.chapters, Key(h.std, h.chap)))
    else if IsFooter(line) || s.std.None? then s
    else if !IsFlushLeft(line) then
      if s.para.Some? && Strip(line) != "" then
        s.(chapters := AppendTo(s.chapters, s.para.value, Piece(i, Strip(line))))
      else s
    else if ParagraphStart(line).Some? then OpenParagraph(s, i, ParagraphStart(line).value)
    else if IsSupplement(Strip(line)) then s.(pending := false, para := None)
    else if s.pending && IsWrapped(line) then s.(heading := ExtendHeading(s.heading, line))
    else if LooksHeading(line) then s.(heading := Some(Strip(line)), pending := true, para := None)
    else s
  }

  function Scan(lines: seq<string>): State {
    if lines == [] then START else Step(Scan(lines[..|lines| - 1]), |lines| - 1, lines[|lines| - 1])
  }

  /** The loop, over the local variables of `extract`. */
  method Extract(lines: seq<string>) returns (chapters: map<Key, seq<Para>>)
    ensures chapters == Scan(lines).chapters
  {
    hide IsFooter, IsFlushLeft, ParagraphStart, IsSupplement, IsWrapped, LooksHeading, Strip, PrefixNumber,
         ExtendHeading,
         ChapterHeader, AppendTo;
    var std: Option<string>, chap: nat := None, 0;
    var heading: Option<string>, para: Option<Ref>, pending := None, None, false;
    chapters := map[];
    for i := 0 to |lines|
      invariant Scan(lines[..i]) == State(std, chap, heading, para, pending, chapters)
      invariant std.Some? ==> Key(std.value, chap) in chapters
    {
      var line := lines[i];
      assert lines[..i + 1][..i] == lines[..i];
      if OpensChapter(line) {
        var h := ChapterHeader(line).value;
        std, chap, heading, pending, para := Some(h.std), h.chap, None, false, None;
        chapters := SetDefault(chapters, Key(h.std, h.chap));
        continue;
      }
      if IsFooter(line) {
        continue;
      }
      if std.None? {
        continue;
      }
      if !IsFlushLeft(line) {
        if para.Some? && Strip(line) != "" {
          AppendKeepsKeys(chapters, para.value, Piece(i, Strip(line)));
          chapters := AppendTo(chapters, para.value, Piece(i, Strip(line)));
        }
        continue;
      }
      var start := ParagraphStart(line);
      if start.Some? {
        var p := start.value;
        var number := PrefixNumber(p.prefix);
        if number != chap {
          chap := number;
          chapters := SetDefault(chapters, Key(std.value, chap));
        }
        var key := Key(std.value, chap);
        para := Some(Ref(key, |chapters[key]|));
        chapters := chapters[key := chapters[key] +
                             [Para(p.prefix, p.item, heading, if p.rest == "" then [] else [Piece(i, p.rest)])]];
        pending := false;
        continue;
      }
      if IsSupplement(Strip(line)) {
        pending, para := false, None;
        continue;
      }
      if pending && IsWrapped(line) {
        heading := ExtendHeading(heading, line);
        continue;
      }
      if LooksHeading(line) {
        heading, pending, para := Some(Strip(line)), true, None;
      }
    }
    assert lines[..|lines|] == lines;
  }

  // ---------------------------------------------------------------- the rows written out

  function Joined(pieces: seq<Piece>): string {
    if pieces == [] then ""
    else if |pieces| == 1 then pieces[0].text
    else Joined(pieces[..|pieces| - 1]) + " " + pieces[|pieces| - 1].text
  }

  /** Runs of blanks become one space. */
  function Collapse(s: string): string {
    if s == "" then ""
    else if IsBlank(s[0]) then " " + Collapse(s[Blanks(s)..])
    else [s[0]] + Collapse(s[1..])
  }

  function RowText(p: Para): string {
    Strip(Collapse(Joined(p.pieces)))
  }
}
