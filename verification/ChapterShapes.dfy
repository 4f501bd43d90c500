/**
 The shapes of the extractor's lines, each stated as what the line is made of.
 */
module ChapterShapes {
  import opened Wrappers
  import opened ChapterExtract

  // ---------------------------------------------------------------- characters

  /** White space, by code point. */
  predicate Space(c: char) {
    var n := c as int;
    9 <= n <= 13 || 28 <= n <= 32 || n == 133 || n == 160 || n == 5760 || 8192 <= n <= 8202 ||
    n in {8232, 8233, 8239, 8287, 12288}
  }

  predicate AllSpace(s: string) {
    forall i | 0 <= i < |s| :: Space(s[i])
  }

  predicate AllDigits(s: string) {
    forall i | 0 <= i < |s| :: '0' <= s[i] <= '9'
  }

  predicate AllCapitals(s: string) {
    forall i | 0 <= i < |s| :: 'A' <= s[i] <= 'Z'
  }

  /** Neither end is white space. */
  predicate Bare(s: string) {
    s == "" || (!Space(s[0]) && !Space(s[|s| - 1]))
  }

  /** Two decimal digits and the number they read. */
  predicate Reads(tens: char, units: char, n: nat) {
    exists x, y | 0 <= x < 10 && 0 <= y < 10 ::
      "0123456789"[x] == tens && "0123456789"[y] == units && n == 10 * x + y
  }

  lemma NumberReads(tens: char, units: char)
    requires IsDigit(tens) && IsDigit(units)
    ensures forall n: nat :: Reads(tens, units, n) <==> n == Number(tens, units)
  {
    var x, y := tens as int - 48, units as int - 48;
    assert forall i | 0 <= i < 10 :: "0123456789"[i] as int == 48 + i;
    assert "0123456789"[x] == tens && "0123456789"[y] == units;
  }

  // ---------------------------------------------------------------- runs

  /** A run ends where its class ends. */
  lemma {:induction false} RunOfBlanks(a: string, b: string)
    requires AllSpace(a) && (b == "" || !Space(b[0]))
    ensures Blanks(a + b) == |a|
  {
    if a == "" {
      assert a + b == b;
    } else {
      assert (a + b)[1..] == a[1..] + b;
      RunOfBlanks(a[1..], b);
    }
  }

  lemma {:induction false} RunOfCapitals(a: string, b: string)
    requires AllCapitals(a) && (b == "" || !('A' <= b[0] <= 'Z'))
    ensures Uppers(a + b) == |a|
  {
    if a == "" {
      assert a + b == b;
    } else {
      assert (a + b)[1..] == a[1..] + b;
      RunOfCapitals(a[1..], b);
    }
  }

  lemma {:induction false} RunOfDigits(a: string, b: string)
    requires AllDigits(a) && (b == "" || !('0' <= b[0] <= '9'))
    ensures Digits(a + b) == |a|
  {
    if a == "" {
      assert a + b == b;
    } else {
      assert (a + b)[1..] == a[1..] + b;
      RunOfDigits(a[1..], b);
    }
  }

  // ---------------------------------------------------------------- stripping

  predicate Around(s: string, lead: string, t: string, trail: string) {
    s == lead + t + trail && AllSpace(lead) && AllSpace(trail) && Bare(t)
  }

  /** `t` is `s` without the white space at its ends. */
  ghost predicate Stripped(s: string, t: string) {
    exists lead, trail :: Around(s, lead, t, trail)
  }

  lemma {:induction false} TrimEndIs(t: string, trail: string)
    requires AllSpace(trail) && (t == "" || !Space(t[|t| - 1]))
    ensures TrimEnd(t + trail) == t
  {
    if trail == "" {
      assert t + trail == t;
    } else {
      var n := |trail| - 1;
      assert (t + trail)[..|t + trail| - 1] == t + trail[..n];
      TrimEndIs(t, trail[..n]);
    }
  }

  lemma LastBack(s: string, a: string, b: string)
    requires s != "" && s[..|s| - 1] == a + b
    ensures s == a + (b + [s[|s| - 1]])
  {
    assert s == s[..|s| - 1] + [s[|s| - 1]];
  }

  lemma {:induction false} TrimEndParts(s: string) returns (trail: string)
    ensures s == TrimEnd(s) + trail && AllSpace(trail)
    ensures TrimEnd(s) == "" || !Space(TrimEnd(s)[|TrimEnd(s)| - 1])
  {
    hide IsBlank, Space;
    if s != "" { BlankIsSpace(s[|s| - 1]); }
    if s != "" && IsBlank(s[|s| - 1]) {
      var n := |s| - 1;
      var before := TrimEndParts(s[..n]);
      trail := before + [s[n]];
      LastBack(s, TrimEnd(s[..n]), before);
    } else {
      trail := "";
    }
  }

  lemma StripsTo(s: string, lead: string, t: string, trail: string)
    requires Around(s, lead, t, trail)
    ensures Strip(s) == t
  {
    if t == "" {
      RunOfBlanks(s, "");
      assert s + "" == s && s[|s|..] == "";
    } else {
      RunOfBlanks(lead, t + trail);
      assert lead + (t + trail) == s && s[|lead|..] == t + trail;
      TrimEndIs(t, trail);
    }
  }

  lemma StripIs(s: string)
    ensures Stripped(s, Strip(s))
    ensures forall t :: Stripped(s, t) ==> t == Strip(s)
  {
    hide Space, TrimEnd, Blanks;
    var b := Blanks(s);
    BlankRun(s, b);
    var lead, text := s[..b], s[b..];
    var trail := TrimEndParts(text);
    var t := TrimEnd(text);
    assert t != "" ==> t[0] == text[0];
    assert s == lead + text;
    assert Around(s, lead, t, trail);
    forall t | Stripped(s, t) ensures t == Strip(s) {
      var l, r :| Around(s, l, t, r);
      StripsTo(s, l, t, r);
    }
  }

  // ---------------------------------------------------------------- chapter headers

  predicate HeaderParts(line: string, lead: string, std: string, tens: char, units: char, trail: string) {
    && line == lead + std + [tens, units] + trail
    && |lead| >= 8 && AllSpace(lead) && 2 <= |std| <= 4 && AllCapitals(std) && AllDigits([tens, units])
    && AllSpace(trail)
  }

  /** Eight or more spaces, two to four capitals, two digits, spaces. */
  ghost predicate HeaderLine(line: string, std: string, chap: nat) {
    exists lead, tens, units, trail :: HeaderParts(line, lead, std, tens, units, trail) && Reads(tens, units, chap)
  }

  lemma Regrouped(a: string, b: string, c: string, d: string)
    ensures a + b + c + d == a + (b + (c + d))
    ensures (a + b + c + d)[|a|..] == b + (c + d)
    ensures (b + (c + d))[..|b|] == b && (b + (c + d))[|b| + |c|..] == d
  {}

  lemma HeaderFromParts(line: string, lead: string, std: string, tens: char, units: char, trail: string)
    requires HeaderParts(line, lead, std, tens, units, trail)
    ensures AllDigits([tens, units]) && IsDigit(tens) && IsDigit(units)
    ensures ChapterHeader(line) == Some(Header(std, Number(tens, units)))
  {
    hide Space, Number;
    var two := [tens, units];
    assert two[0] == tens && two[1] == units && !Space(std[0]) by { NoSpace(std); }
    var rest := std + (two + trail);
    Regrouped(lead, std, two, trail);
    RunOfBlanks(lead, rest);
    RunOfCapitals(std, two + trail);
    RunOfBlanks(trail, "");
    assert trail + "" == trail;
    assert rest[|std|] == tens && rest[|std| + 1] == units;
  }

  lemma NoSpace(s: string)
    requires s != "" && (AllCapitals(s) || AllDigits(s))
    ensures !Space(s[0])
  {}

  lemma TwoInside(rest: string, u: nat)
    requires u + 2 <= |rest|
    ensures rest == rest[..u] + ([rest[u], rest[u + 1]] + rest[u + 2..])
  {}

  lemma PartsOfHeader(line: string) returns (lead: string, std: string, tens: char, units: char, trail: string)
    requires ChapterHeader(line).Some?
    ensures HeaderParts(line, lead, std, tens, units, trail) && IsDigit(tens) && IsDigit(units)
    ensures ChapterHeader(line).value == Header(std, Number(tens, units))
  {
    hide Number, Space, Blanks, Uppers;
    var b := Blanks(line);
    var rest := line[b..];
    var u := Uppers(rest);
    lead, std, tens, units, trail := line[..b], rest[..u], rest[u], rest[u + 1], rest[u + 2..];
    BlankRun(line, b);
    CapitalRun(rest, u);
    BlankRun(trail, |trail|);
    assert trail[..|trail|] == trail;
    TwoDigits(tens, units);
    TwoInside(rest, u);
    assert line == lead + rest;
    Regrouped(lead, std, [tens, units], trail);
  }

  lemma TwoDigits(tens: char, units: char)
    requires IsDigit(tens) && IsDigit(units)
    ensures AllDigits([tens, units])
  {}

  lemma BlankRun(s: string, n: nat)
    requires n == Blanks(s)
    ensures n <= |s| && AllSpace(s[..n]) && (n < |s| ==> !Space(s[n]))
  {
    hide Blanks;
    forall c: char ensures IsBlank(c) <==> Space(c) { BlankIsSpace(c); }
    hide IsBlank, Space;
  }

  lemma BlankIsSpace(c: char)
    ensures IsBlank(c) <==> Space(c)
  {}

  lemma CapitalRun(s: string, n: nat)
    requires n == Uppers(s)
    ensures n <= |s| && AllCapitals(s[..n])
  {}

  lemma DigitRun(s: string, n: nat)
    requires n == Digits(s)
    ensures n <= |s| && AllDigits(s[..n])
  {}

  lemma HeaderIs(line: string, std: string, chap: nat)
    ensures ChapterHeader(line) == Some(Header(std, chap)) <==> HeaderLine(line, std, chap)
  {
    hide ChapterHeader, HeaderParts, Reads, Number;
    if ChapterHeader(line).Some? {
      var lead, word, tens, units, trail := PartsOfHeader(line);
      NumberReads(tens, units);
    }
    if HeaderLine(line, std, chap) {
      var lead, tens, units, trail :| HeaderParts(line, lead, std, tens, units, trail) && Reads(tens, units, chap);
      HeaderFromParts(line, lead, std, tens, units, trail);
      NumberReads(tens, units);
    }
  }

  // ---------------------------------------------------------------- paragraph starts

  predicate StartParts(line: string, prefix: string, item: string, gap: string, rest: string, trail: string) {
    && line == prefix + "." + item + gap + rest + trail
    && |prefix| == 2 && AllDigits(prefix) && item != "" && AllDigits(item) && gap != "" && AllSpace(gap)
    && rest != "" && Bare(rest) && AllSpace(trail)
  }

  /** Two digits, a full stop, digits, spaces, text. */
  ghost predicate StartLine(line: string, prefix: string, item: string, rest: string) {
    exists gap, trail :: StartParts(line, prefix, item, gap, rest, trail)
  }

  lemma StartGrouped(a: string, b: string, c: string, d: string, e: string)
    requires |a| == 2
    ensures var line := a + "." + b + c + d + e;
            && line[0] == a[0] && line[1] == a[1] && line[2] == '.' && line[..2] == a
            && line[3..] == b + (c + (d + e)) && line[3..3 + |b|] == b && line[3 + |b|..] == c + (d + e)
    ensures (c + (d + e))[|c|..] == d + e && "" + d + e == d + e
  {
    var line := a + "." + b + c + d + e;
    assert line == a + "." + (b + (c + (d + e)));
  }

  lemma StartFromParts(line: string, prefix: string, item: string, gap: string, rest: string, trail: string)
    requires StartParts(line, prefix, item, gap, rest, trail)
    ensures ParagraphStart(line) == Some(Start(prefix, item, rest))
  {
    hide Space, Strip;
    StartGrouped(prefix, item, gap, rest, trail);
    NotDigit(gap);
    RunOfDigits(item, gap + (rest + trail));
    RunOfBlanks(gap, rest + trail);
    StripsTo(rest + trail, "", rest, trail);
    assert IsDigit(prefix[0]) && IsDigit(prefix[1]);
  }

  lemma NotDigit(s: string)
    requires s != "" && AllSpace(s)
    ensures !('0' <= s[0] <= '9')
  {}

  lemma StartCut(line: string, d: nat, b: nat, rest: string, trail: string)
    requires |line| >= 3 + d + b && line[2] == '.' && line[3 + d..][b..] == rest + trail
    ensures line == line[..2] + "." + line[3..3 + d] + line[3 + d..][..b] + rest + trail
    ensures line[3..][..d] == line[3..3 + d] && line[3..][d..] == line[3 + d..]
  {
    assert line == line[..2] + "." + line[3..3 + d] + line[3 + d..][..b] + line[3 + d..][b..];
  }

  lemma PartsOfStart(line: string)
    requires ParagraphStart(line).Some?
    ensures var p := ParagraphStart(line).value; StartLine(line, p.prefix, p.item, p.rest)
  {
    hide Space, TrimEnd, Strip, Digits, Blanks;
    var p := ParagraphStart(line).value;
    var d := Digits(line[3..]);
    var after := line[3 + d..];
    var b := Blanks(after);
    DigitRun(line[3..], d);
    BlankRun(after, b);
    var trail := StrippedText(after[b..]);
    StartCut(line, d, b, p.rest, trail);
    assert StartParts(line, p.prefix, p.item, after[..b], p.rest, trail);
  }

  lemma StrippedText(text: string) returns (trail: string)
    requires text != "" && !Space(text[0])
    ensures text == Strip(text) + trail && AllSpace(trail) && Strip(text) != "" && Bare(Strip(text))
  {
    trail := TrimEndParts(text);
    RunOfBlanks("", text);
    assert "" + text == text && text[0..] == text;
    assert Strip(text) == TrimEnd(text);
    var t := TrimEnd(text);
    assert t + trail == text && (t == "" ==> text == trail);
    assert t != "" ==> t[0] == text[0];
  }

  lemma StartIs(line: string)
    ensures forall prefix, item, rest ::
              ParagraphStart(line) == Some(Start(prefix, item, rest)) <==> StartLine(line, prefix, item, rest)
  {
    hide ParagraphStart, StartParts;
    if ParagraphStart(line).Some? {
      PartsOfStart(line);
    }
    forall prefix, item, rest | StartLine(line, prefix, item, rest)
      ensures ParagraphStart(line) == Some(Start(prefix, item, rest))
    {
      var gap, trail :| StartParts(line, prefix, item, gap, rest, trail);
      StartFromParts(line, prefix, item, gap, rest, trail);
    }
  }

  // ---------------------------------------------------------------- footers

  predicate Stamp(line: string, before: string, after: string) {
    line == before + "Downloaded on" + after
  }

  predicate PageCount(line: string, lead: string, page: string, pages: string, trail: string) {
    && line == lead + page + "/" + pages + trail && AllSpace(lead) && AllSpace(trail)
    && page != "" && AllDigits(page) && |pages| >= 3 && AllDigits(pages)
  }

  /** The download stamp anywhere, or a page number out of three or more digits, alone. */
  ghost predicate FooterLine(line: string) {
    || (exists before, after :: Stamp(line, before, after))
    || (exists lead, page, pages, trail :: PageCount(line, lead, page, pages, trail))
  }

  lemma StampIs(line: string)
    ensures Contains(line, "Downloaded on") <==> exists before, after :: Stamp(line, before, after)
  {
    var word := "Downloaded on";
    if Contains(line, word) {
      var i :| 0 <= i <= |line| && word <= line[i..];
      assert line == line[..i] + word + line[i..][|word|..];
      assert Stamp(line, line[..i], line[i..][|word|..]);
    }
    if before, after :| Stamp(line, before, after) {
      assert line[|before|..] == word + after;
    }
  }

  predicate IsPageCount(line: string) {
    var s := line[Blanks(line)..];
    var d := Digits(s);
    d >= 1 && d < |s| && s[d] == '/' && IsPages(s[d + 1..])
  }

  predicate IsPages(t: string) {
    Digits(t) >= 3 && Blanks(t[Digits(t)..]) == |t| - Digits(t)
  }

  lemma PagesParts(t: string) returns (pages: string, trail: string)
    requires IsPages(t)
    ensures t == pages + trail && |pages| >= 3 && AllDigits(pages) && AllSpace(trail)
  {
    hide Space, Digits, Blanks;
    pages, trail := t[..Digits(t)], t[Digits(t)..];
    DigitRun(t, Digits(t));
    BlankRun(trail, |trail|);
    assert trail[..|trail|] == trail;
  }

  lemma PagesFrom(pages: string, trail: string)
    requires |pages| >= 3 && AllDigits(pages) && AllSpace(trail)
    ensures IsPages(pages + trail)
  {
    if trail != "" { NotDigit(trail); }
    RunOfDigits(pages, trail);
    assert (pages + trail)[|pages|..] == trail && trail + "" == trail;
    RunOfBlanks(trail, "");
  }

  lemma CutAt(s: string, d: nat)
    requires d < |s| && s[d] == '/'
    ensures s == s[..d] + "/" + s[d + 1..]
  {}

  lemma PageGrouped(a: string, b: string, c: string, d: string)
    ensures a + b + "/" + c + d == a + (b + ("/" + (c + d)))
    ensures (a + (b + ("/" + (c + d))))[|a|..] == b + ("/" + (c + d))
    ensures (b + ("/" + (c + d)))[|b|] == '/' && (b + ("/" + (c + d)))[|b| + 1..] == c + d
    ensures a + (b + "/" + (c + d)) == a + b + "/" + c + d
  {}

  lemma PageCountIs(line: string)
    ensures IsPageCount(line) <==> exists lead, page, pages, trail :: PageCount(line, lead, page, pages, trail)
  {
    hide Space, Digits, Blanks, IsPages;
    if IsPageCount(line) {
      var b := Blanks(line);
      var s := line[b..];
      var d := Digits(s);
      var pages, trail := PagesParts(s[d + 1..]);
      BlankRun(line, b);
      DigitRun(s, d);
      CutAt(s, d);
      PageGrouped(line[..b], s[..d], pages, trail);
      assert line == line[..b] + s;
      assert PageCount(line, line[..b], s[..d], pages, trail);
    }
    if lead, page, pages, trail :| PageCount(line, lead, page, pages, trail) {
      PageFrom(line, lead, page, pages, trail);
    }
  }

  lemma PageFrom(line: string, lead: string, page: string, pages: string, trail: string)
    requires PageCount(line, lead, page, pages, trail)
    ensures IsPageCount(line)
  {
    hide Space, Digits, Blanks, IsPages;
    var s := page + ("/" + (pages + trail));
    PageGrouped(lead, page, pages, trail);
    NoSpace(page);
    RunOfBlanks(lead, s);
    RunOfDigits(page, "/" + (pages + trail));
    PagesFrom(pages, trail);
  }

  lemma FooterIs(line: string)
    ensures IsFooter(line) <==> FooterLine(line)
  {
    hide Stamp, PageCount, Blanks, Digits, Contains;
    StampIs(line);
    PageCountIs(line);
    assert IsFooter(line) <==> Contains(line, "Downloaded on") || IsPageCount(line);
  }

  // ---------------------------------------------------------------- supplementary material and headings

  /** The same letter, in capitals or not; `w` is in small letters. */
  predicate SameLetter(c: char, w: char) {
    c == w || ('a' <= w <= 'z' && c as int == w as int - 32)
  }

  predicate Spells(s: string, word: string) {
    |s| == |word| && forall i | 0 <= i < |s| :: SameLetter(s[i], word[i])
  }

  predicate SupplementHead(s: string) {
    || Spells(s, "footnote") || Spells(s, "footnotes") || Spells(s, "version effective") || Spells(s, "example")
    || Spells(s, "examples")
    || (|s| >= 3 && Spells(s[..3], "faq") && AllDigits(s[3..]))
    || (|s| == 7 && Spells(s[..6], "table ") && AllDigits(s[6..]))
  }

  predicate WordCharacter(c: char) {
    'a' <= c <= 'z' || 'A' <= c <= 'Z' || '0' <= c <= '9' || c == '_'
  }

  /** One of the six words, in full. */
  predicate Supplement(s: string) {
    exists k | 0 <= k <= |s| :: SupplementHead(s[..k]) && (k == |s| || !WordCharacter(s[k]))
  }

  lemma FoldIs(c: char, w: char)
    requires w == ' ' || 'a' <= w <= 'z'
    ensures Fold(c) == w <==> SameLetter(c, w)
  {}

  predicate Small(word: string) {
    forall i | 0 <= i < |word| :: word[i] == ' ' || 'a' <= word[i] <= 'z'
  }

  lemma StartIsSpelled(s: string, word: string)
    requires Small(word)
    ensures StartsWith(s, word) <==> |word| <= |s| && Spells(s[..|word|], word)
  {
    hide Fold, SameLetter;
    if |word| <= |s| {
      forall i | 0 <= i < |word| ensures Fold(s[i]) == word[i] <==> SameLetter(s[..|word|][i], word[i]) {
        FoldIs(s[i], word[i]);
      }
    }
  }

  lemma BoundaryIs(s: string, k: nat)
    ensures k <= |s| ==> (Boundary(s, k) <==> k == |s| || !WordCharacter(s[k]))
  {}

  predicate EndsAt(s: string, k: nat) {
    k <= |s| && (k == |s| || !WordCharacter(s[k]))
  }

  /** A fixed word at the start, ending there. */
  predicate Word(s: string, word: string) {
    exists k | 0 <= k <= |s| :: Spells(s[..k], word) && EndsAt(s, k)
  }

  predicate Faq(s: string) {
    exists k | 3 <= k <= |s| :: Spells(s[..3], "faq") && AllDigits(s[3..k]) && EndsAt(s, k)
  }

  predicate TableOne(s: string) {
    |s| >= 7 && Spells(s[..6], "table ") && AllDigits(s[6..7]) && EndsAt(s, 7)
  }

  lemma WordIs(s: string, word: string)
    requires Small(word)
    ensures StartsWith(s, word) && Boundary(s, |word|) <==> Word(s, word)
  {
    StartIsSpelled(s, word);
    hide SameLetter, WordCharacter, StartsWith;
    if StartsWith(s, word) {
      BoundaryIs(s, |word|);
    }
    if k :| 0 <= k <= |s| && Spells(s[..k], word) && EndsAt(s, k) {
      BoundaryIs(s, k);
      assert k == |word|;
    }
  }

  lemma FaqIs(s: string)
    ensures StartsWith(s, "faq") && Boundary(s, 3 + Digits(s[3..])) <==> Faq(s)
  {
    StartIsSpelled(s, "faq");
    hide SameLetter, StartsWith;
    if StartsWith(s, "faq") {
      var d := Digits(s[3..]);
      DigitRun(s[3..], d);
      assert s[3..][..d] == s[3..3 + d];
      BoundaryIs(s, 3 + d);
    }
    if k :| 3 <= k <= |s| && Spells(s[..3], "faq") && AllDigits(s[3..k]) && EndsAt(s, k) {
      assert s[3..] == s[3..k] + s[k..];
      RunOfDigits(s[3..k], s[k..]);
      BoundaryIs(s, k);
    }
  }

  lemma TableIs(s: string)
    ensures StartsWith(s, "table ") && |s| > 6 && IsDigit(s[6]) && Boundary(s, 7) <==> TableOne(s)
  {
    StartIsSpelled(s, "table ");
    hide SameLetter, StartsWith, Boundary, WordCharacter;
    if |s| > 6 {
      assert s[6..7] == [s[6]];
      assert s[6..7][0] == s[6];
      BoundaryIs(s, 7);
    }
  }

  /** Which of the six openings a supplement has. */
  predicate SupplementBy(s: string) {
    || Faq(s) || Word(s, "footnotes") || Word(s, "footnote") || TableOne(s) || Word(s, "version effective")
    || Word(s, "examples") || Word(s, "example")
  }

  lemma SupplementCases(s: string)
    ensures Supplement(s) <==> SupplementBy(s)
  {
    hide Spells, AllDigits, WordCharacter;
    if k :| 0 <= k <= |s| && SupplementHead(s[..k]) && (k == |s| || !WordCharacter(s[k])) {
      assert EndsAt(s, k);
      assert k >= 3 ==> s[..k][..3] == s[..3] && s[..k][3..] == s[3..k];
      assert k == 7 ==> s[..k][..6] == s[..6] && s[..k][6..] == s[6..7];
    }
    if SupplementBy(s) {
      if Faq(s) {
        var k :| 3 <= k <= |s| && Spells(s[..3], "faq") && AllDigits(s[3..k]) && EndsAt(s, k);
        assert s[..k][..3] == s[..3] && s[..k][3..] == s[3..k];
        assert SupplementHead(s[..k]);
      } else if TableOne(s) {
        assert s[..7][..6] == s[..6] && s[..7][6..] == s[6..7];
        assert SupplementHead(s[..7]);
      } else {
        var k :| 0 <= k <= |s| && EndsAt(s, k) &&
                 (Spells(s[..k], "footnotes") || Spells(s[..k], "footnote") || Spells(s[..k], "version effective") ||
                  Spells(s[..k], "examples") || Spells(s[..k], "example"));
        assert SupplementHead(s[..k]);
      }
    }
  }

  lemma FootnotesAre(s: string)
    ensures StartsWith(s, "footnotes") && Boundary(s, 9) <==> Word(s, "footnotes")
    ensures StartsWith(s, "footnote") && Boundary(s, 8) <==> Word(s, "footnote")
  {
    WordIs(s, "footnotes");
    WordIs(s, "footnote");
    hide StartsWith, Boundary, Word;
  }

  lemma ExamplesAre(s: string)
    ensures StartsWith(s, "examples") && Boundary(s, 8) <==> Word(s, "examples")
    ensures StartsWith(s, "example") && Boundary(s, 7) <==> Word(s, "example")
  {
    WordIs(s, "examples");
    WordIs(s, "example");
    hide StartsWith, Boundary, Word;
  }

  lemma VersionIs(s: string)
    ensures StartsWith(s, "version effective") && Boundary(s, 17) <==> Word(s, "version effective")
  {
    WordIs(s, "version effective");
    hide StartsWith, Boundary, Word;
  }

  lemma SupplementIs(s: string)
    ensures IsSupplement(s) <==> Supplement(s)
  {
    hide Supplement, StartsWith, Boundary, Faq, Word, TableOne, Small;
    FaqIs(s);
    FootnotesAre(s);
    TableIs(s);
    VersionIs(s);
    ExamplesAre(s);
    SupplementCases(s);
  }

  /** Two to four capitals and a digit. */
  predicate CrossReference(s: string) {
    exists k | 2 <= k <= 4 :: k < |s| && AllCapitals(s[..k]) && '0' <= s[k] <= '9'
  }

  lemma CrossReferenceIs(s: string)
    ensures IsCrossReference(s) <==> CrossReference(s)
  {
    hide Uppers;
    CapitalRun(s, Uppers(s));
    assert forall k | 0 <= k <= |s| :: AllCapitals(s[..k]) <==> k <= Uppers(s) by {
      forall k | 0 <= k <= |s| ensures AllCapitals(s[..k]) <==> k <= Uppers(s) {
        if k > Uppers(s) {
          assert s[..k][Uppers(s)] == s[Uppers(s)];
        }
      }
    }
  }

  /** At most ninety characters, opening with a capital or a bracket, with some small letter, and neither
      supplementary nor a bare cross-reference. */
  ghost predicate HeadingText(t: string) {
    && 0 < |t| <= 90 && !Supplement(t) && !CrossReference(t)
    && ('A' <= t[0] <= 'Z' || t[0] == '(')
    && exists i | 0 <= i < |t| :: 'a' <= t[i] <= 'z'
  }

  lemma HeadingIs(line: string, t: string)
    requires Stripped(line, t)
    ensures LooksHeading(line) <==> HeadingText(t)
    ensures IsWrapped(line) <==> t != "" && 'a' <= t[0] <= 'z'
  {
    StripIs(line);
    SupplementIs(t);
    CrossReferenceIs(t);
    hide Stripped, Strip, IsSupplement, Supplement, CrossReference, IsCrossReference;
  }

  lemma FlushIs(line: string)
    ensures IsFlushLeft(line) <==> line != "" && !Space(line[0])
  {}

  /** The chapters the extractor keeps. */
  ghost predicate OpensLine(line: string) {
    exists std, chap: nat :: HeaderLine(line, std, chap) &&
      std in {"SCO", "CAP", "CRE", "MAR", "LCR", "NSF", "LEV", "LEX", "DIS", "RBC", "OPE", "SRP", "BCP", "MGN", "CVA"}
  }

  lemma OpensIs(line: string)
    ensures OpensChapter(line) <==> OpensLine(line)
  {
    hide ChapterHeader, HeaderLine;
    forall std, chap: nat ensures ChapterHeader(line) == Some(Header(std, chap)) <==> HeaderLine(line, std, chap) {
      HeaderIs(line, std, chap);
    }
    if OpensChapter(line) {
      var h := ChapterHeader(line).value;
      assert HeaderLine(line, h.std, h.chap);
    }
  }
}
