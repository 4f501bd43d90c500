/** Strings as the JavaScript runtime sees them: white space, trimming, splitting and joining. */
module Text {
  import Sequences

  /** The characters `\s` and `trim` treat as white space. */
  predicate IsSpace(c: char) {
    || c == ' ' || '\t' <= c <= '\r' || c == '\U{A0}' || c == '\U{1680}' || '\U{2000}' <= c <= '\U{200A}'
    || c == '\U{2028}' || c == '\U{2029}' || c == '\U{202F}' || c == '\U{205F}' || c == '\U{3000}' || c == '\U{FEFF}'
  }

  /** The characters `.` does not match. */
  predicate IsLineTerminator(c: char) {
    c == '\n' || c == '\r' || c == '\U{2028}' || c == '\U{2029}'
  }

  predicate Blank(s: string) {
    forall i | 0 <= i < |s| :: IsSpace(s[i])
  }

  function TrimStart(s: string): string {
    if s != "" && IsSpace(s[0]) then TrimStart(s[1..]) else s
  }

  function TrimEnd(s: string): string {
    if s != "" && IsSpace(s[|s| - 1]) then TrimEnd(s[..|s| - 1]) else s
  }

  function Trim(s: string): string {
    TrimEnd(TrimStart(s))
  }

  predicate Trimmed(s: string) {
    s == "" || (!IsSpace(s[0]) && !IsSpace(s[|s| - 1]))
  }

  /** Trimming the start splits a string into white space and the rest. */
  lemma {:induction false} TrimStartParts(s: string) returns (lead: string)
    ensures s == lead + TrimStart(s) && Blank(lead)
    ensures TrimStart(s) == "" || !IsSpace(TrimStart(s)[0])
  {
    if s != "" && IsSpace(s[0]) {
      lead := TrimStartParts(s[1..]);
      lead := [s[0]] + lead;
      assert s == [s[0]] + s[1..];
    } else {
      lead := "";
    }
  }

  lemma {:induction false} TrimEndParts(s: string) returns (trail: string)
    ensures s == TrimEnd(s) + trail && Blank(trail)
    ensures TrimEnd(s) == "" || !IsSpace(TrimEnd(s)[|TrimEnd(s)| - 1])
  {
    if s != "" && IsSpace(s[|s| - 1]) {
      trail := TrimEndParts(s[..|s| - 1]);
      trail := trail + [s[|s| - 1]];
      assert s == s[..|s| - 1] + [s[|s| - 1]];
    } else {
      trail := "";
    }
  }

  lemma TrimIsTrimmed(s: string)
    ensures Trimmed(Trim(s))
  {
    var lead := TrimStartParts(s);
    var t := TrimStart(s);
    var trail := TrimEndParts(t);
    hide TrimEnd, TrimStart;
    if TrimEnd(t) != "" {
      assert t[0] == TrimEnd(t)[0];
    }
  }

  /** Trimming splits a string into white space, a trimmed string and white space. */
  lemma TrimParts(s: string) returns (lead: string, trail: string)
    ensures s == lead + Trim(s) + trail && Blank(lead) && Blank(trail) && Trimmed(Trim(s))
  {
    lead := TrimStartParts(s);
    trail := TrimEndParts(TrimStart(s));
    assert TrimStart(s) == Trim(s) + trail;
    assert Trimmed(Trim(s)) by { TrimIsTrimmed(s); }
    hide *;
    Sequences.Assoc(lead, Trim(s), trail);
  }

  lemma TrimOfTrimmed(s: string)
    requires Trimmed(s)
    ensures Trim(s) == s
  {
  }

  lemma TrimToNothing(s: string)
    ensures Trim(s) == "" <==> Blank(s)
  {
    var lead, trail := TrimParts(s);
    if Trim(s) != "" {
      assert s[|lead|] == Trim(s)[0];
    }
  }

  /** Padding a trimmed string with blanks and trimming it gives the string back. */
  lemma TrimPadded(before: string, s: string, after: string)
    requires Blank(before) && Blank(after) && Trimmed(s)
    ensures Trim(before + s + after) == s
  {
    var p := before + s + after;
    if s == "" {
      forall i | 0 <= i < |p| ensures IsSpace(p[i]) {
        if i < |before| { assert p[i] == before[i]; } else { assert p[i] == after[i - |before|]; }
      }
      TrimToNothing(p);
    } else {
      TrimStartPadded(before, s + after);
      assert before + (s + after) == p;
      TrimEndPadded(s, after);
    }
  }

  lemma {:induction false} TrimStartPadded(before: string, s: string)
    requires Blank(before) && s != "" && !IsSpace(s[0])
    ensures TrimStart(before + s) == s
  {
    if before == "" {
      assert before + s == s;
    } else {
      assert (before + s)[0] == before[0] && (before + s)[1..] == before[1..] + s;
      TrimStartPadded(before[1..], s);
    }
  }

  lemma {:induction false} TrimEndPadded(s: string, after: string)
    requires Blank(after) && s != "" && !IsSpace(s[|s| - 1])
    ensures TrimEnd(s + after) == s
    decreases |after|
  {
    if after == "" {
      assert s + after == s;
    } else {
      var n := |after| - 1;
      assert (s + after)[|s + after| - 1] == after[n] && (s + after)[..|s + after| - 1] == s + after[..n];
      TrimEndPadded(s, after[..n]);
    }
  }

  // ---- Splitting and joining ----

  function Split(s: string, sep: char): (parts: seq<string>)
    ensures |parts| >= 1
  {
    if s == "" then [""]
    else
      var rest := Split(s[1..], sep);
      if s[0] == sep then [""] + rest else [[s[0]] + rest[0]] + rest[1..]
  }

  function Join(parts: seq<string>, sep: string): string {
    if parts == [] then ""
    else if |parts| == 1 then parts[0]
    else parts[0] + sep + Join(parts[1..], sep)
  }

  lemma JoinUnfold(first: string, rest: seq<string>, sep: string)
    requires rest != []
    ensures Join([first] + rest, sep) == first + sep + Join(rest, sep)
  {
    assert ([first] + rest)[1..] == rest;
  }

  /** Putting a character in front of the first part. */
  lemma JoinPush(c: char, parts: seq<string>, sep: string)
    requires parts != []
    ensures Join([[c] + parts[0]] + parts[1..], sep) == [c] + Join(parts, sep)
  {
    if |parts| == 1 {
      assert [[c] + parts[0]] + parts[1..] == [[c] + parts[0]];
    } else {
      JoinUnfold([c] + parts[0], parts[1..], sep);
      JoinUnfold(parts[0], parts[1..], sep);
      hide *;
      assert parts == [parts[0]] + parts[1..];
      Sequences.Assoc([c], parts[0] + sep, Join(parts[1..], sep));
      Sequences.Assoc([c], parts[0], sep);
    }
  }

  lemma {:induction false} JoinOfSplit(s: string, sep: char)
    ensures Join(Split(s, sep), [sep]) == s
  {
    if s != "" {
      var rest := Split(s[1..], sep);
      assert Split(s, sep) == if s[0] == sep then [""] + rest else [[s[0]] + rest[0]] + rest[1..];
      JoinOfSplit(s[1..], sep);
      hide *;
      assert s == [s[0]] + s[1..];
      JoinUnfold("", rest, [sep]);
      JoinPush(s[0], rest, [sep]);
    }
  }

  lemma {:induction false} SplitPiece(s: string, sep: char, i: nat)
    requires i < |Split(s, sep)|
    ensures sep !in Split(s, sep)[i] && forall c <- Split(s, sep)[i] :: c in s
  {
    if s != "" {
      var rest := Split(s[1..], sep);
      assert forall c <- s[1..] :: c in s;
      if s[0] == sep {
        if i > 0 { SplitPiece(s[1..], sep, i - 1); }
      } else {
        SplitPiece(s[1..], sep, i);
      }
    }
  }

  lemma SplitPieces(s: string, sep: char)
    ensures forall i | 0 <= i < |Split(s, sep)| :: sep !in Split(s, sep)[i]
    ensures forall i, c | 0 <= i < |Split(s, sep)| && c in Split(s, sep)[i] :: c in s
  {
    hide Split;
    forall i | 0 <= i < |Split(s, sep)| ensures sep !in Split(s, sep)[i] && forall c <- Split(s, sep)[i] :: c in s {
      SplitPiece(s, sep, i);
    }
  }

  lemma {:induction false} SplitWhole(s: string, sep: char)
    requires sep !in s
    ensures Split(s, sep) == [s]
  {
    if s != "" {
      SplitWhole(s[1..], sep);
      assert [s[0]] + s[1..] == s;
    }
  }

  lemma {:induction false} SplitFirst(s: string, sep: char, rest: string)
    requires sep !in s
    ensures Split(s + [sep] + rest, sep) == [s] + Split(rest, sep)
  {
    var t := s + [sep] + rest;
    if s == "" {
      assert t[0] == sep && t[1..] == rest;
    } else {
      assert t[0] == s[0] && t[1..] == s[1..] + [sep] + rest;
      SplitFirst(s[1..], sep, rest);
      var tail := [s[1..]] + Split(rest, sep);
      assert tail[1..] == Split(rest, sep) && [s[0]] + s[1..] == s;
    }
  }

  lemma {:induction false} SplitOfJoin(parts: seq<string>, sep: char)
    requires parts != [] && forall i | 0 <= i < |parts| :: sep !in parts[i]
    ensures Split(Join(parts, [sep]), sep) == parts
  {
    hide Split, Join;
    if |parts| == 1 {
      SplitWhole(parts[0], sep);
      JoinOfOne(parts[0], [sep]);
      assert parts == [parts[0]];
    } else {
      SplitOfJoin(parts[1..], sep);
      SplitFirst(parts[0], sep, Join(parts[1..], [sep]));
      JoinUnfold(parts[0], parts[1..], [sep]);
      assert parts == [parts[0]] + parts[1..];
    }
  }

  lemma JoinOfOne(part: string, sep: string)
    ensures Join([part], sep) == part
  {}

  // ---- Ink ----

  /** The characters of a string that are not white space, in order. */
  function Ink(s: string): string {
    if s == "" then "" else (if IsSpace(s[0]) then "" else [s[0]]) + Ink(s[1..])
  }

  lemma {:induction false} InkConcat(a: string, b: string)
    ensures Ink(a + b) == Ink(a) + Ink(b)
  {
    if a == "" {
      assert a + b == b;
    } else {
      assert (a + b)[0] == a[0] && (a + b)[1..] == a[1..] + b;
      InkConcat(a[1..], b);
    }
  }

  lemma {:induction false} InkOfBlank(s: string)
    requires Blank(s)
    ensures Ink(s) == ""
  {
    if s != "" { InkOfBlank(s[1..]); }
  }

  lemma InkOfTrim(s: string)
    ensures Ink(Trim(s)) == Ink(s)
  {
    var lead, trail := TrimParts(s);
    InkConcat(lead + Trim(s), trail);
    InkConcat(lead, Trim(s));
    InkOfBlank(lead);
    InkOfBlank(trail);
  }

  /** The ink of a list of strings, in order. */
  function InkOf(parts: seq<string>): string {
    if parts == [] then "" else Ink(parts[0]) + InkOf(parts[1..])
  }

  lemma {:induction false} InkOfConcat(a: seq<string>, b: seq<string>)
    ensures InkOf(a + b) == InkOf(a) + InkOf(b)
  {
    if a == [] {
      assert a + b == b;
    } else {
      assert (a + b)[0] == a[0] && (a + b)[1..] == a[1..] + b;
      InkOfConcat(a[1..], b);
    }
  }

  /** Joining with white space adds no ink. */
  lemma {:induction false} InkOfJoin(parts: seq<string>, sep: string)
    requires Blank(sep)
    ensures Ink(Join(parts, sep)) == InkOf(parts)
  {
    if |parts| == 1 {
      assert InkOf(parts[1..]) == "";
    } else if |parts| > 1 {
      InkOfJoin(parts[1..], sep);
      InkOfBlank(sep);
      InkConcat(parts[0] + sep, Join(parts[1..], sep));
      InkConcat(parts[0], sep);
    }
  }

  /** Two joins whose parts and separators have the same ink have the same ink. */
  lemma {:induction false} InkOfJoins(a: seq<string>, s: string, b: seq<string>, t: string)
    requires |a| == |b| && Ink(s) == Ink(t)
    requires forall i | 0 <= i < |a| :: Ink(a[i]) == Ink(b[i])
    ensures Ink(Join(a, s)) == Ink(Join(b, t))
  {
    if |a| > 1 {
      InkOfJoins(a[1..], s, b[1..], t);
      InkConcat(a[0] + s, Join(a[1..], s));
      InkConcat(a[0], s);
      InkConcat(b[0] + t, Join(b[1..], t));
      InkConcat(b[0], t);
    }
  }
}
