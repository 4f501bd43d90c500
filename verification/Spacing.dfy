/** Words between white space, for any notion of white space, and text with one space between its words. */
module Spacing {
  import Sequences

  /** Length of the first word of a string that begins with one. */
  function WordLength(s: string, space: char -> bool): (n: nat)
    ensures n <= |s| && (n < |s| ==> space(s[n]))
    ensures forall i | 0 <= i < n :: !space(s[i])
  {
    if s != "" && !space(s[0]) then 1 + WordLength(s[1..], space) else 0
  }

  /** The words of a string, in order. */
  function Words(s: string, space: char -> bool): seq<string>
    decreases |s|
  {
    if s == "" then []
    else if space(s[0]) then Words(s[1..], space)
    else
      var n := WordLength(s, space);
      [s[..n]] + Words(s[n..], space)
  }

  /** The words with one space between them. */
  function Spaced(words: seq<string>): string {
    if words == [] then ""
    else if |words| == 1 then words[0]
    else words[0] + " " + Spaced(words[1..])
  }

  predicate AllBlank(s: string, space: char -> bool) {
    forall i | 0 <= i < |s| :: space(s[i])
  }

  lemma {:induction false} NoWords(s: string, space: char -> bool)
    requires AllBlank(s, space)
    ensures Words(s, space) == []
  {
    if s != "" {
      NoWords(s[1..], space);
    }
  }

  lemma {:induction false} WordsAfterBlanks(lead: string, s: string, space: char -> bool)
    requires AllBlank(lead, space)
    ensures Words(lead + s, space) == Words(s, space)
  {
    if lead == "" {
      assert lead + s == s;
    } else {
      assert (lead + s)[1..] == lead[1..] + s;
      WordsAfterBlanks(lead[1..], s, space);
    }
  }

  lemma {:induction false} WordEnds(w: string, s: string, space: char -> bool)
    requires (forall i | 0 <= i < |w| :: !space(w[i])) && (s == "" || space(s[0]))
    ensures WordLength(w + s, space) == |w|
  {
    if w == "" {
      assert w + s == s;
    } else {
      assert (w + s)[1..] == w[1..] + s;
      WordEnds(w[1..], s, space);
    }
  }

  predicate Solid(w: string, space: char -> bool) {
    w != "" && forall i | 0 <= i < |w| :: !space(w[i])
  }

  lemma WordFirst(w: string, s: string, space: char -> bool)
    requires Solid(w, space) && (s == "" || space(s[0]))
    ensures Words(w + s, space) == [w] + Words(s, space)
  {
    WordEnds(w, s, space);
    assert (w + s)[..|w|] == w && (w + s)[|w|..] == s;
  }

  /** The words of two strings put together, when white space parts them. */
  lemma {:induction false} WordsOfBoth(a: string, b: string, space: char -> bool)
    requires b == "" || space(b[0])
    ensures Words(a + b, space) == Words(a, space) + Words(b, space)
    decreases |a|
  {
    if a == "" {
      assert a + b == b;
    } else if space(a[0]) {
      assert (a + b)[1..] == a[1..] + b;
      WordsOfBoth(a[1..], b, space);
    } else {
      var n := WordLength(a, space);
      WordsOfBoth(a[n..], b, space);
      WordsFromWord(a[..n], a[n..], b, space);
      assert a == a[..n] + a[n..];
    }
  }

  lemma WordsFromWord(w: string, rest: string, b: string, space: char -> bool)
    requires Solid(w, space) && (rest == "" || space(rest[0])) && (b == "" || space(b[0]))
    requires Words(rest + b, space) == Words(rest, space) + Words(b, space)
    ensures Words(w + rest + b, space) == Words(w + rest, space) + Words(b, space)
  {
    hide Words;
    WordFirst(w, rest, space);
    WordFirst(w, rest + b, space);
    assert w + rest + b == w + (rest + b);
    Sequences.Assoc([w], Words(rest, space), Words(b, space));
  }

  /** White space inside is single spaces, and there is none at the ends. */
  predicate Even(s: string, space: char -> bool) {
    && (s != "" ==> !space(s[0]) && !space(s[|s| - 1]))
    && forall i | 0 <= i < |s| && space(s[i]) :: s[i] == ' ' && (i + 1 < |s| ==> !space(s[i + 1]))
  }

  lemma EvenTail(s: string, n: nat, space: char -> bool)
    requires Even(s, space) && 0 < n < |s| && space(s[n])
    ensures n + 1 < |s| && Even(s[n + 1..], space) && !space(s[n + 1]) && s == s[..n] + " " + s[n + 1..]
  {
    var rest := s[n + 1..];
    assert forall i | 0 <= i < |rest| :: rest[i] == s[n + 1 + i];
  }

  lemma SpaceThenWords(rest: string, space: char -> bool)
    requires rest != "" && !space(rest[0]) && space(' ')
    ensures Words(" " + rest, space) == Words(rest, space) && Words(rest, space) != []
  {
    assert (" " + rest)[1..] == rest;
  }

  lemma SpacedFirst(w: string, more: seq<string>)
    requires more != []
    ensures Spaced([w] + more) == w + " " + Spaced(more)
  {
    assert ([w] + more)[1..] == more;
  }

  lemma {:induction false} EvenIsSpaced(s: string, space: char -> bool)
    requires Even(s, space) && space(' ')
    ensures s == Spaced(Words(s, space))
    decreases |s|
  {
    if s != "" {
      var n := WordLength(s, space);
      var w := s[..n];
      assert Solid(w, space);
      if n == |s| {
        assert s == w + "" && w == s;
        WordFirst(w, "", space);
        assert [w] + [] == [w];
      } else {
        EvenTail(s, n, space);
        var rest := s[n + 1..];
        hide Words, Spaced, Even;
        EvenIsSpaced(rest, space);
        WordFirst(w, " " + rest, space);
        SpaceThenWords(rest, space);
        SpacedFirst(w, Words(rest, space));
        assert s == w + (" " + rest);
      }
    }
  }

  /** One more character in front of a word, or a word of its own. */
  lemma WordsCons(c: char, s: string, space: char -> bool)
    requires !space(c)
    ensures s == "" || space(s[0]) ==> Words([c] + s, space) == [[c]] + Words(s, space)
    ensures s != "" && !space(s[0]) ==>
              Words(s, space) != [] &&
              Words([c] + s, space) == [[c] + Words(s, space)[0]] + Words(s, space)[1..]
  {
    if s == "" || space(s[0]) {
      WordFirst([c], s, space);
    } else {
      var n := WordLength(s, space);
      var w, rest := s[..n], s[n..];
      assert s == w + rest && [c] + s == ([c] + w) + rest;
      WordFirst(w, rest, space);
      WordFirst([c] + w, rest, space);
    }
  }

  /** White space at the ends makes no difference to the words. */
  lemma WordsInside(lead: string, t: string, trail: string, space: char -> bool)
    requires AllBlank(lead, space) && AllBlank(trail, space)
    ensures Words(lead + t + trail, space) == Words(t, space)
  {
    WordsAfterBlanks(lead, t + trail, space);
    WordsOfBoth(t, trail, space);
    NoWords(trail, space);
    assert lead + t + trail == lead + (t + trail);
  }

  /** Inner white space is single spaces. */
  predicate Single(s: string, space: char -> bool) {
    forall i | 0 <= i < |s| && space(s[i]) :: s[i] == ' ' && (i + 1 < |s| ==> !space(s[i + 1]))
  }

  lemma SingleInside(s: string, lead: string, t: string, trail: string, space: char -> bool)
    requires s == lead + t + trail && Single(s, space)
    requires t == "" || (!space(t[0]) && !space(t[|t| - 1]))
    ensures Even(t, space)
  {
    forall i | 0 <= i < |t| && space(t[i]) ensures t[i] == ' ' && (i + 1 < |t| ==> !space(t[i + 1])) {
      assert s[|lead| + i] == t[i];
      assert i + 1 < |t| ==> s[|lead| + i + 1] == t[i + 1];
    }
  }

  /** What a squeezed string has in common with the string it came from. */
  predicate Squeezed(s: string, r: string, space: char -> bool) {
    && Single(r, space) && Words(r, space) == Words(s, space) && (r == "" <==> s == "")
    && (s != "" ==> (space(r[0]) <==> space(s[0])))
  }

  /** A run of white space squeezed to one space. */
  lemma SqueezedRun(lead: string, s: string, r: string, space: char -> bool)
    requires lead != "" && AllBlank(lead, space) && space(' ')
    requires Squeezed(s, r, space) && (s == "" || !space(s[0]))
    ensures Squeezed(lead + s, " " + r, space)
  {
    WordsAfterBlanks(lead, s, space);
    WordsAfterBlanks(" ", r, space);
    hide Words;
    var t := " " + r;
    forall i | 0 <= i < |t| && space(t[i]) ensures t[i] == ' ' && (i + 1 < |t| ==> !space(t[i + 1])) {
      if i > 0 {
        assert t[i] == r[i - 1];
        assert i + 1 < |t| ==> t[i + 1] == r[i];
      }
    }
  }

  lemma SqueezedCons(c: char, s: string, r: string, space: char -> bool)
    requires !space(c) && Squeezed(s, r, space)
    ensures Squeezed([c] + s, [c] + r, space)
  {
    WordsCons(c, s, space);
    WordsCons(c, r, space);
    hide Words;
    var t := [c] + r;
    forall i | 0 <= i < |t| && space(t[i]) ensures t[i] == ' ' && (i + 1 < |t| ==> !space(t[i + 1])) {
      assert i > 0 && t[i] == r[i - 1];
      assert i + 1 < |t| ==> t[i + 1] == r[i];
    }
  }

  /** Squeezed and trimmed, a string is its words with one space between them. */
  lemma SqueezedIsSpaced(s: string, r: string, lead: string, t: string, trail: string, space: char -> bool)
    requires Squeezed(s, r, space) && r == lead + t + trail && AllBlank(lead, space) && AllBlank(trail, space)
    requires (t == "" || (!space(t[0]) && !space(t[|t| - 1]))) && space(' ')
    ensures t == Spaced(Words(s, space))
  {
    hide Words, Spaced;
    SingleInside(r, lead, t, trail, space);
    EvenIsSpaced(t, space);
    WordsInside(lead, t, trail, space);
  }

  /** A string with words has text. */
  lemma {:induction false} FirstIsWord(s: string, space: char -> bool)
    requires Words(s, space) != []
    ensures Words(s, space)[0] != "" && Spaced(Words(s, space)) != ""
    decreases |s|
  {
    if space(s[0]) {
      FirstIsWord(s[1..], space);
    } else {
      var n := WordLength(s, space);
      assert Words(s, space)[0] == s[..n];
    }
  }
}
