/** The rows the extractor writes: a paragraph's words, in the order of its lines, with one space between them. */
module ChapterRows {
  import opened ChapterExtract
  import S = ChapterShapes
  import opened Spacing
  import Sequences

  /** The words of the pieces, in order. */
  function WordsOf(pieces: seq<Piece>): seq<string> {
    if pieces == [] then []
    else WordsOf(pieces[..|pieces| - 1]) + Words(pieces[|pieces| - 1].text, S.Space)
  }

  lemma {:induction false} CollapseSqueezes(s: string)
    ensures Squeezed(s, Collapse(s), S.Space)
    decreases |s|
  {
    if s != "" {
      if IsBlank(s[0]) {
        var n := Blanks(s);
        CollapseSqueezes(s[n..]);
        assert s == s[..n] + s[n..];
        SqueezedRun(s[..n], s[n..], Collapse(s[n..]), S.Space);
      } else {
        CollapseSqueezes(s[1..]);
        assert s == [s[0]] + s[1..];
        SqueezedCons(s[0], s[1..], Collapse(s[1..]), S.Space);
      }
    }
  }

  lemma CollapsedIsSpaced(s: string)
    ensures Strip(Collapse(s)) == Spaced(Words(s, S.Space))
  {
    CollapseSqueezes(s);
    S.StripIs(Collapse(s));
    hide Strip, Collapse, Words, Spaced, S.Space;
    var lead, trail :| S.Around(Collapse(s), lead, Strip(Collapse(s)), trail);
    assert S.Space(' ') by { SpaceIsSpace(); }
    SqueezedIsSpaced(s, Collapse(s), lead, Strip(Collapse(s)), trail, S.Space);
  }

  lemma SpaceIsSpace()
    ensures S.Space(' ')
  {}

  lemma {:induction false} JoinedWords(pieces: seq<Piece>)
    ensures Words(Joined(pieces), S.Space) == WordsOf(pieces)
  {
    if |pieces| == 1 {
      assert pieces[..0] == [];
    } else if pieces != [] {
      var n := |pieces| - 1;
      JoinedWords(pieces[..n]);
      SpaceIsSpace();
      hide S.Space;
      var front, last := Joined(pieces[..n]), pieces[n].text;
      assert front + " " + last == front + (" " + last);
      WordsOfBoth(front, " " + last, S.Space);
      WordsAfterBlanks(" ", last, S.Space);
    }
  }

  /** MAIN: a row's text is the words of its paragraph, in order, with one space between them. */
  lemma RowReads(p: Para)
    ensures RowText(p) == Spaced(WordsOf(p.pieces))
  {
    CollapsedIsSpaced(Joined(p.pieces));
    JoinedWords(p.pieces);
  }
}
