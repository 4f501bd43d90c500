/**
 The knowledge-base view in plain terms: which rows a query asks for, their order, and which of them are on a page.
 */
module ViewMeaning {
  import opened Wrappers
  import opened UnadoptedView

  // ---------------------------------------------------------------- searching

  predicate Lowered(s: string, t: string) {
    |s| == |t| &&
    forall i | 0 <= i < |s| :: if 'A' <= s[i] <= 'Z' then t[i] as int == s[i] as int + 32 else t[i] == s[i]
  }

  predicate Around(s: string, before: string, word: string, after: string) {
    s == before + word + after
  }

  /** The text holds the word, capitals or not. */
  ghost predicate Holds(text: string, word: string) {
    exists t, w, before, after :: Lowered(text, t) && Lowered(word, w) && Around(t, before, w, after)
  }

  lemma LoweredIs(s: string, t: string)
    ensures Lowered(s, t) <==> t == Lower(s)
  {
    if Lowered(s, t) {
      assert forall i | 0 <= i < |s| :: t[i] == Lower(s)[i];
    }
  }

  lemma IncludesIs(s: string, word: string)
    ensures Includes(s, word) <==> exists before, after :: Around(s, before, word, after)
  {
    if Includes(s, word) {
      var i :| 0 <= i <= |s| && word <= s[i..];
      assert s == s[..i] + word + s[i..][|word|..];
      assert Around(s, s[..i], word, s[i..][|word|..]);
    }
    if before, after :| Around(s, before, word, after) {
      assert s[|before|..] == word + after;
    }
  }

  lemma HoldsIs(text: string, word: string)
    ensures Includes(Lower(text), Lower(word)) <==> Holds(text, word)
  {
    IncludesIs(Lower(text), Lower(word));
    LoweredIs(text, Lower(text));
    LoweredIs(word, Lower(word));
    hide Lower, Lowered, Around, Includes;
    if t, w, before, after :| Lowered(text, t) && Lowered(word, w) && Around(t, before, w, after) {
      LoweredIs(text, t);
      LoweredIs(word, w);
    }
  }

  /** The search, the source and the standard, each unless left blank. */
  ghost predicate Wanted(row: Row, q: Query) {
    && (q.search == "" || exists text <- row.texts :: Holds(text, q.search))
    && q.source in {"", row.source} && q.standard in {"", row.standard}
  }

  lemma MatchesIs(row: Row, q: Query)
    ensures Matches(row, q) <==> q.search == "" || exists text <- row.texts :: Holds(text, q.search)
  {
    forall text ensures Includes(Lower(text), Lower(q.search)) <==> Holds(text, q.search) {
      HoldsIs(text, q.search);
    }
    hide Includes, Lower, Holds;
    if text :| text in row.texts && Holds(text, q.search) {
      var i :| 0 <= i < |row.texts| && row.texts[i] == text;
      assert Includes(Lower(row.texts[i]), Lower(q.search));
    }
    if i :| 0 <= i < |row.texts| && Includes(Lower(row.texts[i]), Lower(q.search)) {
      assert row.texts[i] in row.texts;
    }
  }

  lemma PassesIs(row: Row, q: Query)
    ensures Passes(row, q) <==> Wanted(row, q)
  {
    MatchesIs(row, q);
    hide Matches, Holds;
  }

  /** The rows a query asks for, in order. */
  ghost function Chosen(rows: seq<Row>, q: Query): seq<Row> {
    if rows == [] then [] else (if Wanted(rows[0], q) then [rows[0]] else []) + Chosen(rows[1..], q)
  }

  lemma {:induction false} ChosenLast(rows: seq<Row>, row: Row, q: Query)
    ensures Chosen(rows + [row], q) == Chosen(rows, q) + if Wanted(row, q) then [row] else []
  {
    hide Wanted;
    if rows == [] {
      assert rows + [row] == [row] && [row][1..] == [];
    } else {
      assert (rows + [row])[1..] == rows[1..] + [row];
      ChosenLast(rows[1..], row, q);
    }
  }

  lemma {:induction false} FilteredIsChosen(rows: seq<Row>, q: Query)
    ensures Filtered(rows, q) == Chosen(rows, q)
  {
    hide Passes, Wanted;
    if rows != [] {
      var n := |rows| - 1;
      FilteredIsChosen(rows[..n], q);
      PassesIs(rows[n], q);
      ChosenLast(rows[..n], rows[n], q);
      assert rows == rows[..n] + [rows[n]];
    }
  }

  // ---------------------------------------------------------------- order

  /** At the first place they differ `a` ends or has the smaller character. */
  predicate DiffersAt(a: string, b: string, k: nat) {
    && k <= |a| && k < |b| && (forall i | 0 <= i < k :: a[i] == b[i])
    && (k == |a| || a[k] < b[k])
  }

  ghost predicate Comes(a: string, b: string) {
    exists k: nat :: DiffersAt(a, b, k)
  }

  lemma {:induction false} BeforeIs(a: string, b: string)
    ensures Before(a, b) <==> Comes(a, b)
  {
    if a != "" && b != "" && a[0] == b[0] {
      BeforeIs(a[1..], b[1..]);
      if Before(a, b) {
        var k: nat :| DiffersAt(a[1..], b[1..], k);
        assert DiffersAt(a, b, k + 1);
      }
      if k: nat :| DiffersAt(a, b, k) {
        assert DiffersAt(a[1..], b[1..], k - 1);
      }
    } else if Before(a, b) {
      assert DiffersAt(a, b, 0);
    }
  }

  // ---------------------------------------------------------------- the page

  /** The number asked for, at least one and at most five hundred, or one hundred. */
  predicate IsLimit(asked: Option<int>, n: nat) {
    match asked
    case None => n == 100
    case Some(a) => (a <= 1 && n == 1) || (1 < a < 500 && n == a) || (a >= 500 && n == 500)
  }

  predicate IsOffset(asked: Option<int>, n: nat) {
    match asked
    case None => n == 0
    case Some(a) => (a <= 0 && n == 0) || (a > 0 && n == a)
  }

  /** The rows of a list from one place on, as many as there are up to a number. */
  predicate Excerpt(all: seq<Row>, from: nat, count: nat, page: seq<Row>) {
    && |page| <= count && (from + |page| < |all| ==> |page| == count) && (page != [] ==> from + |page| <= |all|)
    && forall i | 0 <= i < |page| && from + i < |all| :: page[i] == all[from + i]
  }

  ghost predicate Listed(rows: seq<Row>, q: Query, all: seq<Row>) {
    && multiset(all) == multiset(Chosen(rows, q))
    && forall i, j | 0 <= i < j < |all| :: !Comes(all[j].id, all[i].id)
  }

  lemma SliceIs(all: seq<Row>, from: nat, count: nat)
    ensures Excerpt(all, from, count, Slice(all, from, count))
  {}

  lemma ClampsAre(limit: Option<int>, offset: Option<int>)
    ensures IsLimit(limit, Limit(limit)) && IsOffset(offset, Offset(offset))
  {}

  lemma SortedIsListed(rows: seq<Row>, q: Query)
    ensures Listed(rows, q, Sorted(Filtered(rows, q)))
  {
    hide Filtered, Sorted, Chosen, Comes, Before;
    var all := Sorted(Filtered(rows, q));
    FilteredIsChosen(rows, q);
    SortedKeeps(Filtered(rows, q));
    SortedAscends(Filtered(rows, q));
    forall i, j | 0 <= i < j < |all| ensures !Comes(all[j].id, all[i].id) {
      BeforeIs(all[j].id, all[i].id);
    }
  }

  /** MAIN: a page is an excerpt of the rows the query asks for, by id; the totals are how many of them there are and
      how many were adopted before. */
  lemma ViewReads(rows: seq<Row>, q: Query, limit: Option<int>, offset: Option<int>)
    ensures exists all: seq<Row>, from: nat, count: nat ::
              && Listed(rows, q, all) && IsOffset(offset, from) && IsLimit(limit, count)
              && Excerpt(all, from, count, Page(rows, q, limit, offset))
    ensures |Filtered(rows, q)| == |Chosen(rows, q)|
    ensures CountBefore(Filtered(rows, q)) ==
            |set i | 0 <= i < |Chosen(rows, q)| && Chosen(rows, q)[i].before|
  {
    hide Filtered, Sorted, Chosen, Slice, Excerpt, Listed, Limit, Offset, IsLimit, IsOffset, CountBefore;
    SortedIsListed(rows, q);
    SliceIs(Sorted(Filtered(rows, q)), Offset(offset), Limit(limit));
    ClampsAre(limit, offset);
    FilteredIsChosen(rows, q);
    BeforeCounts(Chosen(rows, q));
  }

  lemma {:induction false} BeforeCounts(rows: seq<Row>)
    ensures CountBefore(rows) == |set i | 0 <= i < |rows| && rows[i].before|
  {
    if rows != [] {
      var n := |rows| - 1;
      BeforeCounts(rows[..n]);
      BeforeOneMore(rows);
    }
  }

  lemma BeforeOneMore(rows: seq<Row>)
    requires rows != []
    ensures var n := |rows| - 1;
            var front := |set i | 0 <= i < |rows[..n]| && rows[..n][i].before|;
            |set i | 0 <= i < |rows| && rows[i].before| == front + if rows[n].before then 1 else 0
  {
    var n := |rows| - 1;
    var init := rows[..n];
    var front := set i | 0 <= i < |init| && init[i].before;
    var all := set i | 0 <= i < |rows| && rows[i].before;
    assert forall i | 0 <= i < n :: init[i] == rows[i];
    assert all == front + if rows[n].before then {n} else {};
  }
}
