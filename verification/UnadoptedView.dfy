/**
 The knowledge-base view: faceted counts and paging over the obligations not yet adopted.
 */
module UnadoptedView {
  import opened Wrappers

  datatype Row = Row(id: string, source: string, standard: string, texts: seq<string>, before: bool)

  /** A query as trimmed: the empty string means no filter. */
  datatype Query = Query(source: string, standard: string, search: string)

  function Lower(s: string): (r: string)
    ensures |r| == |s|
  {
    seq(|s|, i requires 0 <= i < |s| => if 'A' <= s[i] <= 'Z' then ((s[i] as int) + 32) as char else s[i])
  }

  predicate Includes(s: string, word: string) {
    exists i | 0 <= i <= |s| :: word <= s[i..]
  }

  predicate Matches(row: Row, q: Query) {
    q.search == "" || exists i | 0 <= i < |row.texts| :: Includes(Lower(row.texts[i]), Lower(q.search))
  }

  predicate Passes(row: Row, q: Query) {
    && Matches(row, q)
    && (q.source == "" || row.source == q.source)
    && (q.standard == "" || row.standard == q.standard)
  }

  function Filtered(rows: seq<Row>, q: Query): seq<Row> {
    if rows == [] then []
    else Filtered(rows[..|rows| - 1], q) + (if Passes(rows[|rows| - 1], q) then [rows[|rows| - 1]] else [])
  }

  // ---------------------------------------------------------------- ordering

  predicate Before(a: string, b: string) {
    if b == "" then false
    else if a == "" then true
    else if a[0] != b[0] then a[0] < b[0]
    else Before(a[1..], b[1..])
  }

  /** Before every row with a greater id. */
  function Insert(sorted: seq<Row>, r: Row): seq<Row> {
    if sorted == [] then [r]
    else if Before(r.id, sorted[|sorted| - 1].id) then Insert(sorted[..|sorted| - 1], r) + [sorted[|sorted| - 1]]
    else sorted + [r]
  }

  function Sorted(rows: seq<Row>): (s: seq<Row>)
  {
    if rows == [] then [] else Insert(Sorted(rows[..|rows| - 1]), rows[|rows| - 1])
  }

  lemma {:induction false} InsertKeeps(sorted: seq<Row>, r: Row)
    ensures multiset(Insert(sorted, r)) == multiset(sorted) + multiset{r}
  {
    if sorted != [] && Before(r.id, sorted[|sorted| - 1].id) {
      InsertKeeps(sorted[..|sorted| - 1], r);
      assert sorted == sorted[..|sorted| - 1] + [sorted[|sorted| - 1]];
    }
  }

  lemma {:induction false} SortedKeeps(rows: seq<Row>)
    ensures multiset(Sorted(rows)) == multiset(rows)
    ensures |Sorted(rows)| == |rows|
  {
    if rows != [] {
      var front, last := rows[..|rows| - 1], rows[|rows| - 1];
      SortedKeeps(front);
      InsertKeeps(Sorted(front), last);
      InsertLength(Sorted(front), last);
      assert rows == front + [last];
    }
  }

  lemma {:induction false} InsertLength(sorted: seq<Row>, r: Row)
    ensures |Insert(sorted, r)| == |sorted| + 1
  {
    if sorted != [] && Before(r.id, sorted[|sorted| - 1].id) {
      InsertLength(sorted[..|sorted| - 1], r);
    }
  }

  lemma {:induction false} BeforeIsTransitive(a: string, b: string, c: string)
    requires Before(a, b) && Before(b, c)
    ensures Before(a, c)
  {
    if a != "" && a[0] == b[0] == c[0] {
      BeforeIsTransitive(a[1..], b[1..], c[1..]);
    }
  }

  lemma {:induction false} BeforeIsTotal(a: string, b: string)
    ensures Before(a, b) || a == b || Before(b, a)
    ensures !(Before(a, b) && Before(b, a)) && !Before(a, a)
  {
    if a != "" && b != "" {
      BeforeIsTotal(a[1..], b[1..]);
      assert a == [a[0]] + a[1..] && b == [b[0]] + b[1..];
    }
    if a != "" {
      BeforeIsTotal(a[1..], a[1..]);
    }
  }

  lemma NotBeforeAcross(a: string, b: string, c: string)
    requires !Before(a, c) && !Before(c, b)
    ensures !Before(a, b)
  {
    hide Before;
    BeforeIsTotal(b, c);
    if Before(a, b) && Before(b, c) {
      BeforeIsTransitive(a, b, c);
    }
  }

  predicate Ascending(rows: seq<Row>) {
    forall i, j | 0 <= i < j < |rows| :: !Before(rows[j].id, rows[i].id)
  }

  lemma {:induction false} InsertAscends(sorted: seq<Row>, r: Row)
    requires Ascending(sorted)
    ensures Ascending(Insert(sorted, r))
  {
    hide Before;
    if sorted != [] {
      var n := |sorted| - 1;
      var init, last := sorted[..n], sorted[n];
      if Before(r.id, last.id) {
        InsertAscends(init, r);
        InsertKeeps(init, r);
        forall x | x in Insert(init, r) ensures !Before(last.id, x.id) {
          assert x in multiset(Insert(init, r));
          if x == r {
            BeforeIsTotal(r.id, last.id);
          } else {
            assert x in init;
          }
        }
      } else {
        forall i | 0 <= i < |sorted| ensures !Before(r.id, sorted[i].id) {
          if i < n {
            NotBeforeAcross(r.id, sorted[i].id, last.id);
          }
        }
      }
    }
  }

  lemma {:induction false} SortedAscends(rows: seq<Row>)
    ensures Ascending(Sorted(rows))
  {
    if rows != [] {
      SortedAscends(rows[..|rows| - 1]);
      InsertAscends(Sorted(rows[..|rows| - 1]), rows[|rows| - 1]);
    }
  }

  // ---------------------------------------------------------------- the view

  datatype View = View(rows: seq<Row>, total: nat, unadopted: nat, bySource: map<string, nat>,
                       byStandard: map<string, nat>)

  function Tally(counts: map<string, nat>, v: string): nat {
    if v in counts then counts[v] else 0
  }

  /** The source facet ignores the source filter and honours the others. */
  function CountSource(rows: seq<Row>, q: Query, v: string): nat {
    if rows == [] then 0
    else
      var r := rows[|rows| - 1];
      CountSource(rows[..|rows| - 1], q, v) +
      (if Matches(r, q) && (q.standard == "" || r.standard == q.standard) && r.source == v then 1 else 0)
  }

  /** The standard facet likewise, and skips rows without a standard. */
  function CountStandard(rows: seq<Row>, q: Query, v: string): nat {
    if rows == [] then 0
    else
      var r := rows[|rows| - 1];
      CountStandard(rows[..|rows| - 1], q, v) +
      (if Matches(r, q) && (q.source == "" || r.source == q.source) && r.standard != "" && r.standard == v
       then 1 else 0)
  }

  function CountBefore(rows: seq<Row>): nat {
    if rows == [] then 0 else CountBefore(rows[..|rows| - 1]) + (if rows[|rows| - 1].before then 1 else 0)
  }

  /** The clamped limit; the default is one hundred. */
  function Limit(asked: Option<int>): (n: nat)
    ensures 1 <= n <= 500
  {
    var n := if asked.None? then 100 else asked.value;
    if n > 500 then 500 else if n < 1 then 1 else n
  }

  function Offset(asked: Option<int>): nat {
    if asked.None? || asked.value < 0 then 0 else asked.value
  }

  function Slice(rows: seq<Row>, from: nat, count: nat): seq<Row> {
    if from >= |rows| then []
    else if from + count >= |rows| then rows[from..]
    else rows[from..from + count]
  }

  function Page(rows: seq<Row>, q: Query, limit: Option<int>, offset: Option<int>): seq<Row> {
    Slice(Sorted(Filtered(rows, q)), Offset(offset), Limit(limit))
  }

  method GetView(rows: seq<Row>, q: Query, limit: Option<int>, offset: Option<int>) returns (view: View)
    ensures view.rows == Page(rows, q, limit, offset)
    ensures view.total == |Filtered(rows, q)|
    ensures view.unadopted == CountBefore(Filtered(rows, q))
    ensures forall v :: Tally(view.bySource, v) == CountSource(rows, q, v)
    ensures forall v :: Tally(view.byStandard, v) == CountStandard(rows, q, v)
  {
    hide Matches, Passes;
    var bySource: map<string, nat>, byStandard: map<string, nat> := map[], map[];
    for i := 0 to |rows|
      invariant forall v :: Tally(bySource, v) == CountSource(rows[..i], q, v)
      invariant forall v :: Tally(byStandard, v) == CountStandard(rows[..i], q, v)
    {
      var r := rows[i];
      assert rows[..i + 1][..i] == rows[..i];
      if Matches(r, q) && (q.standard == "" || r.standard == q.standard) {
        bySource := bySource[r.source := Tally(bySource, r.source) + 1];
      }
      if Matches(r, q) && (q.source == "" || r.source == q.source) && r.standard != "" {
        byStandard := byStandard[r.standard := Tally(byStandard, r.standard) + 1];
      }
    }
    assert rows[..|rows|] == rows;
    var filtered := Filtered(rows, q);
    view := View(Slice(Sorted(filtered), Offset(offset), Limit(limit)), |filtered|, CountBefore(filtered), bySource,
                 byStandard);
  }

  // ---------------------------------------------------------------- facets

  /** A source facet's figure is the total the query reports when narrowed to that source. */
  lemma {:induction false} SourceFacetIsTotal(rows: seq<Row>, q: Query, v: string)
    requires v != ""
    ensures CountSource(rows, q, v) == |Filtered(rows, q.(source := v))|
  {
    if rows != [] {
      SourceFacetIsTotal(rows[..|rows| - 1], q, v);
      assert Matches(rows[|rows| - 1], q) == Matches(rows[|rows| - 1], q.(source := v));
    }
  }

  /** And a standard facet's likewise. */
  lemma {:induction false} StandardFacetIsTotal(rows: seq<Row>, q: Query, v: string)
    requires v != ""
    ensures CountStandard(rows, q, v) == |Filtered(rows, q.(standard := v))|
  {
    if rows != [] {
      StandardFacetIsTotal(rows[..|rows| - 1], q, v);
      assert Matches(rows[|rows| - 1], q) == Matches(rows[|rows| - 1], q.(standard := v));
    }
  }

  // ---------------------------------------------------------------- paging

  /** The pages at offsets 0, L, 2L, ... one after another, `n` of them. */
  function Pages(rows: seq<Row>, q: Query, limit: Option<int>, n: nat): seq<Row> {
    if n == 0 then []
    else Pages(rows, q, limit, n - 1) + Page(rows, q, limit, Some((n - 1) * Limit(limit)))
  }

  lemma SliceNext(rows: seq<Row>, from: nat, count: nat)
    ensures var upto := if from < |rows| then from else |rows|;
            var next := if from + count < |rows| then from + count else |rows|;
            rows[..upto] + Slice(rows, from, count) == rows[..next]
  {}

  /** The first `n` pages are the first `n` times L rows of the sorted list. */
  lemma {:induction false} PagesArePrefix(rows: seq<Row>, q: Query, limit: Option<int>, n: nat)
    ensures var all := Sorted(Filtered(rows, q));
            Pages(rows, q, limit, n) == all[..if n * Limit(limit) < |all| then n * Limit(limit) else |all|]
  {
    hide Sorted, Filtered, Limit;
    if n > 0 {
      PagesArePrefix(rows, q, limit, n - 1);
      assert (n - 1) * Limit(limit) >= 0;
      assert (n - 1) * Limit(limit) + Limit(limit) == n * Limit(limit);
      SliceNext(Sorted(Filtered(rows, q)), (n - 1) * Limit(limit), Limit(limit));
    }
  }

  /** For every clamped limit, enough pages give the whole filtered list, sorted by id, each row once. */
  lemma PagesCoverList(rows: seq<Row>, q: Query, limit: Option<int>, n: nat)
    requires n * Limit(limit) >= |Filtered(rows, q)|
    ensures Pages(rows, q, limit, n) == Sorted(Filtered(rows, q))
    ensures Ascending(Pages(rows, q, limit, n))
    ensures multiset(Pages(rows, q, limit, n)) == multiset(Filtered(rows, q))
  {
    PagesArePrefix(rows, q, limit, n);
    SortedKeeps(Filtered(rows, q));
    SortedAscends(Filtered(rows, q));
  }
}
