/**
 The ownership map: obligations counted per sub-domain, then rolled up by accountable seat and by
 top-level domain.
 */
module OwnershipMap {
  import opened Wrappers

  /** A row of the ownership table. */
  datatype Domain = Domain(key: string, topLevel: int, seat: string, coSeats: set<string>)

  /** An adopted obligation, the row it falls under if any, and whether its domain could be told. */
  datatype Obligation = Obligation(id: string, domain: Option<Domain>, told: bool, owner: string)

  predicate IsOrphan(o: Obligation) {
    o.domain.None? || !o.told
  }

  /** The stated owner is neither the accountable seat nor one of its co-accountable ones. */
  predicate Drifts(o: Obligation) {
    !IsOrphan(o) && o.owner != "" && o.owner != o.domain.value.seat && o.owner !in o.domain.value.coSeats
  }

  // ---------------------------------------------------------------- direct counts

  function CountKey(obligations: seq<Obligation>, key: string): nat {
    if obligations == [] then 0
    else
      var o := obligations[|obligations| - 1];
      CountKey(obligations[..|obligations| - 1], key) + (if !IsOrphan(o) && o.domain.value.key == key then 1 else 0)
  }

  function CountTop(obligations: seq<Obligation>, top: int): nat {
    if obligations == [] then 0
    else
      var o := obligations[|obligations| - 1];
      CountTop(obligations[..|obligations| - 1], top) +
          (if !IsOrphan(o) && o.domain.value.topLevel == top then 1 else 0)
  }

  function CountSeat(obligations: seq<Obligation>, seat: string): nat {
    if obligations == [] then 0
    else
      var o := obligations[|obligations| - 1];
      CountSeat(obligations[..|obligations| - 1], seat) + (if !IsOrphan(o) && o.domain.value.seat == seat then 1 else 0)
  }

  function Orphans(obligations: seq<Obligation>): seq<string> {
    if obligations == [] then []
    else
      var o := obligations[|obligations| - 1];
      Orphans(obligations[..|obligations| - 1]) + (if IsOrphan(o) then [o.id] else [])
  }

  function CountDrift(obligations: seq<Obligation>): nat {
    if obligations == [] then 0
    else CountDrift(obligations[..|obligations| - 1]) + (if Drifts(obligations[|obligations| - 1]) then 1 else 0)
  }

  // ---------------------------------------------------------------- the view

  function Tally<K(==)>(counts: map<K, nat>, k: K): nat {
    if k in counts then counts[k] else 0
  }

  /** The tally loop. */
  method Count(obligations: seq<Obligation>)
    returns (byKey: map<string, nat>, byTop: map<int, nat>, orphans: seq<string>, drift: nat)
    ensures forall k :: Tally(byKey, k) == CountKey(obligations, k)
    ensures forall t :: Tally(byTop, t) == CountTop(obligations, t)
    ensures orphans == Orphans(obligations) && drift == CountDrift(obligations)
  {
    byKey, byTop, orphans, drift := map[], map[], [], 0;
    for i := 0 to |obligations|
      invariant forall k :: Tally(byKey, k) == CountKey(obligations[..i], k)
      invariant forall t :: Tally(byTop, t) == CountTop(obligations[..i], t)
      invariant orphans == Orphans(obligations[..i]) && drift == CountDrift(obligations[..i])
    {
      var o := obligations[i];
      assert obligations[..i + 1][..i] == obligations[..i];
      if IsOrphan(o) {
        orphans := orphans + [o.id];
        continue;
      }
      var d := o.domain.value;
      byKey := byKey[d.key := Tally(byKey, d.key) + 1];
      byTop := byTop[d.topLevel := Tally(byTop, d.topLevel) + 1];
      if o.owner != "" && o.owner != d.seat && o.owner !in d.coSeats {
        drift := drift + 1;
      }
    }
    assert obligations[..|obligations|] == obligations;
  }

  /** The distinct seats of the table, in table order. */
  function Seats(table: seq<Domain>): seq<string> {
    if table == [] then []
    else
      var before, seat := Seats(table[..|table| - 1]), table[|table| - 1].seat;
      if seat in before then before else before + [seat]
  }

  /** The distinct top-level domains of the table. */
  function Tops(table: seq<Domain>): seq<int> {
    if table == [] then []
    else
      var before, top := Tops(table[..|table| - 1]), table[|table| - 1].topLevel;
      if top in before then before else before + [top]
  }

  /** A seat's figure: the tallies of its sub-domains. */
  function SeatFigure(obligations: seq<Obligation>, table: seq<Domain>, seat: string): nat {
    if table == [] then 0
    else
      var d := table[|table| - 1];
      SeatFigure(obligations, table[..|table| - 1], seat) + (if d.seat == seat then CountKey(obligations, d.key) else 0)
  }

  function SumOfSeats(obligations: seq<Obligation>, table: seq<Domain>, seats: seq<string>): nat {
    if seats == [] then 0
    else
      SumOfSeats(obligations, table, seats[..|seats| - 1]) + SeatFigure(obligations, table, seats[|seats| - 1])
  }

  function SumOfTops(obligations: seq<Obligation>, tops: seq<int>): nat {
    if tops == [] then 0 else SumOfTops(obligations, tops[..|tops| - 1]) + CountTop(obligations, tops[|tops| - 1])
  }

  /** The by-agent rollup: for each seat, its sub-domains' tallies summed. */
  method SeatFigures(table: seq<Domain>, byKey: map<string, nat>, ghost obligations: seq<Obligation>)
    returns (figures: map<string, nat>)
    requires forall k :: Tally(byKey, k) == CountKey(obligations, k)
    ensures forall s :: s in figures <==> s in Seats(table)
    ensures forall s | s in figures :: figures[s] == SeatFigure(obligations, table, s)
  {
    figures := map[];
    var seats := Seats(table);
    for i := 0 to |seats|
      invariant forall s :: s in figures <==> s in seats[..i]
      invariant forall s | s in figures :: figures[s] == SeatFigure(obligations, table, s)
    {
      var sum := 0;
      for j := 0 to |table|
        invariant sum == SeatFigure(obligations, table[..j], seats[i])
      {
        assert table[..j + 1][..j] == table[..j];
        if table[j].seat == seats[i] {
          sum := sum + Tally(byKey, table[j].key);
        }
      }
      assert table[..|table|] == table;
      figures := figures[seats[i] := sum];
    }
    assert seats[..|seats|] == seats;
  }

  // ---------------------------------------------------------------- conservation

  predicate UniqueKeys(table: seq<Domain>) {
    forall i, j | 0 <= i < j < |table| :: table[i].key != table[j].key
  }

  /** Obligations fall under rows of the table. */
  predicate FromTable(obligations: seq<Obligation>, table: seq<Domain>) {
    forall o <- obligations :: o.domain.Some? ==> o.domain.value in table
  }

  lemma {:induction false} FigureOfOne(obligations: seq<Obligation>, o: Obligation, table: seq<Domain>, seat: string)
    requires UniqueKeys(table)
    ensures SeatFigure(obligations + [o], table, seat) ==
            SeatFigure(obligations, table, seat) +
            if !IsOrphan(o) && exists d :: d in table && d.key == o.domain.value.key && d.seat == seat then 1 else 0
  {
    assert (obligations + [o])[..|obligations|] == obligations;
    if table != [] {
      var n := |table| - 1;
      FigureOfOne(obligations, o, table[..n], seat);
      assert forall d :: d in table <==> d in table[..n] || d == table[n];
      assert forall d | d in table[..n] :: d.key != table[n].key;
    }
  }

  lemma {:induction false} FigureOfNone(table: seq<Domain>, seat: string)
    ensures SeatFigure([], table, seat) == 0
  {
    if table != [] {
      FigureOfNone(table[..|table| - 1], seat);
    }
  }

  lemma KeyNamesRow(table: seq<Domain>, d: Domain, x: Domain)
    requires UniqueKeys(table) && d in table && x in table && d.key == x.key
    ensures d == x
  {}

  /** Each agent's figure is a direct count of the obligations whose sub-domain that agent holds. */
  lemma {:induction false} SeatFigureIsDirect(obligations: seq<Obligation>, table: seq<Domain>, seat: string)
    requires UniqueKeys(table) && FromTable(obligations, table)
    ensures SeatFigure(obligations, table, seat) == CountSeat(obligations, seat)
  {
    if obligations == [] {
      FigureOfNone(table, seat);
    } else {
      var init, o := obligations[..|obligations| - 1], obligations[|obligations| - 1];
      assert o in obligations && forall x <- init :: x in obligations;
      assert obligations == init + [o];
      SeatFigureIsDirect(init, table, seat);
      FigureOfOne(init, o, table, seat);
      if !IsOrphan(o) {
        forall d | d in table && d.key == o.domain.value.key ensures d == o.domain.value {
          KeyNamesRow(table, d, o.domain.value);
        }
      }
    }
  }

  lemma {:induction false} SeatsMean(table: seq<Domain>, seat: string)
    ensures seat in Seats(table) <==> exists d :: d in table && d.seat == seat
    ensures forall i, j | 0 <= i < j < |Seats(table)| :: Seats(table)[i] != Seats(table)[j]
  {
    if table != [] {
      SeatsMean(table[..|table| - 1], seat);
      assert forall d :: d in table <==> d in table[..|table| - 1] || d == table[|table| - 1];
    }
  }

  lemma {:induction false} TopsMean(table: seq<Domain>, top: int)
    ensures top in Tops(table) <==> exists d :: d in table && d.topLevel == top
    ensures forall i, j | 0 <= i < j < |Tops(table)| :: Tops(table)[i] != Tops(table)[j]
  {
    if table != [] {
      TopsMean(table[..|table| - 1], top);
      assert forall d :: d in table <==> d in table[..|table| - 1] || d == table[|table| - 1];
    }
  }

  /** The direct counts of distinct seats, summed, take one more obligation into account once. */
  lemma {:induction false} SeatSumOfOne(obligations: seq<Obligation>, o: Obligation, table: seq<Domain>,
                                        seats: seq<string>)
    requires forall i, j | 0 <= i < j < |seats| :: seats[i] != seats[j]
    requires UniqueKeys(table) && FromTable(obligations + [o], table)
    ensures SumOfSeats(obligations + [o], table, seats) ==
            SumOfSeats(obligations, table, seats) + if !IsOrphan(o) && o.domain.value.seat in seats then 1 else 0
  {
    if seats != [] {
      var n := |seats| - 1;
      SeatSumOfOne(obligations, o, table, seats[..n]);
      assert forall x <- obligations :: x in obligations + [o];
      SeatFigureIsDirect(obligations, table, seats[n]);
      SeatFigureIsDirect(obligations + [o], table, seats[n]);
      assert (obligations + [o])[..|obligations|] == obligations;
      assert forall s :: s in seats <==> s in seats[..n] || s == seats[n];
      assert seats[n] !in seats[..n];
    }
  }

  lemma {:induction false} NoObligations(table: seq<Domain>, seats: seq<string>, tops: seq<int>)
    ensures SumOfSeats([], table, seats) == 0 && SumOfTops([], tops) == 0
  {
    if seats != [] {
      NoObligations(table, seats[..|seats| - 1], tops);
      FigureOfNone(table, seats[|seats| - 1]);
    } else if tops != [] {
      NoObligations(table, seats, tops[..|tops| - 1]);
    }
  }

  lemma {:induction false} TopSumOfOne(obligations: seq<Obligation>, o: Obligation, tops: seq<int>)
    requires forall i, j | 0 <= i < j < |tops| :: tops[i] != tops[j]
    ensures SumOfTops(obligations + [o], tops) ==
            SumOfTops(obligations, tops) + if !IsOrphan(o) && o.domain.value.topLevel in tops then 1 else 0
  {
    if tops != [] {
      var n := |tops| - 1;
      TopSumOfOne(obligations, o, tops[..n]);
      assert (obligations + [o])[..|obligations|] == obligations;
      assert forall t :: t in tops <==> t in tops[..n] || t == tops[n];
      assert tops[n] !in tops[..n];
    }
  }

  /** The three aggregations agree: over agents, over top-level domains, and total less orphans. */
  lemma {:induction false} CountsAreConserved(obligations: seq<Obligation>, table: seq<Domain>)
    requires UniqueKeys(table) && FromTable(obligations, table)
    ensures SumOfSeats(obligations, table, Seats(table)) == |obligations| - |Orphans(obligations)|
    ensures SumOfTops(obligations, Tops(table)) == |obligations| - |Orphans(obligations)|
  {
    if obligations == [] {
      NoObligations(table, Seats(table), Tops(table));
    } else {
      var init, o := obligations[..|obligations| - 1], obligations[|obligations| - 1];
      assert o in obligations && forall x <- init :: x in obligations;
      assert obligations == init + [o];
      CountsAreConserved(init, table);
      TopsMean(table, if o.domain.Some? then o.domain.value.topLevel else 0);
      SeatsMean(table, if o.domain.Some? then o.domain.value.seat else "");
      SeatSumOfOne(init, o, table, Seats(table));
      TopSumOfOne(init, o, Tops(table));
    }
  }

  // ---------------------------------------------------------------- orphans and drift

  /** An obligation under a row it could be told to belong to. */
  predicate Placed(o: Obligation, d: Domain) {
    o.domain == Some(d) && o.told
  }

  /** Placed under a row that does not know its owner. */
  ghost predicate Strays(o: Obligation) {
    exists d :: Placed(o, d) && |o.owner| > 0 && o.owner !in {d.seat} + d.coSeats
  }

  lemma DriftIsStraying(o: Obligation)
    ensures Drifts(o) <==> Strays(o)
    ensures IsOrphan(o) <==> forall d :: !Placed(o, d)
  {
    if !IsOrphan(o) {
      assert Placed(o, o.domain.value);
    }
  }

  /** The drift figure is the number of straying obligations. */
  lemma {:induction false} DriftCounts(obligations: seq<Obligation>)
    ensures CountDrift(obligations) == |set i | 0 <= i < |obligations| && Strays(obligations[i])|
  {
    hide Drifts, Strays;
    if obligations != [] {
      var n := |obligations| - 1;
      DriftCounts(obligations[..n]);
      DriftIsStraying(obligations[n]);
      OneMoreStray(obligations);
    }
  }

  lemma OneMoreStray(obligations: seq<Obligation>)
    requires obligations != []
    ensures var n := |obligations| - 1;
            |set i | 0 <= i < |obligations| && Strays(obligations[i])| ==
            |set i | 0 <= i < n && Strays(obligations[..n][i])| + if Strays(obligations[n]) then 1 else 0
  {
    hide Strays;
    var n := |obligations| - 1;
    var before := set i | 0 <= i < n && Strays(obligations[..n][i]);
    var all := set i | 0 <= i < |obligations| && Strays(obligations[i]);
    assert forall i | 0 <= i < n :: obligations[..n][i] == obligations[i];
    assert all == before + if Strays(obligations[n]) then {n} else {};
  }

  ghost predicate Nowhere(o: Obligation) {
    forall d :: !Placed(o, d)
  }

  /** `ids` are the ids of the obligations placed nowhere, which are those at the places `at`, in order. */
  ghost predicate OrphansAt(obligations: seq<Obligation>, ids: seq<string>, at: seq<nat>) {
    && |at| == |ids| && (forall i, j | 0 <= i < j < |at| :: at[i] < at[j])
    && (forall k | 0 <= k < |at| :: at[k] < |obligations| && ids[k] == obligations[at[k]].id)
    && forall i: nat | i < |obligations| :: i in at <==> Nowhere(obligations[i])
  }

  lemma OrphanAdded(obligations: seq<Obligation>, o: Obligation, ids: seq<string>, at: seq<nat>)
    requires OrphansAt(obligations, ids, at) && Nowhere(o)
    ensures OrphansAt(obligations + [o], ids + [o.id], at + [|obligations|])
  {
    hide Nowhere;
  }

  lemma OrphanSkipped(obligations: seq<Obligation>, o: Obligation, ids: seq<string>, at: seq<nat>)
    requires OrphansAt(obligations, ids, at) && !Nowhere(o)
    ensures OrphansAt(obligations + [o], ids, at)
  {
    hide Nowhere;
    forall k | 0 <= k < |at| ensures at[k] < |obligations| {}
    assert |obligations| !in at;
  }

  /** The orphans listed are the obligations placed nowhere, in order. */
  lemma {:induction false} OrphansAre(obligations: seq<Obligation>) returns (at: seq<nat>)
    ensures OrphansAt(obligations, Orphans(obligations), at)
  {
    at := [];
    if obligations != [] {
      var n := |obligations| - 1;
      var front, o := obligations[..n], obligations[n];
      var before := OrphansAre(front);
      assert obligations == front + [o];
      OrphanIsNowhere(o);
      hide Nowhere, OrphansAt, IsOrphan;
      if IsOrphan(o) {
        OrphanAdded(front, o, Orphans(front), before);
        at := before + [n];
      } else {
        OrphanSkipped(front, o, Orphans(front), before);
        assert Orphans(front) + [] == Orphans(front);
        at := before;
      }
    }
  }

  lemma OrphanIsNowhere(o: Obligation)
    ensures IsOrphan(o) <==> Nowhere(o)
  {
    DriftIsStraying(o);
  }
}
