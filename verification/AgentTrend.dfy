/**
 Token-usage trends per agent, from records pruned to fourteen days at each arrival.
 */
module AgentTrend {
  import opened Wrappers

  const DAY: int := 86400000

  datatype Record = Record(at: int, tokens: int)

  datatype Usage = Usage(agent: string, at: int, tokens: int)

  predicate Within(at: int, now: int, days: int) {
    now - at <= days * DAY
  }

  /** The records no older than fourteen days at `now`. */
  function Recent(records: seq<Record>, now: int): seq<Record> {
    if records == [] then []
    else
      var r := records[|records| - 1];
      Recent(records[..|records| - 1], now) + (if Within(r.at, now, 14) then [r] else [])
  }

  function LastWeek(records: seq<Record>, now: int): int {
    if records == [] then 0
    else
      var r := records[|records| - 1];
      LastWeek(records[..|records| - 1], now) + (if Within(r.at, now, 7) then r.tokens else 0)
  }

  function WeekBefore(records: seq<Record>, now: int): int {
    if records == [] then 0
    else
      var r := records[|records| - 1];
      WeekBefore(records[..|records| - 1], now) +
      (if Within(r.at, now, 14) && !Within(r.at, now, 7) then r.tokens else 0)
  }

  datatype Trend = Improving | Stable | Degrading

  function TrendOf(recent: int, prior: int): Trend {
    if prior == 0 then Stable
    else
      var change := (recent - prior) as real / prior as real;
      if change <= -0.05 then Improving else if change >= 0.05 then Degrading else Stable
  }

  function DeriveTrend(records: seq<Record>, now: int): Trend {
    TrendOf(LastWeek(records, now), WeekBefore(records, now))
  }

  // ---------------------------------------------------------------- the reducer

  /** One agent's records after the events so far: each arrival prunes by its own time, then appends. */
  function Kept(events: seq<Usage>, agent: string): seq<Record> {
    if events == [] then []
    else
      var before, e := Kept(events[..|events| - 1], agent), events[|events| - 1];
      if e.agent == agent then Recent(before, e.at) + [Record(e.at, e.tokens)] else before
  }

  /** All of an agent's records. */
  function All(events: seq<Usage>, agent: string): seq<Record> {
    if events == [] then []
    else
      var before, e := All(events[..|events| - 1], agent), events[|events| - 1];
      if e.agent == agent then before + [Record(e.at, e.tokens)] else before
  }

  method BuildTrends(events: seq<Usage>, now: int) returns (trends: map<string, Trend>)
    ensures forall a :: a in trends <==> exists e :: e in events && e.agent == a
    ensures forall a | a in trends :: trends[a] == DeriveTrend(Kept(events, a), now)
  {
    var byAgent: map<string, seq<Record>> := map[];
    for i := 0 to |events|
      invariant forall a :: a in byAgent <==> exists e :: e in events[..i] && e.agent == a
      invariant forall a | a in byAgent :: byAgent[a] == Kept(events[..i], a)
      invariant forall a | a !in byAgent :: Kept(events[..i], a) == []
    {
      var e := events[i];
      assert events[..i + 1][..i] == events[..i];
      assert forall x :: x in events[..i + 1] <==> x in events[..i] || x == e;
      var existing := if e.agent in byAgent then byAgent[e.agent] else [];
      byAgent := byAgent[e.agent := Recent(existing, e.at) + [Record(e.at, e.tokens)]];
    }
    assert events[..|events|] == events;
    trends := map a | a in byAgent :: DeriveTrend(byAgent[a], now);
  }

  // ---------------------------------------------------------------- pruning and the windows

  lemma {:induction false} RecentOfConcat(a: seq<Record>, b: seq<Record>, now: int)
    ensures Recent(a + b, now) == Recent(a, now) + Recent(b, now)
  {
    if b == [] {
      assert a + b == a;
    } else {
      var n := |b| - 1;
      assert (a + b)[..|a + b| - 1] == a + b[..n];
      RecentOfConcat(a, b[..n], now);
    }
  }

  lemma {:induction false} RecentMeans(records: seq<Record>, now: int, r: Record)
    ensures r in Recent(records, now) <==> r in records && Within(r.at, now, 14)
    ensures |Recent(records, now)| <= |records|
    ensures |Recent(records, now)| == |records| <==> forall x <- records :: Within(x.at, now, 14)
  {
    if records != [] {
      RecentMeans(records[..|records| - 1], now, r);
      assert forall x :: x in records <==> x in records[..|records| - 1] || x == records[|records| - 1];
    }
  }

  /** The two windows look at the recent records only. */
  lemma {:induction false} WindowsOfRecent(records: seq<Record>, now: int)
    ensures LastWeek(Recent(records, now), now) == LastWeek(records, now)
    ensures WeekBefore(Recent(records, now), now) == WeekBefore(records, now)
  {
    if records != [] {
      var n := |records| - 1;
      var before := Recent(records[..n], now);
      WindowsOfRecent(records[..n], now);
      if Within(records[n].at, now, 14) {
        assert (before + [records[n]])[..|before|] == before;
      } else {
        assert before + [] == before;
      }
    }
  }

  /** Arrival `j` is more than fourteen days past record `i` of the same agent, which the final windows
      still want. */
  predicate Jumps(records: seq<Record>, now: int, i: nat, j: nat) {
    i < j < |records| && Within(records[i].at, now, 14) && !Within(records[i].at, records[j].at, 14)
  }

  ghost predicate NoJump(records: seq<Record>, now: int) {
    forall i: nat, j: nat :: !Jumps(records, now, i, j)
  }

  /** Pruning, expressed on the agent's own records. */
  function Pruned(records: seq<Record>): seq<Record> {
    if records == [] then []
    else
      var r := records[|records| - 1];
      Recent(Pruned(records[..|records| - 1]), r.at) + [r]
  }

  lemma {:induction false} KeptIsPruned(events: seq<Usage>, agent: string)
    ensures Kept(events, agent) == Pruned(All(events, agent))
  {
    if events != [] {
      var n := |events| - 1;
      KeptIsPruned(events[..n], agent);
      var before := All(events[..n], agent);
      var r := Record(events[n].at, events[n].tokens);
      assert (before + [r])[..|before|] == before;
    }
  }

  lemma {:induction false} PrunedCount(records: seq<Record>, now: int)
    ensures |Recent(Pruned(records), now)| <= |Recent(records, now)|
    ensures forall r :: r in Pruned(records) ==> r in records
  {
    if records != [] {
      var n := |records| - 1;
      var init, last := records[..n], records[n];
      PrunedCount(init, now);
      assert records == init + [last];
      RecentOfConcat(init, [last], now);
      RecentOfConcat(Recent(Pruned(init), last.at), [last], now);
      RecentTwice(Pruned(init), last.at, now);
      forall r | r in Pruned(records) ensures r in records {
        RecentMeans(Pruned(init), last.at, r);
      }
    }
  }

  /** Recent at one time, then at another. */
  lemma {:induction false} RecentTwice(records: seq<Record>, one: int, two: int)
    ensures Recent(Recent(records, one), two) == Recent(Recent(records, two), one)
    ensures |Recent(Recent(records, one), two)| <= |Recent(records, two)|
    ensures |Recent(Recent(records, one), two)| == |Recent(records, two)| <==>
              forall r <- records :: Within(r.at, two, 14) ==> Within(r.at, one, 14)
    ensures |Recent(Recent(records, one), two)| == |Recent(records, two)| ==>
              Recent(Recent(records, one), two) == Recent(records, two)
  {
    if records != [] {
      var n := |records| - 1;
      var init, last := records[..n], records[n];
      RecentTwice(init, one, two);
      assert forall x :: x in records <==> x in init || x == last;
      RecentOfConcat(Recent(init, one), if Within(last.at, one, 14) then [last] else [], two);
      RecentOfConcat(Recent(init, two), if Within(last.at, two, 14) then [last] else [], one);
      RecentOfFew(last, one);
      RecentOfFew(last, two);
    }
  }

  lemma RecentOfFew(r: Record, now: int)
    ensures Recent([r], now) == if Within(r.at, now, 14) then [r] else []
    ensures Recent([], now) == []
  {
    assert [r][..0] == [];
  }

  /** The pruned records show the final windows everything exactly when no arrival jumps more than fourteen
      days past a record the windows still want. */
  lemma {:induction false} WindowKeptIff(records: seq<Record>, now: int)
    ensures Recent(Pruned(records), now) == Recent(records, now) <==> NoJump(records, now)
  {
    if records == [] {
    } else {
      var n := |records| - 1;
      var init, last := records[..n], records[n];
      assert records == init + [last];
      WindowKeptIff(init, now);
      PrunedCount(init, now);
      RecentOfConcat(init, [last], now);
      RecentOfConcat(Recent(Pruned(init), last.at), [last], now);
      RecentTwice(Pruned(init), last.at, now);
      JumpOfOne(init, last, now);
      SameTail(Recent(Recent(Pruned(init), last.at), now), Recent(init, now), Recent([last], now));
      if Recent(Pruned(init), now) == Recent(init, now) {
        forall r: Record
          ensures (r in Pruned(init) && Within(r.at, now, 14)) <==> (r in init && Within(r.at, now, 14))
        {
          RecentMeans(Pruned(init), now, r);
          RecentMeans(init, now, r);
        }
      }
    }
  }

  lemma SameTail(a: seq<Record>, b: seq<Record>, t: seq<Record>)
    ensures a + t == b + t <==> a == b
  {
    if a + t == b + t {
      assert |a| == |b|;
      assert a == (a + t)[..|a|] && b == (b + t)[..|b|];
    }
  }

  lemma JumpOfOne(init: seq<Record>, last: Record, now: int)
    ensures NoJump(init + [last], now) <==>
            NoJump(init, now) && forall r <- init :: Within(r.at, now, 14) ==> Within(r.at, last.at, 14)
  {
    var all := init + [last];
    if NoJump(all, now) {
      forall i: nat, j: nat ensures !Jumps(init, now, i, j) {
        assert !Jumps(all, now, i, j);
      }
      forall r | r in init ensures Within(r.at, now, 14) ==> Within(r.at, last.at, 14) {
        var i :| 0 <= i < |init| && init[i] == r;
        assert !Jumps(all, now, i, |init|);
      }
    }
    if NoJump(init, now) && forall r <- init :: Within(r.at, now, 14) ==> Within(r.at, last.at, 14) {
      forall i: nat, j: nat ensures !Jumps(all, now, i, j) {
        assert !Jumps(init, now, i, j);
        if j == |init| && i < j {
          assert all[i] in init;
        }
      }
    }
  }

  /** Whatever the order of arrival, if no record is dated after `now` the trend from the pruned records is
      the trend from all of the agent's records. */
  lemma PruningKeepsTrend(events: seq<Usage>, agent: string, now: int)
    requires forall r <- All(events, agent) :: r.at <= now
    ensures DeriveTrend(Kept(events, agent), now) == DeriveTrend(All(events, agent), now)
  {
    hide TrendOf;
    var records := All(events, agent);
    KeptIsPruned(events, agent);
    forall i: nat, j: nat ensures !Jumps(records, now, i, j) {
      if i < j < |records| {
        assert records[j] in records;
      }
    }
    WindowKeptIff(records, now);
    WindowsOfRecent(records, now);
    WindowsOfRecent(Pruned(records), now);
  }

  /** A record dated ahead of the clock can erase history the trend needs. */
  lemma FutureRecordErases()
    ensures var events := [Usage("a", 0, 100), Usage("a", 20 * DAY, 1)];
            DeriveTrend(Kept(events, "a"), 10 * DAY) != DeriveTrend(All(events, "a"), 10 * DAY)
  {
    hide TrendOf, LastWeek, WeekBefore, Recent, Within, Kept, All;
    var x, y := Usage("a", 0, 100), Usage("a", 20 * DAY, 1);
    var r, q := Record(0, 100), Record(20 * DAY, 1);
    FewRecords(x, y);
    WindowsOfFew(r, q);
    TrendExamples();
  }

  lemma FewRecords(x: Usage, y: Usage)
    requires x == Usage("a", 0, 100) && y == Usage("a", 20 * DAY, 1)
    ensures All([x, y], "a") == [Record(0, 100), Record(20 * DAY, 1)]
    ensures Kept([x, y], "a") == [Record(20 * DAY, 1)]
  {
    hide Recent, Kept, All;
    RecentOfFew(Record(0, 100), 20 * DAY);
    RecentOfFew(Record(0, 100), 0);
    OneMoreUsage([], x);
    OneMoreUsage([x], y);
    NoUsage();
    assert [] + [x] == [x] && [x] + [y] == [x, y];
    assert Kept([x], "a") == [] + [Record(0, 100)] == [Record(0, 100)];
    assert Kept([x, y], "a") == [] + [Record(20 * DAY, 1)];
  }

  lemma OneMoreUsage(events: seq<Usage>, e: Usage)
    ensures Kept(events + [e], e.agent) == Recent(Kept(events, e.agent), e.at) + [Record(e.at, e.tokens)]
    ensures All(events + [e], e.agent) == All(events, e.agent) + [Record(e.at, e.tokens)]
  {
    assert (events + [e])[..|events|] == events;
  }

  lemma NoUsage()
    ensures Kept([], "a") == [] && All([], "a") == []
  {}

  lemma WindowsOfFew(r: Record, q: Record)
    requires r == Record(0, 100) && q == Record(20 * DAY, 1)
    ensures LastWeek([q], 10 * DAY) == LastWeek([r, q], 10 * DAY) == 1
    ensures WeekBefore([q], 10 * DAY) == 0 && WeekBefore([r, q], 10 * DAY) == 100
  {
    WindowsOfOne([], q, 10 * DAY);
    WindowsOfOne([], r, 10 * DAY);
    WindowsOfOne([r], q, 10 * DAY);
    assert [] + [q] == [q] && [] + [r] == [r] && [r] + [q] == [r, q];
    assert LastWeek([], 10 * DAY) == 0 && WeekBefore([], 10 * DAY) == 0;
  }

  lemma WindowsOfOne(records: seq<Record>, r: Record, now: int)
    ensures LastWeek(records + [r], now) == LastWeek(records, now) + (if Within(r.at, now, 7) then r.tokens else 0)
    ensures WeekBefore(records + [r], now) ==
            WeekBefore(records, now) + (if Within(r.at, now, 14) && !Within(r.at, now, 7) then r.tokens else 0)
  {
    assert (records + [r])[..|records|] == records;
  }

  lemma TrendExamples()
    ensures TrendOf(1, 100) == Improving && TrendOf(1, 0) == Stable
  {}

  // ---------------------------------------------------------------- the trend in plain figures

  /** The tokens of the records whose age in milliseconds is as asked. */
  function TokensAged(records: seq<Record>, now: int, aged: int -> bool): int {
    if records == [] then 0
    else (if aged(now - records[0].at) then records[0].tokens else 0) + TokensAged(records[1..], now, aged)
  }

  function WeekOld(): int -> bool {
    age => age <= 604800000
  }

  /** More than a week and at most two. */
  function FortnightOld(): int -> bool {
    age => 604800000 < age <= 1209600000
  }

  lemma {:induction false} TokensOfOne(records: seq<Record>, r: Record, now: int, aged: int -> bool)
    ensures TokensAged(records + [r], now, aged) == TokensAged(records, now, aged) + if aged(now - r.at) then r.tokens
            else 0
  {
    if records == [] {
      assert records + [r] == [r] && [r][1..] == [];
    } else {
      assert (records + [r])[1..] == records[1..] + [r];
      TokensOfOne(records[1..], r, now, aged);
    }
  }

  lemma {:induction false} WindowsAre(records: seq<Record>, now: int)
    ensures LastWeek(records, now) == TokensAged(records, now, WeekOld())
    ensures WeekBefore(records, now) == TokensAged(records, now, FortnightOld())
  {
    if records != [] {
      var n := |records| - 1;
      WindowsAre(records[..n], now);
      TokensOfOne(records[..n], records[n], now, WeekOld());
      TokensOfOne(records[..n], records[n], now, FortnightOld());
      assert records == records[..n] + [records[n]];
    }
  }

  /** Five per cent down or up against the week before; with nothing in the week before, stable. */
  ghost predicate Says(trend: Trend, recent: int, prior: int) {
    && (prior == 0 ==> trend == Stable)
    && (prior > 0 ==> (trend == Improving <==> 20 * recent <= 19 * prior) &&
                      (trend == Degrading <==> 20 * recent >= 21 * prior))
    && (prior < 0 ==> (trend == Improving <==> 20 * recent >= 19 * prior) &&
                      (trend == Degrading <==> 20 * recent <= 21 * prior && 20 * recent < 19 * prior))
  }

  lemma Change(recent: int, prior: int)
    requires prior != 0
    ensures var change := (recent - prior) as real / prior as real;
            && (prior > 0 ==> (change <= -0.05 <==> 20 * recent <= 19 * prior))
            && (prior > 0 ==> (change >= 0.05 <==> 20 * recent >= 21 * prior))
            && (prior < 0 ==> (change <= -0.05 <==> 20 * recent >= 19 * prior))
            && (prior < 0 ==> (change >= 0.05 <==> 20 * recent <= 21 * prior))
  {
    var change := (recent - prior) as real / prior as real;
    Quotient((recent - prior) as real, prior as real);
    if prior > 0 {
      OnScale(change, (recent - prior) as real, prior as real);
    } else {
      OnScale(change, (prior - recent) as real, (-prior) as real);
    }
  }

  lemma Quotient(a: real, b: real)
    requires b != 0.0
    ensures a / b * b == a && a / b * -b == -a
  {}

  lemma OnScale(change: real, difference: real, p: real)
    requires p > 0.0 && change * p == difference
    ensures change <= -0.05 <==> 20.0 * difference <= -p
    ensures change >= 0.05 <==> 20.0 * difference >= p
  {
    Ordered(change, -0.05, p);
    Ordered(0.05, change, p);
  }

  lemma Ordered(a: real, b: real, p: real)
    requires p > 0.0
    ensures a <= b <==> a * p <= b * p
  {
    if a <= b {
      assert (b - a) * p >= 0.0;
      assert (b - a) * p == b * p - a * p;
    } else {
      assert (a - b) * p > 0.0;
      assert (a - b) * p == a * p - b * p;
    }
  }

  /** The trend of a list of records. */
  lemma TrendReads(records: seq<Record>, now: int)
    ensures Says(DeriveTrend(records, now), TokensAged(records, now, WeekOld()),
                 TokensAged(records, now, FortnightOld()))
  {
    WindowsAre(records, now);
    var recent, prior := LastWeek(records, now), WeekBefore(records, now);
    hide LastWeek, WeekBefore, TokensAged;
    if prior != 0 {
      Change(recent, prior);
    }
  }

  /** No later arrival is more than fourteen days past record `i`. */
  predicate Outlasts(records: seq<Record>, i: nat)
    requires i < |records|
  {
    forall j | i < j < |records| :: records[j].at - records[i].at <= 1209600000
  }

  /** The first `n` records, less those some later arrival is more than fourteen days past. */
  function Outlasting(records: seq<Record>, n: nat): seq<Record>
    requires n <= |records|
  {
    if n == 0 then []
    else
      Outlasting(records, n - 1) + if Outlasts(records, n - 1) then [records[n - 1]] else []
  }

  lemma OutlastsOneMore(records: seq<Record>, last: Record, i: nat)
    requires i < |records|
    ensures Outlasts(records + [last], i) <==> Outlasts(records, i) && Within(records[i].at, last.at, 14)
  {
    var all, n := records + [last], |records|;
    assert all[n] == last && forall j | 0 <= j < n :: all[j] == records[j];
  }

  lemma {:induction false} OutlastingOneMore(records: seq<Record>, last: Record, n: nat)
    requires n <= |records|
    ensures Outlasting(records + [last], n) == Recent(Outlasting(records, n), last.at)
  {
    hide Outlasts, Within;
    if n > 0 {
      OutlastingOneMore(records, last, n - 1);
      OutlastsOneMore(records, last, n - 1);
      RecentOfConcat(Outlasting(records, n - 1), if Outlasts(records, n - 1) then [records[n - 1]] else [], last.at);
      RecentOfFew(records[n - 1], last.at);
    }
  }

  /** Pruning keeps exactly the records no later arrival is more than fourteen days past. */
  lemma {:induction false} PrunedIsOutlasting(records: seq<Record>)
    ensures Pruned(records) == Outlasting(records, |records|)
  {
    if records != [] {
      var n := |records| - 1;
      PrunedIsOutlasting(records[..n]);
      OutlastingOneMore(records[..n], records[n], n);
      assert records == records[..n] + [records[n]];
    }
  }

  /** MAIN: an agent's trend, from its records that no later one of its own is more than fourteen days past. */
  lemma TrendOfAgentReads(events: seq<Usage>, agent: string, now: int)
    ensures var records := All(events, agent);
            var kept := Outlasting(records, |records|);
            Says(DeriveTrend(Kept(events, agent), now), TokensAged(kept, now, WeekOld()),
                 TokensAged(kept, now, FortnightOld()))
  {
    KeptIsPruned(events, agent);
    PrunedIsOutlasting(All(events, agent));
    TrendReads(Kept(events, agent), now);
  }
}
