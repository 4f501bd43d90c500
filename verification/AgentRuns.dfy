/**
 The agent-runs cache: keyed on the event-store count, with one shared fetch in flight.

 Requests, appends and fetch outcomes interleave freely; a request that cannot be answered from the
 cache waits for the fetch in flight, starting one if there is none.  The module comment of the source
 calls a stale read impossible.  It is possible for a reader that joined a fetch already in flight,
 and for no other; the theorems say exactly how stale an answer can be.
 */
module AgentRuns {
  import opened Wrappers

  type Runs = seq<string>

  datatype Outcome = Fetched(runs: Runs) | Failed(error: string)

  datatype Cached = Cached(storeCount: nat, runs: Runs, error: Option<string>)

  /** A fetch that has finished, and the store count it was started at. */
  datatype Fetch = Fetch(start: nat, outcome: Outcome)

  /** A reader waiting for the fetch in flight; `owner` started it. */
  datatype Waiter = Waiter(reader: nat, atCount: nat, owner: bool)

  /** An answered read: the count when it asked, what it got, and which finished fetch it reflects. */
  datatype Read = Read(reader: nat, atCount: nat, runs: Runs, error: Option<string>, fetch: nat, waited: bool)

  /** `history` and `answers` record what happened; the code keeps only `cache` and `inflight`. */
  datatype State = State(count: nat, cache: Option<Cached>, inflight: Option<nat>, waiting: seq<Waiter>,
                         history: seq<Fetch>, answers: seq<Read>)

  const START := State(0, None, None, [], [], [])

  datatype Event = Append | Request(reader: nat) | Finish(outcome: Outcome)

  function Answers(waiting: seq<Waiter>, c: Cached, fetch: nat): (answers: seq<Read>)
    ensures |answers| == |waiting|
    ensures forall i | 0 <= i < |waiting| ::
              answers[i] == Read(waiting[i].reader, waiting[i].atCount, c.runs,
                               if waiting[i].owner then c.error else None, fetch, true)
  {
    if waiting == [] then []
    else
      var w := waiting[|waiting| - 1];
      Answers(waiting[..|waiting| - 1], c, fetch) +
      [Read(w.reader, w.atCount, c.runs, if w.owner then c.error else None, fetch, true)]
  }

  /** What a finished fetch leaves in the cache: on failure, whatever runs were there before. */
  function Refreshed(previous: Option<Cached>, start: nat, outcome: Outcome): Cached {
    match outcome
    case Fetched(runs) => Cached(start, runs, None)
    case Failed(error) => Cached(start, if previous.Some? then previous.value.runs else [], Some(error))
  }

  function Newest(history: seq<Fetch>): nat {
    if history == [] then 0 else |history| - 1
  }

  function Next(s: State, e: Event): State {
    match e
    case Append => s.(count := s.count + 1)
    case Request(reader) =>
      if s.cache.Some? && s.cache.value.storeCount == s.count then
        s.(answers := s.answers +
                      [Read(reader, s.count, s.cache.value.runs, s.cache.value.error, Newest(s.history), false)])
      else if s.inflight.Some? then
        s.(waiting := s.waiting + [Waiter(reader, s.count, false)])
      else
        s.(inflight := Some(s.count), waiting := s.waiting + [Waiter(reader, s.count, true)])
    case Finish(outcome) =>
      if s.inflight.None? then s
      else
        var c := Refreshed(s.cache, s.inflight.value, outcome);
        s.(cache := Some(c), inflight := None, waiting := [],
           history := s.history + [Fetch(s.inflight.value, outcome)],
           answers := s.answers + Answers(s.waiting, c, |s.history|))
  }

  function Run(events: seq<Event>): State {
    if events == [] then START else Next(Run(events[..|events| - 1]), events[|events| - 1])
  }

  // ---------------------------------------------------------------- the module's own state

  /** The two module variables, and the reader-facing calls on them. */
  class RunsCache {
    var count: nat
    var cache: Option<Cached>
    var inflight: Option<nat>
    ghost var waiting: seq<Waiter>
    ghost var history: seq<Fetch>
    ghost var answers: seq<Read>

    ghost function AsState(): State
      reads this
    {
      State(count, cache, inflight, waiting, history, answers)
    }

    ghost predicate Valid()
      reads this
    {
      Sound(AsState())
    }

    constructor ()
      ensures Valid() && AsState() == START
    {
      count, cache, inflight := 0, None, None;
      waiting, history, answers := [], [], [];
      new;
    }

    method StoreAppended()
      requires Valid()
      modifies this
      ensures Valid() && AsState() == Next(old(AsState()), Append)
    {
      StepIsSound(AsState(), Append);
      count := count + 1;
    }

    /** The part of `getAgentRuns` before its first await. */
    method GetAgentRuns(reader: nat) returns (served: Option<Runs>)
      requires Valid()
      modifies this
      ensures Valid() && AsState() == Next(old(AsState()), Request(reader))
      ensures served.Some? <==> old(cache).Some? && old(cache).value.storeCount == old(count)
      ensures served.Some? ==> served.value == old(cache).value.runs
    {
      StepIsSound(AsState(), Request(reader));
      if cache.Some? && cache.value.storeCount == count {
        served := Some(cache.value.runs);
        answers := answers + [Read(reader, count, cache.value.runs, cache.value.error, Newest(history), false)];
      } else {
        served := None;
        waiting := waiting + [Waiter(reader, count, inflight.None?)];
        if inflight.None? {
          inflight := Some(count);
        }
      }
    }

    /** The continuation of the shared fetch. */
    method FetchFinished(outcome: Outcome) returns (runs: Runs)
      requires Valid() && inflight.Some?
      modifies this
      ensures Valid() && AsState() == Next(old(AsState()), Finish(outcome))
      ensures runs == cache.value.runs
    {
      StepIsSound(AsState(), Finish(outcome));
      hide Sound, Answers;
      match outcome {
        case Fetched(r) => cache := Some(Cached(inflight.value, r, None));
        case Failed(error) =>
          var previous := if cache.Some? then cache.value.runs else [];
          cache := Some(Cached(inflight.value, previous, Some(error)));
      }
      runs := cache.value.runs;
      answers := answers + Answers(waiting, cache.value, |history|);
      history := history + [Fetch(inflight.value, outcome)];
      waiting := [];
      inflight := None;
    }
  }

  // ---------------------------------------------------------------- what every interleaving keeps

  /** The runs of the last successful fetch, or none. */
  function LastSuccess(history: seq<Fetch>): Runs {
    if history == [] then []
    else
      var f := history[|history| - 1];
      if f.outcome.Fetched? then f.outcome.runs else LastSuccess(history[..|history| - 1])
  }

  /** What a reader is told of a fetch that failed. */
  function ErrorOf(f: Fetch): Option<string> {
    if f.outcome.Failed? then Some(f.outcome.error) else None
  }

  ghost predicate Ascending(history: seq<Fetch>) {
    forall i, j | 0 <= i < j < |history| :: history[i].start < history[j].start
  }

  /** The cache mirrors the last finished fetch; the one in flight started strictly later. */
  ghost predicate Consistent(s: State) {
    && Ascending(s.history)
    && (s.cache.None? <==> s.history == [])
    && (s.cache.Some? ==>
          && s.cache.value.storeCount == s.history[|s.history| - 1].start
          && s.cache.value.error == ErrorOf(s.history[|s.history| - 1])
          && s.cache.value.storeCount <= s.count
          && s.cache.value.runs == LastSuccess(s.history))
    && (s.inflight.Some? ==>
          && s.inflight.value <= s.count
          && (s.cache.Some? ==> s.cache.value.storeCount < s.inflight.value))
  }

  /** Nobody waits without a fetch; a waiter asked at or after its start, its owner exactly then. */
  ghost predicate WaitersInOrder(s: State) {
    forall w <- s.waiting ::
      && s.inflight.Some? && s.inflight.value <= w.atCount <= s.count
      && (w.owner ==> w.atCount == s.inflight.value)
  }

  ghost predicate Accounted(history: seq<Fetch>, r: Read) {
    && r.fetch < |history|
    && history[r.fetch].start <= r.atCount
    && r.runs == LastSuccess(history[..r.fetch + 1])
    && (!r.waited ==> history[r.fetch].start == r.atCount && r.error == ErrorOf(history[r.fetch]))
    && (r.waited ==> r.error in {None, ErrorOf(history[r.fetch])})
  }

  ghost predicate Sound(s: State) {
    && Consistent(s)
    && WaitersInOrder(s)
    && (forall r <- s.answers :: Accounted(s.history, r))
  }

  lemma AccountedStays(history: seq<Fetch>, f: Fetch, r: Read)
    requires Accounted(history, r)
    ensures Accounted(history + [f], r)
  {
    assert (history + [f])[..r.fetch + 1] == history[..r.fetch + 1];
  }

  lemma LastSuccessOfOne(history: seq<Fetch>, f: Fetch)
    ensures LastSuccess(history + [f]) == if f.outcome.Fetched? then f.outcome.runs else LastSuccess(history)
    ensures LastSuccess([]) == []
  {
    assert (history + [f])[..|history|] == history;
  }

  /** What a finishing fetch does, piece by piece. */
  lemma FinishDoes(s: State, outcome: Outcome)
    requires s.inflight.Some?
    ensures var t := Next(s, Finish(outcome));
            var c := Refreshed(s.cache, s.inflight.value, outcome);
            && t.cache == Some(c) && t.inflight.None? && t.waiting == [] && t.count == s.count
            && t.history == s.history + [Fetch(s.inflight.value, outcome)]
            && t.answers == s.answers + Answers(s.waiting, c, |s.history|)
  {
    hide Refreshed, Answers;
  }

  lemma FinishIsConsistent(s: State, outcome: Outcome)
    requires Consistent(s) && s.inflight.Some?
    ensures Consistent(Next(s, Finish(outcome)))
    ensures Next(s, Finish(outcome)).cache.value.runs == LastSuccess(s.history + [Fetch(s.inflight.value, outcome)])
  {
    LastSuccessOfOne(s.history, Fetch(s.inflight.value, outcome));
    FinishDoes(s, outcome);
    hide LastSuccess, Next, Answers;
  }

  lemma AnswersAreAccounted(s: State, c: Cached, f: Fetch, i: nat)
    requires WaitersInOrder(s) && i < |s.waiting| && s.inflight == Some(f.start)
    requires c.runs == LastSuccess(s.history + [f]) && c.error == ErrorOf(f)
    ensures Accounted(s.history + [f], Answers(s.waiting, c, |s.history|)[i])
  {
    hide LastSuccess;
    assert s.waiting[i] in s.waiting;
    assert (s.history + [f])[..|s.history| + 1] == s.history + [f];
  }

  lemma FinishIsAccounted(s: State, outcome: Outcome, r: Read)
    requires Consistent(s) && WaitersInOrder(s) && s.inflight.Some?
    requires forall x <- s.answers :: Accounted(s.history, x)
    requires r in Next(s, Finish(outcome)).answers
    ensures Accounted(Next(s, Finish(outcome)).history, r)
  {
    FinishIsConsistent(s, outcome);
    FinishDoes(s, outcome);
    hide Next, Consistent, LastSuccess, Accounted, WaitersInOrder, Answers, Refreshed;
    var f := Fetch(s.inflight.value, outcome);
    var c := Refreshed(s.cache, s.inflight.value, outcome);
    var answers := Answers(s.waiting, c, |s.history|);
    if r in s.answers {
      AccountedStays(s.history, f, r);
    } else {
      var i :| 0 <= i < |answers| && answers[i] == r;
      AnswersAreAccounted(s, c, f, i);
    }
  }

  lemma FinishIsSound(s: State, outcome: Outcome)
    requires Sound(s) && s.inflight.Some?
    ensures Sound(Next(s, Finish(outcome)))
  {
    FinishIsConsistent(s, outcome);
    FinishDoes(s, outcome);
    hide Next, Consistent, LastSuccess, Accounted, Answers, Refreshed;
    var t := Next(s, Finish(outcome));
    forall r | r in t.answers ensures Accounted(t.history, r) {
      FinishIsAccounted(s, outcome, r);
    }
  }

  lemma StepIsSound(s: State, e: Event)
    requires Sound(s)
    ensures Sound(Next(s, e))
  {
    match e
    case Append =>
    case Request(reader) =>
      assert s.history[..|s.history|] == s.history;
    case Finish(outcome) =>
      if s.inflight.Some? {
        FinishIsSound(s, outcome);
      }
  }

  lemma {:induction false} EveryRunIsSound(events: seq<Event>)
    ensures Sound(Run(events))
  {
    if events != [] {
      EveryRunIsSound(events[..|events| - 1]);
      StepIsSound(Run(events[..|events| - 1]), events[|events| - 1]);
    }
  }

  // ---------------------------------------------------------------- main results

  /** In every interleaving: fetches are started at strictly increasing counts, so no count is fetched
      twice; the one in flight started above the cached count; and the cache holds the runs of the last
      successful fetch. */
  lemma OneFetchPerCount(events: seq<Event>)
    ensures var s := Run(events);
            && Ascending(s.history)
            && (s.inflight.Some? ==> forall f <- s.history :: f.start < s.inflight.value)
            && (s.cache.Some? ==>
                  && s.history != [] && s.cache.value.runs == LastSuccess(s.history)
                  && s.cache.value.error == ErrorOf(s.history[|s.history| - 1]))
  {
    EveryRunIsSound(events);
    var s := Run(events);
    if s.inflight.Some? {
      forall f | f in s.history ensures f.start < s.inflight.value {
        var i :| 0 <= i < |s.history| && s.history[i] == f;
        assert i < |s.history| - 1 ==> s.history[i].start < s.history[|s.history| - 1].start;
      }
    }
  }

  predicate Hit(s: State) {
    s.cache.Some? && s.cache.value.storeCount == s.count
  }

  /** The start count of the fetch that will answer a request made now. */
  function ServedFrom(s: State): nat {
    if !Hit(s) && s.inflight.Some? then s.inflight.value else s.count
  }

  /** `r` answers the request at position `k` of the run.  A hit reflects the last fetch finished by then;
      a miss reflects the next one to finish, which is the one in flight at the request or started by it. */
  ghost predicate AnswerOf(events: seq<Event>, k: nat, r: Read) {
    && k < |events| && events[k] == Request(r.reader)
    && var s, h := Run(events[..k]), Run(events).history;
    && r.atCount == s.count && r.waited == !Hit(s)
    && r.fetch == (if Hit(s) then |s.history| - 1 else |s.history|)
    && r.fetch < |h| && h[r.fetch].start == ServedFrom(s)
    && r.runs == LastSuccess(h[..r.fetch + 1])
  }

  /** `w` waits since the request at position `k`, for the fetch then in flight. */
  ghost predicate WaitOf(events: seq<Event>, k: nat, w: Waiter) {
    && k < |events| && events[k] == Request(w.reader)
    && var s, t := Run(events[..k]), Run(events);
    && w.atCount == s.count && !Hit(s)
    && |s.history| == |t.history| && t.inflight == Some(ServedFrom(s))
  }

  lemma RunThen(events: seq<Event>, e: Event, k: nat)
    requires k <= |events|
    ensures Run(events + [e]) == Next(Run(events), e)
    ensures (events + [e])[..k] == events[..k]
  {
    assert (events + [e])[..|events|] == events;
  }

  lemma AnswerStays(events: seq<Event>, e: Event, k: nat, r: Read)
    requires AnswerOf(events, k, r)
    ensures AnswerOf(events + [e], k, r)
  {
    hide LastSuccess;
    RunThen(events, e, k);
    var h := Run(events).history;
    assert h <= Run(events + [e]).history;
    assert Run(events + [e]).history[..r.fetch + 1] == h[..r.fetch + 1];
  }

  lemma WaitStays(events: seq<Event>, e: Event, k: nat, w: Waiter)
    requires WaitOf(events, k, w) && !e.Finish?
    ensures WaitOf(events + [e], k, w)
  {
    RunThen(events, e, k);
  }

  /** A reader waiting since state `at` for the fetch then in flight is answered by it. */
  lemma FinishAnswers(at: State, s: State, outcome: Outcome, i: nat)
    requires Consistent(s) && i < |s.waiting| && s.waiting[i].atCount == at.count
    requires |at.history| == |s.history| && s.inflight == Some(ServedFrom(at))
    ensures var c := Refreshed(s.cache, s.inflight.value, outcome);
            var r, h := Answers(s.waiting, c, |s.history|)[i], Next(s, Finish(outcome)).history;
            && r.reader == s.waiting[i].reader && r.atCount == at.count && r.waited && r.fetch == |at.history|
            && r.fetch < |h| && h[r.fetch].start == ServedFrom(at) && r.runs == LastSuccess(h[..r.fetch + 1])
  {
    FinishIsConsistent(s, outcome);
    FinishDoes(s, outcome);
    hide LastSuccess, Next, Consistent, Refreshed, ServedFrom;
    var h := Next(s, Finish(outcome)).history;
    assert h[..|s.history| + 1] == h;
  }

  /** Those who wait are answered by the fetch that finishes. */
  lemma WaitEnds(events: seq<Event>, outcome: Outcome, k: nat, i: nat)
    requires i < |Run(events).waiting| && WaitOf(events, k, Run(events).waiting[i])
    ensures var s := Run(events);
            var c := Refreshed(s.cache, s.inflight.value, outcome);
            AnswerOf(events + [Finish(outcome)], k, Answers(s.waiting, c, |s.history|)[i])
  {
    hide LastSuccess, Run, Next, Consistent, WaitersInOrder, Accounted, Refreshed, ServedFrom, Hit, Answers;
    EveryRunIsSound(events);
    RunThen(events, Finish(outcome), k);
    FinishAnswers(Run(events[..k]), Run(events), outcome, i);
  }

  ghost predicate AllTraced(events: seq<Event>) {
    && (forall r <- Run(events).answers :: exists k :: AnswerOf(events, k, r))
    && (forall w <- Run(events).waiting :: exists k :: WaitOf(events, k, w))
  }

  lemma RequestIsTraced(events: seq<Event>, reader: nat)
    ensures var s, t := Run(events), Run(events + [Request(reader)]);
            if Hit(s) then t.answers != [] && AnswerOf(events + [Request(reader)], |events|, t.answers[|t.answers| - 1])
            else t.waiting != [] && WaitOf(events + [Request(reader)], |events|, t.waiting[|t.waiting| - 1])
  {
    hide LastSuccess;
    EveryRunIsSound(events);
    RunThen(events, Request(reader), |events|);
    var h := Run(events).history;
    assert h[..|h|] == h && events[..|events|] == events;
  }

  lemma EarlierStaysTraced(events: seq<Event>, e: Event)
    requires AllTraced(events)
    ensures forall r <- Run(events).answers :: exists k :: AnswerOf(events + [e], k, r)
    ensures !e.Finish? ==> forall w <- Run(events).waiting :: exists k :: WaitOf(events + [e], k, w)
  {
    forall r | r in Run(events).answers ensures exists k :: AnswerOf(events + [e], k, r) {
      var k :| AnswerOf(events, k, r);
      AnswerStays(events, e, k, r);
    }
    if !e.Finish? {
      forall w | w in Run(events).waiting ensures exists k :: WaitOf(events + [e], k, w) {
        var k :| WaitOf(events, k, w);
        WaitStays(events, e, k, w);
      }
    }
  }

  lemma FinishIsTraced(events: seq<Event>, outcome: Outcome)
    requires AllTraced(events)
    ensures AllTraced(events + [Finish(outcome)])
  {
    var s, t := Run(events), Run(events + [Finish(outcome)]);
    RunThen(events, Finish(outcome), 0);
    EarlierStaysTraced(events, Finish(outcome));
    if s.inflight.Some? {
      var answers := Answers(s.waiting, Refreshed(s.cache, s.inflight.value, outcome), |s.history|);
      forall r | r in t.answers ensures exists k :: AnswerOf(events + [Finish(outcome)], k, r) {
        if r !in s.answers {
          var i :| 0 <= i < |answers| && answers[i] == r;
          assert s.waiting[i] in s.waiting;
          var k :| WaitOf(events, k, s.waiting[i]);
          WaitEnds(events, outcome, k, i);
        }
      }
    } else {
      EveryRunIsSound(events);
    }
  }

  lemma StepIsTraced(events: seq<Event>, e: Event)
    requires AllTraced(events)
    ensures AllTraced(events + [e])
  {
    hide AnswerOf, WaitOf;
    if e.Finish? {
      FinishIsTraced(events, e.outcome);
    } else {
      RunThen(events, e, 0);
      EarlierStaysTraced(events, e);
      if e.Request? {
        RequestIsTraced(events, e.reader);
      }
    }
  }

  lemma {:induction false} EveryRunIsTraced(events: seq<Event>)
    ensures AllTraced(events)
  {
    if events != [] {
      var n := |events| - 1;
      EveryRunIsTraced(events[..n]);
      StepIsTraced(events[..n], events[n]);
      assert events == events[..n] + [events[n]];
    }
  }

  /** Every answer of every run belongs to a request, and reflects exactly the fetch that was in flight at
      that request (or was started by it, or had filled the cache it hit): the runs are the last success up
      to that fetch. */
  lemma AnswersAreAccountedFor(events: seq<Event>, r: Read)
    requires r in Run(events).answers
    ensures exists k :: AnswerOf(events, k, r)
    ensures Run(events).history[r.fetch].start <= r.atCount
  {
    EveryRunIsTraced(events);
    EveryRunIsSound(events);
  }

  /** A request made now misses the cache and joins a fetch started at a smaller count. */
  predicate JoinsOlder(s: State) {
    !Hit(s) && s.inflight.Some? && s.inflight.value < s.count
  }

  /** An answer is older than the store its reader saw exactly when the request missed the cache and joined
      a fetch started at a smaller count. */
  lemma StaleExactlyWhenJoining(events: seq<Event>, r: Read)
    requires r in Run(events).answers
    ensures exists k: nat :: AnswerOf(events, k, r) &&
              (Run(events).history[r.fetch].start < r.atCount <==> JoinsOlder(Run(events[..k])))
  {
    hide LastSuccess;
    AnswersAreAccountedFor(events, r);
    var k: nat :| AnswerOf(events, k, r);
    assert AnswerOf(events, k, r) && (Run(events).history[r.fetch].start < r.atCount <==> JoinsOlder(Run(events[..k])));
  }

  /** A waiting reader goes on waiting until a fetch finishes. */
  lemma {:induction false} WaitsThrough(events: seq<Event>, mid: seq<Event>, k: nat, i: nat)
    requires forall e <- mid :: !e.Finish?
    requires i < |Run(events).waiting| && WaitOf(events, k, Run(events).waiting[i])
    ensures i < |Run(events + mid).waiting| && Run(events + mid).waiting[i] == Run(events).waiting[i]
    ensures WaitOf(events + mid, k, Run(events + mid).waiting[i])
  {
    if mid == [] {
      assert events + mid == events;
    } else {
      var n := |mid| - 1;
      WaitsThrough(events, mid[..n], k, i);
      assert mid[n] in mid;
      assert events + mid == events + mid[..n] + [mid[n]];
      RunThen(events + mid[..n], mid[n], 0);
      WaitStays(events + mid[..n], mid[n], k, Run(events).waiting[i]);
    }
  }

  lemma {:induction false} AnswersStay(events: seq<Event>, more: seq<Event>, k: nat, r: Read)
    requires r in Run(events).answers && AnswerOf(events, k, r)
    ensures r in Run(events + more).answers && AnswerOf(events + more, k, r)
  {
    hide AnswerOf;
    if more == [] {
      assert events + more == events;
    } else {
      var n := |more| - 1;
      AnswersStay(events, more[..n], k, r);
      assert events + more == events + more[..n] + [more[n]];
      RunThen(events + more[..n], more[n], 0);
      AnswerStays(events + more[..n], more[n], k, r);
    }
  }

  /** Every request is answered by the time the next fetch finishes, however many appends and other
      requests come in between. */
  lemma RequestIsAnswered(events: seq<Event>, reader: nat, mid: seq<Event>, outcome: Outcome)
    requires forall e <- mid :: !e.Finish?
    ensures var all := events + [Request(reader)] + mid + [Finish(outcome)];
            exists r <- Run(all).answers :: AnswerOf(all, |events|, r)
  {
    hide AnswerOf, WaitOf, LastSuccess;
    var asked := events + [Request(reader)];
    var all := asked + mid + [Finish(outcome)];
    RequestIsTraced(events, reader);
    var s, t := Run(asked), Run(asked + mid);
    if Hit(Run(events)) {
      AnswersStay(asked, mid + [Finish(outcome)], |events|, s.answers[|s.answers| - 1]);
      assert asked + (mid + [Finish(outcome)]) == all;
    } else {
      var i := |s.waiting| - 1;
      WaitsThrough(asked, mid, |events|, i);
      WaitEnds(asked + mid, outcome, |events|, i);
      RunThen(asked + mid, Finish(outcome), 0);
      AnsweredOnFinish(asked + mid, outcome, i, |events|);
    }
  }

  lemma AnsweredOnFinish(events: seq<Event>, outcome: Outcome, i: nat, k: nat)
    requires i < |Run(events).waiting| && WaitOf(events, k, Run(events).waiting[i])
    ensures var s := Run(events);
            s.inflight.Some? &&
            Answers(s.waiting, Refreshed(s.cache, s.inflight.value, outcome), |s.history|)[i] in
              Run(events + [Finish(outcome)]).answers
  {
    RunThen(events, Finish(outcome), 0);
    var s := Run(events);
    var c := Refreshed(s.cache, s.inflight.value, outcome);
    assert Answers(s.waiting, c, |s.history|)[i] in Answers(s.waiting, c, |s.history|);
  }

  /** The stale reader: it asks at count 2 and is given what was fetched at count 1. */
  lemma JoinedReaderIsStale()
    ensures var s := Run([Append, Request(7), Append, Request(8), Finish(Fetched(["old"]))]);
            && s.answers == [Read(7, 1, ["old"], None, 0, true), Read(8, 2, ["old"], None, 0, true)]
            && |s.history| == 1 && s.history[0].start == 1 && s.count == 2
  {
    var e := [Append, Request(7), Append, Request(8), Finish(Fetched(["old"]))];
    assert e[..4] == [Append, Request(7), Append, Request(8)];
    assert e[..4][..3] == [Append, Request(7), Append];
    assert [Append, Request(7), Append][..2] == [Append, Request(7)];
    assert [Append, Request(7)][..1] == [Append] && [Append][..0] == [];
    var s1 := Next(START, Append);
    assert Run([Append]) == s1;
    var s2 := Next(s1, Request(7));
    assert Run([Append, Request(7)]) == s2;
    var s3 := Next(s2, Append);
    assert Run([Append, Request(7), Append]) == s3;
    var s4 := Next(s3, Request(8));
    assert Run(e[..4]) == s4;
    assert s4.waiting == [Waiter(7, 1, true), Waiter(8, 2, false)];
    assert Run(e) == Next(s4, Finish(Fetched(["old"])));
  }
}
