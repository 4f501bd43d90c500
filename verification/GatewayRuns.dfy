/**
 Any number of orders through the gateway, interleaved with any facts.
 */
module GatewayRuns {
  import opened Wrappers
  import opened Eligibility
  import opened GatewayLog
  import opened OrderGateway
  import opened GatewayMeaning

  datatype Action = Observe(record: Record) | Submit(order: Order, id: string, asOf: int)

  function LogAfter(desk: Desk, actions: seq<Action>): seq<Entry> {
    if actions == [] then []
    else
      var before := LogAfter(desk, actions[..|actions| - 1]);
      match actions[|actions| - 1]
      case Observe(r) => before + [Fact(r)]
      case Submit(order, id, asOf) => Route(desk, before, order, id, asOf)
  }

  /** The facts other parties appended, in order. */
  function Facts(actions: seq<Action>): seq<Record> {
    if actions == [] then []
    else
      Facts(actions[..|actions| - 1]) +
      (if actions[|actions| - 1].Observe? then [actions[|actions| - 1].record] else [])
  }

  /** Action `k` submits an order id for the first time. */
  predicate FirstSubmission(actions: seq<Action>, k: nat) {
    && k < |actions| && actions[k].Submit?
    && forall j | 0 <= j < k && actions[j].Submit? :: actions[j].id != actions[k].id
  }

  predicate NoneOf(entries: seq<Entry>, id: string) {
    forall e <- entries :: !Of(e, id)
  }

  // ---------------------------------------------------------------- the shape of a trace

  lemma {:induction false} PairsShape(desk: Desk, log: seq<Entry>, order: Order, id: string, asOf: int, base: nat,
                                      n: nat)
    requires n <= |KINDS|
    ensures var p := Pairs(desk, log, order, id, asOf, base, n);
            && |p| == 2 * n
            && (forall i | 0 <= i < n ::
                  && p[2 * i] == Requested(id, KINDS[i], base, asOf)
                  && p[2 * i + 1] ==
                     Completed(id, KINDS[i], Verdict(desk, log, order, asOf, KINDS[i]), base + 1 + 2 * i, asOf))
  {
    hide Verdict;
    if n > 0 {
      PairsShape(desk, log, order, id, asOf, base, n - 1);
    }
  }

  lemma PairsAreOfOrder(desk: Desk, log: seq<Entry>, order: Order, id: string, asOf: int, base: nat, n: nat)
    requires n <= |KINDS|
    ensures forall e <- Pairs(desk, log, order, id, asOf, base, n) :: (e.Requested? || e.Completed?) && e.id == id
  {
    hide Verdict;
    var p := Pairs(desk, log, order, id, asOf, base, n);
    PairsShape(desk, log, order, id, asOf, base, n);
    forall e | e in p ensures (e.Requested? || e.Completed?) && e.id == id {
      var j :| 0 <= j < |p| && p[j] == e;
      assert j == 2 * (j / 2) || j == 2 * (j / 2) + 1;
      assert p[2 * (j / 2)].Requested? && p[2 * (j / 2) + 1].Completed?;
    }
  }

  lemma TraceShape(desk: Desk, log: seq<Entry>, order: Order, id: string, asOf: int, base: nat)
    ensures var t := Trace(desk, log, order, id, asOf, base);
            && |t| == 2 + 2 * |KINDS|
            && t[0] == Proposed(id, order.party, asOf)
            && t[|t| - 1] == Terminal(desk, log, order, id, asOf)
            && (forall i | 0 <= i < |KINDS| ::
                  && t[1 + 2 * i] == Requested(id, KINDS[i], base, asOf)
                  && t[2 + 2 * i] ==
                     Completed(id, KINDS[i], Verdict(desk, log, order, asOf, KINDS[i]), base + 1 + 2 * i, asOf))
    ensures forall e <- Trace(desk, log, order, id, asOf, base) :: !e.Fact? && e.id == id
  {
    hide Verdict;
    PairsShape(desk, log, order, id, asOf, base, |KINDS|);
    PairsAreOfOrder(desk, log, order, id, asOf, base, |KINDS|);
    var p := Pairs(desk, log, order, id, asOf, base, |KINDS|);
    var t := Trace(desk, log, order, id, asOf, base);
    assert t == [Proposed(id, order.party, asOf)] + p + [Terminal(desk, log, order, id, asOf)];
    forall i | 0 <= i < |KINDS| ensures t[1 + 2 * i] == p[2 * i] && t[2 + 2 * i] == p[2 * i + 1] {}
    TerminalIsOfOrder(desk, log, order, id, asOf);
  }

  lemma TerminalIsOfOrder(desk: Desk, log: seq<Entry>, order: Order, id: string, asOf: int)
    ensures var e := Terminal(desk, log, order, id, asOf); (e.Approved? || e.Rejected?) && e.id == id && e.asOf == asOf
  {}

  // ---------------------------------------------------------------- the verdict

  lemma {:induction false} FirstRejectingIsEarliest(desk: Desk, log: seq<Entry>, order: Order, asOf: int, n: nat)
    requires n <= |KINDS|
    ensures var r := FirstRejecting(desk, log, order, asOf, n);
            && (r.None? <==> forall i | 0 <= i < n :: Verdict(desk, log, order, asOf, KINDS[i]).Approve?)
            && (r.Some? ==>
                  && r.value < n && Verdict(desk, log, order, asOf, KINDS[r.value]).Reject?
                  && forall i | 0 <= i < r.value :: Verdict(desk, log, order, asOf, KINDS[i]).Approve?)
  {
    hide Verdict;
    if n > 0 {
      FirstRejectingIsEarliest(desk, log, order, asOf, n - 1);
    }
  }

  /** An order is approved exactly when all eight checks approve; a rejection names the earliest check
      that rejects, with that check's reason. */
  lemma VerdictOfOrder(desk: Desk, log: seq<Entry>, order: Order, id: string, asOf: int)
    ensures var e := Terminal(desk, log, order, id, asOf);
            && (e.Approved? <==> forall kind :: Verdict(desk, log, order, asOf, kind).Approve?)
            && (e.Rejected? ==>
                  && Verdict(desk, log, order, asOf, e.check) == Reject(e.reason)
                  && forall kind | Place(kind) < Place(e.check) :: Verdict(desk, log, order, asOf, kind).Approve?)
  {
    hide Verdict;
    FirstRejectingIsEarliest(desk, log, order, asOf, |KINDS|);
    var e := Terminal(desk, log, order, id, asOf);
    if e.Approved? {
      forall kind: Kind ensures Verdict(desk, log, order, asOf, kind).Approve? {
        PlacesAreKinds(kind);
      }
    }
    if e.Rejected? {
      var i := FirstRejecting(desk, log, order, asOf, |KINDS|).value;
      assert e.check == KINDS[i] && Verdict(desk, log, order, asOf, KINDS[i]) == Reject(e.reason);
      PlaceOfKind(i);
      forall kind | Place(kind) < Place(e.check) ensures Verdict(desk, log, order, asOf, kind).Approve? {
        PlacesAreKinds(kind);
      }
    }
  }

  lemma PlaceOfKind(i: nat)
    requires i < |KINDS|
    ensures Place(KINDS[i]) == i
  {}

  // ---------------------------------------------------------------- look-ups over concatenations

  lemma {:induction false} ApprovedOfConcat(a: seq<Entry>, b: seq<Entry>, id: string)
    ensures FirstApproved(a + b, id) ==
            if FirstApproved(a, id).Some? then FirstApproved(a, id) else FirstApproved(b, id)
  {
    if a == [] {
      assert a + b == b;
    } else {
      assert (a + b)[1..] == a[1..] + b;
      ApprovedOfConcat(a[1..], b, id);
    }
  }

  lemma {:induction false} RejectedOfConcat(a: seq<Entry>, b: seq<Entry>, id: string)
    ensures FirstRejected(a + b, id) ==
            if FirstRejected(a, id).Some? then FirstRejected(a, id) else FirstRejected(b, id)
  {
    if a == [] {
      assert a + b == b;
    } else {
      assert (a + b)[1..] == a[1..] + b;
      RejectedOfConcat(a[1..], b, id);
    }
  }

  lemma {:induction false} NoTerminal(entries: seq<Entry>, id: string)
    requires forall e <- entries :: Of(e, id) ==> !e.Approved? && !e.Rejected?
    ensures FirstApproved(entries, id).None? && FirstRejected(entries, id).None?
  {
    if entries != [] {
      assert entries[0] in entries;
      assert forall e <- entries[1..] :: e in entries;
      NoTerminal(entries[1..], id);
    }
  }

  lemma ExistingInTrace(desk: Desk, log: seq<Entry>, order: Order, id: string, asOf: int, base: nat)
    ensures ExistingResult(Trace(desk, log, order, id, asOf, base), id) ==
            Some(ResultOf(Terminal(desk, log, order, id, asOf)))
  {
    hide Verdict;
    var front := [Proposed(id, order.party, asOf)] + Pairs(desk, log, order, id, asOf, base, |KINDS|);
    var last := Terminal(desk, log, order, id, asOf);
    PairsAreOfOrder(desk, log, order, id, asOf, base, |KINDS|);
    TerminalIsOfOrder(desk, log, order, id, asOf);
    NoTerminal(front, id);
    ApprovedOfConcat(front, [last], id);
    RejectedOfConcat(front, [last], id);
    hide Terminal;
    assert [last][1..] == [];
  }

  lemma ExistingAround(a: seq<Entry>, t: seq<Entry>, b: seq<Entry>, id: string)
    requires NoneOf(a, id) && NoneOf(b, id)
    ensures ExistingResult(a + t + b, id) == ExistingResult(t, id)
  {
    NoTerminal(a, id);
    NoTerminal(b, id);
    ApprovedOfConcat(a, t, id);
    ApprovedOfConcat(a + t, b, id);
    RejectedOfConcat(a, t, id);
    RejectedOfConcat(a + t, b, id);
    hide FirstApproved, FirstRejected;
  }

  // ---------------------------------------------------------------- runs

  lemma FactsUnchangedByRoute(desk: Desk, log: seq<Entry>, order: Order, id: string, asOf: int)
    ensures Records(Route(desk, log, order, id, asOf)) == Records(log)
  {
    hide Verdict;
    TraceShape(desk, log, order, id, asOf, |log|);
    RecordsAfter(log, Trace(desk, log, order, id, asOf, |log|));
  }

  /** What the checks see of the log is what others appended, whatever orders went through. */
  lemma {:induction false} RecordsAreFacts(desk: Desk, actions: seq<Action>)
    ensures Records(LogAfter(desk, actions)) == Facts(actions)
  {
    hide Verdict, Trace;
    if actions != [] {
      var before, a := LogAfter(desk, actions[..|actions| - 1]), actions[|actions| - 1];
      RecordsAreFacts(desk, actions[..|actions| - 1]);
      match a
      case Observe(r) =>
        RecordsOfConcat(before, [Fact(r)]);
        assert Records([Fact(r)]) == [r] + Records([]);
      case Submit(order, id, asOf) => FactsUnchangedByRoute(desk, before, order, id, asOf);
    }
  }

  lemma {:induction false} UnsubmittedIsAbsent(desk: Desk, actions: seq<Action>, id: string)
    requires forall a <- actions :: a.Submit? ==> a.id != id
    ensures NoneOf(LogAfter(desk, actions), id)
  {
    hide Verdict, Trace;
    if actions != [] {
      var before, a := LogAfter(desk, actions[..|actions| - 1]), actions[|actions| - 1];
      assert a in actions;
      UnsubmittedIsAbsent(desk, actions[..|actions| - 1], id);
      if a.Submit? {
        TraceShape(desk, before, a.order, a.id, a.asOf, |before|);
      }
    }
  }

  /** What the log holds once an order has been submitted: its trace, and nothing else of that order. */
  ghost predicate HoldsTrace(log: seq<Entry>, entry: seq<Entry>, t: seq<Entry>, id: string) {
    entry + t <= log && NoneOf(entry, id) && NoneOf(log[|entry + t|..], id)
  }

  lemma HoldsMore(log: seq<Entry>, more: seq<Entry>, entry: seq<Entry>, t: seq<Entry>, id: string)
    requires HoldsTrace(log, entry, t, id) && NoneOf(more, id)
    ensures HoldsTrace(log + more, entry, t, id)
  {
    assert (log + more)[|entry + t|..] == log[|entry + t|..] + more;
  }

  lemma HeldResult(log: seq<Entry>, entry: seq<Entry>, t: seq<Entry>, id: string)
    requires HoldsTrace(log, entry, t, id)
    ensures ExistingResult(log, id) == ExistingResult(t, id)
  {
    assert log == entry + t + log[|entry + t|..];
    ExistingAround(entry, t, log[|entry + t|..], id);
  }

  /** After any run, each order has left exactly one trace, computed from the log at its first submission
      (of which the checks see the facts only); resubmitting its id added nothing. */
  lemma {:induction false} OrderLeavesOneTrace(desk: Desk, actions: seq<Action>, k: nat)
    requires FirstSubmission(actions, k)
    ensures var a, entry := actions[k], LogAfter(desk, actions[..k]);
            HoldsTrace(LogAfter(desk, actions), entry,
                       Trace(desk, entry, a.order, a.id, a.asOf, |entry|), a.id)
  {
    hide Verdict, Trace, ExistingResult, Terminal;
    var a, entry, n := actions[k], LogAfter(desk, actions[..k]), |actions| - 1;
    var t := Trace(desk, entry, a.order, a.id, a.asOf, |entry|);
    var before, last := LogAfter(desk, actions[..n]), actions[n];
    ExistingInTrace(desk, entry, a.order, a.id, a.asOf, |entry|);
    if k == n {
      assert forall x <- actions[..k] :: x.Submit? ==> x.id != a.id;
      UnsubmittedIsAbsent(desk, actions[..k], a.id);
      NoResultIfAbsent(entry, a.id);
      assert (entry + t)[|entry + t|..] == [];
    } else {
      assert actions[..n][..k] == actions[..k];
      OrderLeavesOneTrace(desk, actions[..n], k);
      HeldResult(before, entry, t, a.id);
      match last
      case Observe(r) => HoldsMore(before, [Fact(r)], entry, t, a.id);
      case Submit(order, id, asOf) =>
        TraceShape(desk, before, order, id, asOf, |before|);
        if id != a.id {
          HoldsMore(before, Trace(desk, before, order, id, asOf, |before|), entry, t, a.id);
        }
    }
  }

  lemma NoResultIfAbsent(log: seq<Entry>, id: string)
    requires NoneOf(log, id)
    ensures ExistingResult(log, id).None?
  {
    NoTerminal(log, id);
  }

  /** Looking an order up later gives the verdict it was given: same status, check, reason and time. */
  lemma LaterLookUpAgrees(desk: Desk, actions: seq<Action>, k: nat)
    requires FirstSubmission(actions, k)
    ensures var a := actions[k];
            ExistingResult(LogAfter(desk, actions), a.id) ==
            Some(ResultOf(Terminal(desk, LogAfter(desk, actions[..k]), a.order, a.id, a.asOf)))
  {
    hide Verdict, Trace, Terminal, ExistingResult;
    var a, entry := actions[k], LogAfter(desk, actions[..k]);
    var t := Trace(desk, entry, a.order, a.id, a.asOf, |entry|);
    OrderLeavesOneTrace(desk, actions, k);
    HeldResult(LogAfter(desk, actions), entry, t, a.id);
    ExistingInTrace(desk, entry, a.order, a.id, a.asOf, |entry|);
  }

  /** In the log itself: a completion's `request` is the position of the request for the same check,
      the requests name the proposal, and the checks come in their fixed order. */
  lemma CompletionsNameTheirRequests(desk: Desk, actions: seq<Action>, k: nat, i: nat)
    requires FirstSubmission(actions, k) && i < |KINDS|
    ensures var log, base, a := LogAfter(desk, actions), |LogAfter(desk, actions[..k])|, actions[k];
            && base + 2 + 2 * |KINDS| <= |log|
            && log[base] == Proposed(a.id, a.order.party, a.asOf)
            && log[base + 1 + 2 * i] == Requested(a.id, KINDS[i], base, a.asOf)
            && log[base + 2 + 2 * i].Completed?
            && log[base + 2 + 2 * i].kind == KINDS[i]
            && log[base + 2 + 2 * i].request == base + 1 + 2 * i
            && log[base + 2 + 2 * i].outcome == Verdict(desk, LogAfter(desk, actions[..k]), a.order, a.asOf, KINDS[i])
            && log[base + 1 + 2 * |KINDS|] == Terminal(desk, LogAfter(desk, actions[..k]), a.order, a.id, a.asOf)
  {
    hide Verdict, Trace, Terminal;
    var a, entry, log := actions[k], LogAfter(desk, actions[..k]), LogAfter(desk, actions);
    var t := Trace(desk, entry, a.order, a.id, a.asOf, |entry|);
    OrderLeavesOneTrace(desk, actions, k);
    TraceShape(desk, entry, a.order, a.id, a.asOf, |entry|);
    forall j | 0 <= j < |t| ensures log[|entry| + j] == t[j] {
      assert (entry + t)[|entry| + j] == t[j];
    }
  }

  lemma {:induction false} RejectingSeesFacts(desk: Desk, x: seq<Entry>, y: seq<Entry>, order: Order, asOf: int, n: nat)
    requires Records(x) == Records(y) && n <= |KINDS|
    ensures FirstRejecting(desk, x, order, asOf, n) == FirstRejecting(desk, y, order, asOf, n)
  {
    hide Verdict;
    if n > 0 {
      RejectingSeesFacts(desk, x, y, order, asOf, n - 1);
      VerdictSeesFacts(desk, x, y, order, asOf, KINDS[n - 1]);
    }
  }

  lemma TerminalSeesFacts(desk: Desk, x: seq<Entry>, y: seq<Entry>, order: Order, id: string, asOf: int)
    requires Records(x) == Records(y)
    ensures Terminal(desk, x, order, id, asOf) == Terminal(desk, y, order, id, asOf)
  {
    hide Verdict;
    RejectingSeesFacts(desk, x, y, order, asOf, |KINDS|);
    forall kind ensures Verdict(desk, x, order, asOf, kind) == Verdict(desk, y, order, asOf, kind) {
      VerdictSeesFacts(desk, x, y, order, asOf, kind);
    }
  }

  /** An approval reserves nothing: two orders alike, at the same time and with the same facts on
      record, get the same verdict, however many of them have been approved already. */
  lemma OrdersReserveNothing(desk: Desk, actions: seq<Action>, j: nat, k: nat)
    requires FirstSubmission(actions, j) && FirstSubmission(actions, k)
    requires actions[j].order == actions[k].order && actions[j].asOf == actions[k].asOf
    requires Facts(actions[..j]) == Facts(actions[..k])
    ensures var x := ExistingResult(LogAfter(desk, actions), actions[j].id);
            var y := ExistingResult(LogAfter(desk, actions), actions[k].id);
            && x.Some? && y.Some?
            && x.value.ApprovedResult? == y.value.ApprovedResult?
            && (x.value.RejectedResult? ==> x.value.check == y.value.check && x.value.reason == y.value.reason)
  {
    hide Verdict;
    LaterLookUpAgrees(desk, actions, j);
    LaterLookUpAgrees(desk, actions, k);
    RecordsAreFacts(desk, actions[..j]);
    RecordsAreFacts(desk, actions[..k]);
    TerminalSeesFacts(desk, LogAfter(desk, actions[..j]), LogAfter(desk, actions[..k]), actions[j].order,
                      actions[j].id, actions[j].asOf);
    hide LogAfter, Records;
  }

  // ---------------------------------------------------------------- what approval means

  /** An order is approved exactly when its counterparty is cleared on the facts at entry. */
  lemma ApprovedExactlyWhenCleared(desk: Desk, log: seq<Entry>, order: Order, id: string, asOf: int)
    ensures Terminal(desk, log, order, id, asOf).Approved? <==> Cleared(desk, Records(log), order, asOf)
  {
    VerdictOfOrder(desk, log, order, id, asOf);
    ClearedIsNoFailure(desk, Records(log), order, asOf);
    hide Terminal, Verdict, Cleared, Fails, Records;
    forall kind
      ensures Verdict(desk, log, order, asOf, kind).Approve? <==>
              forall reason :: !Fails(desk, Records(log), order, asOf, kind, reason)
    {
      ApprovesUnlessFails(desk, log, order, asOf, kind);
    }
    if !Cleared(desk, Records(log), order, asOf) {
      var kind, reason :| Fails(desk, Records(log), order, asOf, kind, reason);
      assert !Verdict(desk, log, order, asOf, kind).Approve?;
    }
  }
}
