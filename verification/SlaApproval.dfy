/**
 Publishing, approving and withholding accounting rules, with four eyes.

 Three routes append to the shared log; the status table is computed from it by loading the decisions,
 sorting them by time, and letting the last word per rule count.
 */
module SlaApproval {
  import opened Wrappers

  /** A rule version. */
  datatype Key = Key(representation: string, rule: string, version: int)

  datatype Event =
    | Published(asOf: int, key: Key, publisher: string, hash: string)
    | Approved(asOf: int, key: Key, approver: string, reviewed: string)
    | Withheld(asOf: int, key: Key, approver: string, reason: string)

  // ---------------------------------------------------------------- the routes

  /** The first publication of a rule version. */
  function FirstPublish(log: seq<Event>, key: Key): (r: Option<Event>)
    ensures r.Some? ==> r.value.Published? && r.value.key == key && r.value in log
  {
    if log == [] then None
    else if log[0].Published? && log[0].key == key then Some(log[0])
    else FirstPublish(log[1..], key)
  }

  /** `registered` is the content hash of the rule in the registry, if it is there. */
  datatype Request =
    | Publish(asOf: int, key: Key, publisher: string, registered: Option<string>)
    | Approve(asOf: int, key: Key, approver: string, registered: Option<string>)
    | Withhold(asOf: int, key: Key, approver: string, reason: string)

  predicate Accepts(log: seq<Event>, r: Request) {
    match r
    case Publish(_, key, publisher, registered) =>
      key.representation != "" && key.rule != "" && registered.Some?
    case Approve(_, key, approver, registered) =>
      && key.representation != "" && key.rule != "" && approver != "" && registered.Some?
      && FirstPublish(log, key).Some?
      && FirstPublish(log, key).value.publisher != approver
    case Withhold(_, key, approver, reason) =>
      key.representation != "" && key.rule != "" && approver != "" && reason != ""
  }

  /** The event a request appends. */
  function EventOf(log: seq<Event>, r: Request): Event
    requires Accepts(log, r)
  {
    match r
    case Publish(asOf, key, publisher, registered) => Published(asOf, key, publisher, registered.value)
    case Approve(asOf, key, approver, _) => Approved(asOf, key, approver, FirstPublish(log, key).value.hash)
    case Withhold(asOf, key, approver, reason) => Withheld(asOf, key, approver, reason)
  }

  function Step(log: seq<Event>, r: Request): seq<Event> {
    if Accepts(log, r) then log + [EventOf(log, r)] else log
  }

  function Run(requests: seq<Request>): seq<Event> {
    if requests == [] then [] else Step(Run(requests[..|requests| - 1]), requests[|requests| - 1])
  }

  /** The earliest publication of a rule version. */
  predicate FirstAt(log: seq<Event>, key: Key, k: nat) {
    k < |log| && IsPublicationOf(log[k], key) && forall j | 0 <= j < k :: !IsPublicationOf(log[j], key)
  }

  predicate IsPublicationOf(e: Event, key: Key) {
    e.Published? && e.key == key
  }

  lemma {:induction false} FirstPublishIs(log: seq<Event>, key: Key)
    ensures FirstPublish(log, key).None? <==> forall j | 0 <= j < |log| :: !IsPublicationOf(log[j], key)
    ensures forall k: nat | FirstAt(log, key, k) :: FirstPublish(log, key) == Some(log[k])
    ensures FirstPublish(log, key).Some? ==> exists k: nat :: FirstAt(log, key, k)
  {
    if log != [] {
      FirstPublishIs(log[1..], key);
      if IsPublicationOf(log[0], key) {
        assert FirstAt(log, key, 0);
      } else {
        forall k: nat | FirstAt(log, key, k) ensures FirstPublish(log, key) == Some(log[k]) {
          assert FirstAt(log[1..], key, k - 1);
        }
        if FirstPublish(log, key).Some? {
          var k: nat :| FirstAt(log[1..], key, k);
          assert FirstAt(log, key, k + 1);
        }
      }
    }
  }

  /** The rule version is named in full. */
  predicate Named(key: Key) {
    |key.representation| > 0 && |key.rule| > 0
  }

  /** What a request appends: a publication of a registered rule, with its content; an approval of a registered rule by
      someone other than its first publisher, with the content that was first published; a withhold with a reason;
      or nothing. */
  ghost predicate Appends(log: seq<Event>, r: Request, added: seq<Event>) {
    match r
    case Publish(asOf, key, publisher, registered) =>
      if Named(key) &&
          registered.Some? then added == [Published(asOf, key, publisher, registered.value)] else added == []
    case Approve(asOf, key, approver, registered) =>
      if Named(key) && |approver| > 0 && registered.Some? &&
         exists k: nat :: FirstAt(log, key, k) && log[k].publisher != approver
      then exists k: nat :: FirstAt(log, key, k) && added == [Approved(asOf, key, approver, log[k].hash)]
      else added == []
    case Withhold(asOf, key, approver, reason) =>
      if Named(key) && |approver| > 0 &&
          |reason| > 0 then added == [Withheld(asOf, key, approver, reason)] else added == []
  }

  /** MAIN: the log after a request, in terms of the log before. */
  lemma StepReads(log: seq<Event>, r: Request)
    ensures exists added :: Appends(log, r, added) && Step(log, r) == log + added
  {
    FirstPublishIs(log, r.key);
    hide FirstPublish;
    var added := if Accepts(log, r) then [EventOf(log, r)] else [];
    assert log + [] == log;
    assert Appends(log, r, added);
  }

  class ApprovalDesk {
    var log: seq<Event>

    constructor ()
      ensures log == []
    {
      log := [];
    }

    method PublishRule(asOf: int, key: Key, publisher: string, registered: Option<string>) returns (ok: bool)
      modifies this
      ensures log == Step(old(log), Publish(asOf, key, publisher, registered))
      ensures ok <==> Accepts(old(log), Publish(asOf, key, publisher, registered))
    {
      if key.representation == "" || key.rule == "" || registered.None? {
        return false;
      }
      log := log + [Published(asOf, key, publisher, registered.value)];
      ok := true;
    }

    method ApproveRule(asOf: int, key: Key, approver: string, registered: Option<string>) returns (ok: bool)
      modifies this
      ensures log == Step(old(log), Approve(asOf, key, approver, registered))
      ensures ok <==> Accepts(old(log), Approve(asOf, key, approver, registered))
    {
      if key.representation == "" || key.rule == "" || approver == "" || registered.None? {
        return false;
      }
      var publish := FirstPublish(log, key);
      if publish.None? || publish.value.publisher == approver {
        return false;
      }
      log := log + [Approved(asOf, key, approver, publish.value.hash)];
      ok := true;
    }

    method WithholdRule(asOf: int, key: Key, approver: string, reason: string) returns (ok: bool)
      modifies this
      ensures log == Step(old(log), Withhold(asOf, key, approver, reason))
      ensures ok <==> Accepts(old(log), Withhold(asOf, key, approver, reason))
    {
      if key.representation == "" || key.rule == "" || approver == "" || reason == "" {
        return false;
      }
      log := log + [Withheld(asOf, key, approver, reason)];
      ok := true;
    }
  }

  // ---------------------------------------------------------------- loading the corpus

  function Publishes(log: seq<Event>): seq<Event> {
    if log == [] then [] else (if log[0].Published? then [log[0]] else []) + Publishes(log[1..])
  }

  function Approvals(log: seq<Event>): seq<Event> {
    if log == [] then []
    else Approvals(log[..|log| - 1]) + (if log[|log| - 1].Approved? then [log[|log| - 1]] else [])
  }

  function Withholds(log: seq<Event>): seq<Event> {
    if log == [] then []
    else Withholds(log[..|log| - 1]) + (if log[|log| - 1].Withheld? then [log[|log| - 1]] else [])
  }

  /** Inserting after every element no later than it keeps the sort stable. */
  function Insert(sorted: seq<Event>, d: Event): seq<Event> {
    if sorted == [] then [d]
    else if sorted[|sorted| - 1].asOf <= d.asOf then sorted + [d]
    else Insert(sorted[..|sorted| - 1], d) + [sorted[|sorted| - 1]]
  }

  function Sorted(decisions: seq<Event>): seq<Event> {
    if decisions == [] then []
    else Insert(Sorted(decisions[..|decisions| - 1]), decisions[|decisions| - 1])
  }

  /** The view replays the three types one after another, so approvals come in before withholds. */
  function Decisions(log: seq<Event>): seq<Event> {
    Sorted(Approvals(log) + Withholds(log))
  }

  // ---------------------------------------------------------------- eligibility

  /** The first publication with the reviewed hash, by someone else. */
  function MatchingPublish(publishes: seq<Event>, key: Key, hash: string): Option<Event> {
    if publishes == [] then None
    else if publishes[0].Published? && publishes[0].key == key && publishes[0].hash == hash then Some(publishes[0])
    else MatchingPublish(publishes[1..], key, hash)
  }

  predicate IsFourEyes(publishes: seq<Event>, d: Event)
    requires d.Approved?
  {
    var p := MatchingPublish(publishes, d.key, d.reviewed);
    p.Some? && p.value.Published? && p.value.publisher != d.approver
  }

  /** The last decision of a key that counts: withholds always, approvals only with four eyes. */
  function LastCounting(publishes: seq<Event>, decisions: seq<Event>, key: Key): Option<Event> {
    if decisions == [] then None
    else
      var d := decisions[|decisions| - 1];
      if !d.Published? && d.key == key && (d.Approved? ==> IsFourEyes(publishes, d)) then Some(d)
      else LastCounting(publishes, decisions[..|decisions| - 1], key)
  }

  function LastDecision(decisions: seq<Event>, key: Key): Option<Event> {
    if decisions == [] then None
    else
      var d := decisions[|decisions| - 1];
      if !d.Published? && d.key == key then Some(d) else LastDecision(decisions[..|decisions| - 1], key)
  }

  predicate IsEligible(log: seq<Event>, key: Key) {
    var last := LastCounting(Publishes(log), Decisions(log), key);
    last.Some? && last.value.Approved?
  }

  /** The fold over the decisions with its table of last words. */
  method ComputeEligibility(publishes: seq<Event>, decisions: seq<Event>) returns (eligible: set<Key>)
    requires forall d <- decisions :: !d.Published?
    ensures forall k :: k in eligible <==>
              LastCounting(publishes, decisions, k).Some? && LastCounting(publishes, decisions, k).value.Approved?
  {
    var lastByKey: map<Key, bool> := map[];
    for i := 0 to |decisions|
      invariant forall k :: k in lastByKey <==> LastCounting(publishes, decisions[..i], k).Some?
      invariant forall k | k in lastByKey :: lastByKey[k] == LastCounting(publishes, decisions[..i], k).value.Approved?
    {
      var d := decisions[i];
      assert d in decisions;
      assert decisions[..i + 1][..i] == decisions[..i];
      if d.Withheld? {
        lastByKey := lastByKey[d.key := false];
      } else if IsFourEyes(publishes, d) {
        lastByKey := lastByKey[d.key := true];
      }
    }
    assert decisions[..|decisions|] == decisions;
    eligible := set k | k in lastByKey && lastByKey[k];
  }

  datatype Status = Eligible | WithheldStatus | Pending | Unpublished

  /** One row of the status table. */
  function StatusOf(log: seq<Event>, key: Key): Status {
    var decision := LastDecision(Decisions(log), key);
    if IsEligible(log, key) then Eligible
    else if decision.Some? && decision.value.Withheld? then WithheldStatus
    else if FirstPublish(log, key).Some? then Pending
    else Unpublished
  }

  // ---------------------------------------------------------------- approvals in reachable logs

  /** An approval has a publication before it, of the same rule version, by someone else, and is bound to
      its hash. */
  ghost predicate Backed(log: seq<Event>, i: nat)
    requires i < |log| && log[i].Approved?
  {
    var p := FirstPublish(log[..i], log[i].key);
    p.Some? && p.value.publisher != log[i].approver && p.value.hash == log[i].reviewed
  }

  lemma {:induction false} EveryApprovalIsBacked(requests: seq<Request>, i: nat)
    requires i < |Run(requests)| && Run(requests)[i].Approved?
    ensures Backed(Run(requests), i)
  {
    var n := |requests| - 1;
    var before := Run(requests[..n]);
    var log := Run(requests);
    if i < |before| {
      EveryApprovalIsBacked(requests[..n], i);
      assert log[..i] == before[..i] && log[i] == before[i];
    } else {
      assert log[..i] == before;
    }
  }

  /** The earliest publication of a rule version. */
  ghost predicate IsFirstPublication(log: seq<Event>, key: Key, i: nat) {
    && i < |log| && log[i].Published? && log[i].key == key
    && forall j | 0 <= j < i :: !(log[j].Published? && log[j].key == key)
  }

  lemma {:induction false} FirstPublishMeans(log: seq<Event>, key: Key, i: nat)
    ensures FirstPublish(log, key).None? ==> !IsFirstPublication(log, key, i)
    ensures IsFirstPublication(log, key, i) ==> FirstPublish(log, key) == Some(log[i])
  {
    if log != [] && !(log[0].Published? && log[0].key == key) && i > 0 {
      assert IsFirstPublication(log, key, i) ==> IsFirstPublication(log[1..], key, i - 1);
      FirstPublishMeans(log[1..], key, i - 1);
    }
  }

  lemma {:induction false} FirstPublicationExists(log: seq<Event>, key: Key) returns (i: nat)
    requires FirstPublish(log, key).Some?
    ensures IsFirstPublication(log, key, i)
  {
    if log[0].Published? && log[0].key == key {
      i := 0;
    } else {
      var k := FirstPublicationExists(log[1..], key);
      i := k + 1;
      assert forall j | 0 < j < i :: log[j] == log[1..][j - 1];
    }
  }

  /** The log is unchanged exactly when the request is refused; and a complete request to approve a registered
      rule is refused exactly when the version was never published or was first published by the approver. */
  lemma RefusedIsSilent(log: seq<Event>, r: Request)
    ensures Step(log, r) == log <==> !Accepts(log, r)
    ensures r.Approve? && r.key.representation != "" && r.key.rule != "" && r.approver != "" && r.registered.Some? ==>
              (Step(log, r) == log <==>
               forall i: nat | IsFirstPublication(log, r.key, i) :: log[i].publisher == r.approver)
  {
    if Accepts(log, r) {
      assert |Step(log, r)| == |log| + 1;
    }
    if r.Approve? {
      forall i: nat | IsFirstPublication(log, r.key, i) ensures FirstPublish(log, r.key) == Some(log[i]) {
        FirstPublishMeans(log, r.key, i);
      }
      if FirstPublish(log, r.key).Some? {
        var i := FirstPublicationExists(log, r.key);
        assert IsFirstPublication(log, r.key, i);
      } else {
        forall i: nat ensures !IsFirstPublication(log, r.key, i) {
          FirstPublishMeans(log, r.key, i);
        }
      }
    }
  }

  lemma {:induction false} FirstPublishOfConcat(a: seq<Event>, b: seq<Event>, key: Key)
    ensures FirstPublish(a + b, key) ==
            if FirstPublish(a, key).Some? then FirstPublish(a, key) else FirstPublish(b, key)
  {
    if a == [] {
      assert a + b == b;
    } else {
      assert (a + b)[1..] == a[1..] + b;
      FirstPublishOfConcat(a[1..], b, key);
    }
  }

  lemma {:induction false} MatchingIsFirst(log: seq<Event>, key: Key)
    requires FirstPublish(log, key).Some?
    ensures MatchingPublish(Publishes(log), key, FirstPublish(log, key).value.hash) == FirstPublish(log, key)
  {
    if log[0].Published? {
      assert ([log[0]] + Publishes(log[1..]))[1..] == Publishes(log[1..]);
      if log[0].key != key {
        MatchingIsFirst(log[1..], key);
      }
    } else {
      assert [] + Publishes(log[1..]) == Publishes(log[1..]);
      MatchingIsFirst(log[1..], key);
    }
  }

  /** An approval the route let through passes the four-eyes test of the eligibility fold, whatever is
      published later. */
  lemma RouteApprovalsCount(requests: seq<Request>, d: Event)
    requires d in Run(requests) && d.Approved?
    ensures IsFourEyes(Publishes(Run(requests)), d)
    ensures FirstPublish(Run(requests), d.key).Some?
  {
    var log := Run(requests);
    var i :| 0 <= i < |log| && log[i] == d;
    EveryApprovalIsBacked(requests, i);
    assert log == log[..i] + log[i..];
    FirstPublishOfConcat(log[..i], log[i..], d.key);
    MatchingIsFirst(log, d.key);
  }

  // ---------------------------------------------------------------- the last word

  lemma {:induction false} ApprovalsMean(log: seq<Event>, d: Event)
    ensures d in Approvals(log) <==> d in log && d.Approved?
    ensures d in Withholds(log) <==> d in log && d.Withheld?
  {
    if log != [] {
      ApprovalsMean(log[..|log| - 1], d);
      assert d in log <==> d in log[..|log| - 1] || d == log[|log| - 1];
    }
  }

  lemma {:induction false} InsertKeeps(sorted: seq<Event>, d: Event, x: Event)
    ensures x in Insert(sorted, d) <==> x in sorted || x == d
  {
    if sorted != [] && sorted[|sorted| - 1].asOf > d.asOf {
      InsertKeeps(sorted[..|sorted| - 1], d, x);
      assert x in sorted <==> x in sorted[..|sorted| - 1] || x == sorted[|sorted| - 1];
    }
  }

  lemma {:induction false} SortedKeeps(decisions: seq<Event>, x: Event)
    ensures x in Sorted(decisions) <==> x in decisions
  {
    if decisions != [] {
      SortedKeeps(decisions[..|decisions| - 1], x);
      InsertKeeps(Sorted(decisions[..|decisions| - 1]), decisions[|decisions| - 1], x);
      assert x in decisions <==> x in decisions[..|decisions| - 1] || x == decisions[|decisions| - 1];
    }
  }

  lemma LastOfSnoc(decisions: seq<Event>, d: Event, key: Key)
    ensures LastDecision(decisions + [d], key) ==
            if !d.Published? && d.key == key then Some(d) else LastDecision(decisions, key)
  {
    assert (decisions + [d])[..|decisions|] == decisions;
  }

  predicate InOrder(decisions: seq<Event>) {
    forall i, j | 0 <= i < j < |decisions| :: decisions[i].asOf <= decisions[j].asOf
  }

  /** Later replaces earlier, and on equal times the one inserted later. */
  function Newer(latest: Option<Event>, d: Event, key: Key): Option<Event> {
    if d.Published? || d.key != key then latest
    else if latest.None? || latest.value.asOf <= d.asOf then Some(d)
    else latest
  }

  lemma {:induction false} LastIsOf(decisions: seq<Event>, key: Key)
    ensures LastDecision(decisions, key).Some? ==> LastDecision(decisions, key).value in decisions
  {
    if decisions != [] {
      LastIsOf(decisions[..|decisions| - 1], key);
    }
  }

  lemma {:induction false} InsertInOrder(sorted: seq<Event>, d: Event)
    requires InOrder(sorted)
    ensures InOrder(Insert(sorted, d))
  {
    if sorted != [] && sorted[|sorted| - 1].asOf > d.asOf {
      var n := |sorted| - 1;
      InsertInOrder(sorted[..n], d);
      forall x | x in Insert(sorted[..n], d) ensures x.asOf <= sorted[n].asOf {
        InsertKeeps(sorted[..n], d, x);
      }
    }
  }

  lemma InsertUnfold(init: seq<Event>, last: Event, d: Event)
    ensures Insert(init + [last], d) == if last.asOf <= d.asOf then init + [last] + [d] else Insert(init, d) + [last]
  {
    hide LastDecision;
    assert (init + [last])[..|init|] == init;
  }

  lemma {:induction false} LastOfInsert(sorted: seq<Event>, d: Event, key: Key)
    requires InOrder(sorted)
    ensures LastDecision(Insert(sorted, d), key) == Newer(LastDecision(sorted, key), d, key)
    decreases |sorted|
  {
    if sorted == [] {
      LastOfSnoc([], d, key);
      assert [] + [d] == [d];
    } else {
      var init, last := sorted[..|sorted| - 1], sorted[|sorted| - 1];
      assert LastDecision(init, key).Some? ==> LastDecision(init, key).value.asOf <= last.asOf by {
        LastIsOf(init, key);
      }
      LastOfInsert(init, d, key);
      hide LastDecision, Insert, InOrder;
      assert sorted == init + [last];
      InsertUnfold(init, last, d);
      LastOfSnoc(init, last, key);
      LastOfSnoc(sorted, d, key);
      LastOfSnoc(Insert(init, d), last, key);
    }
  }

  /** The last word after sorting, as a running maximum over the decisions as loaded. */
  function Latest(decisions: seq<Event>, key: Key): Option<Event> {
    if decisions == [] then None
    else Newer(Latest(decisions[..|decisions| - 1], key), decisions[|decisions| - 1], key)
  }

  lemma {:induction false} LastOfSorted(decisions: seq<Event>, key: Key)
    ensures InOrder(Sorted(decisions))
    ensures LastDecision(Sorted(decisions), key) == Latest(decisions, key)
  {
    if decisions != [] {
      LastOfSorted(decisions[..|decisions| - 1], key);
      InsertInOrder(Sorted(decisions[..|decisions| - 1]), decisions[|decisions| - 1]);
      LastOfInsert(Sorted(decisions[..|decisions| - 1]), decisions[|decisions| - 1], key);
    }
  }

  lemma {:induction false} AllCount(publishes: seq<Event>, decisions: seq<Event>, key: Key)
    requires forall d <- decisions :: d.Approved? ==> IsFourEyes(publishes, d)
    ensures LastCounting(publishes, decisions, key) == LastDecision(decisions, key)
  {
    if decisions != [] {
      assert decisions[|decisions| - 1] in decisions;
      assert forall d <- decisions[..|decisions| - 1] :: d in decisions;
      AllCount(publishes, decisions[..|decisions| - 1], key);
    }
  }

  /** After every run the status of a rule version is that of the last word on it: greatest time, and of
      two at one instant the withhold. */
  lemma StatusFollowsLastWord(requests: seq<Request>, key: Key)
    ensures var log := Run(requests);
            var word := Latest(Approvals(log) + Withholds(log), key);
            StatusOf(log, key) ==
              if word.Some? && word.value.Approved? then Eligible
              else if word.Some? then WithheldStatus
              else if FirstPublish(log, key).Some? then Pending
              else Unpublished
  {
    var log := Run(requests);
    var loaded := Approvals(log) + Withholds(log);
    LastOfSorted(loaded, key);
    forall d | d in Decisions(log) && d.Approved? ensures IsFourEyes(Publishes(log), d) {
      SortedKeeps(loaded, d);
      ApprovalsMean(log, d);
      RouteApprovalsCount(requests, d);
    }
    AllCount(Publishes(log), Decisions(log), key);
    LatestIsDecision(loaded, key);
  }

  lemma {:induction false} LatestIsDecision(decisions: seq<Event>, key: Key)
    ensures Latest(decisions, key).Some? ==>
            !Latest(decisions, key).value.Published? && Latest(decisions, key).value.key == key
    ensures Latest(decisions, key).Some? ==> Latest(decisions, key).value in decisions
  {
    if decisions != [] {
      LatestIsDecision(decisions[..|decisions| - 1], key);
    }
  }

  // ---------------------------------------------------------------- time order against append order

  /** The clock does not go back. */
  predicate Clocked(log: seq<Event>) {
    forall i, j | 0 <= i < j < |log| :: log[i].asOf <= log[j].asOf
  }

  lemma {:induction false} LatestOfConcat(a: seq<Event>, b: seq<Event>, key: Key)
    ensures var x, y := Latest(a, key), Latest(b, key);
            Latest(a + b, key) == if y.None? then x else if x.None? || x.value.asOf <= y.value.asOf then y else x
  {
    if b == [] {
      assert a + b == a;
    } else {
      var n := |b| - 1;
      assert (a + b)[..|a + b| - 1] == a + b[..n];
      LatestOfConcat(a, b[..n], key);
    }
  }

  /** The last approval (or withhold) of a key in append order. */
  function LastOfKind(log: seq<Event>, key: Key, approved: bool): Option<Event> {
    if log == [] then None
    else
      var e := log[|log| - 1];
      if e.key == key && (if approved then e.Approved? else e.Withheld?) then Some(e)
      else LastOfKind(log[..|log| - 1], key, approved)
  }

  predicate OfKind(e: Event, approved: bool) {
    if approved then e.Approved? else e.Withheld?
  }

  function Kinds(log: seq<Event>, approved: bool): seq<Event> {
    if approved then Approvals(log) else Withholds(log)
  }

  lemma KindsOfSnoc(log: seq<Event>, e: Event, approved: bool, key: Key)
    ensures Kinds(log + [e], approved) == Kinds(log, approved) + (if OfKind(e, approved) then [e] else [])
    ensures LastOfKind(log + [e], key, approved) ==
            if e.key == key && OfKind(e, approved) then Some(e) else LastOfKind(log, key, approved)
  {
    assert (log + [e])[..|log|] == log;
  }

  lemma LatestOfSnoc(decisions: seq<Event>, d: Event, key: Key)
    ensures Latest(decisions + [d], key) == Newer(Latest(decisions, key), d, key)
  {
    assert (decisions + [d])[..|decisions|] == decisions;
  }

  lemma LatestIsInLog(log: seq<Event>, approved: bool, key: Key)
    ensures var x := Latest(Kinds(log, approved), key); x.Some? ==> x.value in log
  {
    LatestIsDecision(Kinds(log, approved), key);
    if Latest(Kinds(log, approved), key).Some? {
      ApprovalsMean(log, Latest(Kinds(log, approved), key).value);
    }
  }

  lemma {:induction false} LatestOfOneKind(log: seq<Event>, key: Key, approved: bool)
    requires Clocked(log)
    ensures Latest(Kinds(log, approved), key) == LastOfKind(log, key, approved)
  {
    if log != [] {
      var init, e := log[..|log| - 1], log[|log| - 1];
      assert forall x <- init :: x.asOf <= e.asOf;
      LatestOfOneKind(init, key, approved);
      hide Latest, LastOfKind, Kinds;
      assert log == init + [e];
      KindsOfSnoc(init, e, approved, key);
      LatestOfSnoc(Kinds(init, approved), e, key);
      LatestIsInLog(init, approved, key);
      assert Kinds(init, approved) + [] == Kinds(init, approved);
    }
  }

  /** With a clock that does not go back, the last word is the last decision appended, unless that is an
      approval and a withhold of the same rule version bears the same instant: then it is the withhold. */
  lemma LastWordIsLastAppended(log: seq<Event>, key: Key)
    requires Clocked(log)
    ensures var word := Latest(Approvals(log) + Withholds(log), key);
            var last, veto := LastDecision(log, key), LastOfKind(log, key, false);
            && (word == last <==>
                !(last.Some? && last.value.Approved? && veto.Some? && veto.value.asOf == last.value.asOf))
            && (word != last ==> word == veto)
  {
    LatestOfConcat(Approvals(log), Withholds(log), key);
    LatestOfOneKind(log, key, true);
    LatestOfOneKind(log, key, false);
    LastOfEither(log, key);
  }

  lemma {:induction false} LastOfEither(log: seq<Event>, key: Key)
    requires Clocked(log)
    ensures var a, w, d := LastOfKind(log, key, true), LastOfKind(log, key, false), LastDecision(log, key);
            && (a.Some? ==> a.value.Approved? && a.value in log) && (w.Some? ==> w.value.Withheld? && w.value in log)
            && (d == a || d == w)
            && (d.None? <==> a.None? && w.None?)
            && (a.Some? && w.Some? && d == a ==> w.value.asOf <= a.value.asOf)
            && (a.Some? && w.Some? && d == w ==> a.value.asOf <= w.value.asOf)
            && (d.Some? ==> (d.value.Approved? ==> d == a) && (d.value.Withheld? ==> d == w))
  {
    if log != [] {
      var init, e := log[..|log| - 1], log[|log| - 1];
      LastOfEither(init, key);
      assert forall x <- init :: x.asOf <= e.asOf;
      hide LastOfKind, LastDecision, Clocked;
      assert log == init + [e];
      KindsOfSnoc(init, e, true, key);
      KindsOfSnoc(init, e, false, key);
      LastOfSnoc(init, e, key);
    }
  }

  /** A rule withheld and re-approved within one instant stays withheld. */
  lemma ReapprovalWithinInstantIsLost(key: Key)
    requires key.representation != "" && key.rule != ""
    ensures var log := Run([Publish(1, key, "Bea", Some("h")), Withhold(2, key, "Owen", "why"),
                            Approve(2, key, "Owen", Some("h"))]);
            && |log| == 3 && log[2].Approved?
            && StatusOf(log, key) == WithheldStatus
  {
    var p, w := Publish(1, key, "Bea", Some("h")), Withhold(2, key, "Owen", "why");
    var a := Approve(2, key, "Owen", Some("h"));
    var requests := [p, w, a];
    assert requests[..2] == [p, w] && [p, w][..1] == [p] && [p][..0] == [];
    var e0, e1, e2 := Published(1, key, "Bea", "h"), Withheld(2, key, "Owen", "why"), Approved(2, key, "Owen", "h");
    assert Run([p]) == [e0];
    assert Run([p, w]) == [e0, e1];
    assert FirstPublish([e0, e1], key) == Some(e0);
    assert "Bea" != "Owen";
    assert Run(requests) == [e0, e1, e2];
    var log := Run(requests);
    assert log[..2] == [e0, e1] && [e0, e1][..1] == [e0];
    assert LastDecision(log, key) == Some(e2);
    assert LastOfKind([e0, e1], key, false) == Some(e1);
    assert LastOfKind(log, key, false) == LastOfKind(log[..2], key, false);
    LastWordIsLastAppended(log, key);
    StatusFollowsLastWord(requests, key);
  }

  /** Only the first publisher is barred: someone who published again may approve, and the approval binds
      the hash of the first publication. */
  lemma LaterPublisherMayApprove(log: seq<Event>, key: Key, asOf: int, name: string, hash: Option<string>)
    requires key.representation != "" && key.rule != "" && name != "" && hash.Some?
    requires FirstPublish(log, key).Some? && FirstPublish(log, key).value.publisher != name
    ensures var again := Step(log, Publish(asOf, key, name, hash));
            && Accepts(again, Approve(asOf, key, name, hash))
            && EventOf(again, Approve(asOf, key, name, hash)).reviewed == FirstPublish(log, key).value.hash
  {
    FirstPublishOfConcat(log, [Published(asOf, key, name, hash.value)], key);
  }
}
