/**
 What the credit check says of a counterparty, read off the facts on record alone.

 The engine folds a limit out of its lifecycle and an exposure out of the computed figures.  Here the limit
 is given by the last facts of each kind, the exposure by the prevailing figure of each netting set, and the
 check's every answer by a condition on those.
 */
module CreditMeaning {
  import opened Wrappers
  import opened Eligibility
  import opened GatewayLog
  import C = CreditHeadroom

  // ---------------------------------------------------------------- the last fact of a kind

  ghost predicate LastAt(records: seq<Record>, kind: Record -> bool, k: nat) {
    k < |records| && kind(records[k]) && forall j | k < j < |records| :: !kind(records[j])
  }

  ghost predicate Any(records: seq<Record>, kind: Record -> bool) {
    exists r <- records :: kind(r)
  }

  lemma LastStays(records: seq<Record>, front: seq<Record>, kind: Record -> bool, r: Option<Record>)
    requires records != [] && !kind(records[|records| - 1]) && front == records[..|records| - 1]
    requires r.Some? <==> Any(front, kind)
    requires r.Some? ==> exists k: nat :: LastAt(front, kind, k) && front[k] == r.value
    ensures r.Some? <==> Any(records, kind)
    ensures r.Some? ==> exists k: nat :: LastAt(records, kind, k) && records[k] == r.value
  {
    var n := |records| - 1;
    assert forall x :: x in records <==> x in front || x == records[n];
    if r.Some? {
      var k: nat :| LastAt(front, kind, k) && front[k] == r.value;
      assert forall j | 0 <= j < n :: records[j] == front[j];
      assert LastAt(records, kind, k);
    }
  }

  ghost function LastOf(records: seq<Record>, kind: Record -> bool): (r: Option<Record>)
    ensures r.Some? <==> Any(records, kind)
    ensures r.Some? ==> kind(r.value) && exists k: nat :: LastAt(records, kind, k) && records[k] == r.value
  {
    if records == [] then None
    else
      var n := |records| - 1;
      if kind(records[n]) then assert LastAt(records, kind, n); Some(records[n])
      else
        var r := LastOf(records[..n], kind);
        LastStays(records, records[..n], kind, r);
        r
  }

  // ---------------------------------------------------------------- the facts about a limit

  predicate Names(r: Record, party: string, asOf: int) {
    && (r.LimitApplied? || r.LimitApproved? || r.LimitLoaded? || r.LimitReviewed? || r.LimitBreached? ||
        r.BreachDisposed? || r.LimitWithdrawn?)
    && r.party == party != "" && r.asOf <= asOf
  }

  function Applications(party: string, asOf: int): Record -> bool {
    (r: Record) => r.LimitApplied? && Names(r, party, asOf)
  }

  function Approvals(party: string, asOf: int): Record -> bool {
    (r: Record) => r.LimitApproved? && Names(r, party, asOf)
  }

  /** Approvals that bear an expiry date. */
  function DatedApprovals(party: string, asOf: int): Record -> bool {
    (r: Record) => r.LimitApproved? && Names(r, party, asOf) && r.expiry.Some?
  }

  function Loads(party: string, asOf: int): Record -> bool {
    (r: Record) => r.LimitLoaded? && Names(r, party, asOf)
  }

  function Reviews(party: string, asOf: int): Record -> bool {
    (r: Record) => r.LimitReviewed? && Names(r, party, asOf)
  }

  /** Reviews that set a new amount. */
  function Revisions(party: string, asOf: int): Record -> bool {
    (r: Record) => r.LimitReviewed? && Names(r, party, asOf) && r.revised > 0
  }

  function Breaches(party: string, asOf: int): Record -> bool {
    (r: Record) => r.LimitBreached? && Names(r, party, asOf)
  }

  function Disposals(party: string, asOf: int): Record -> bool {
    (r: Record) => r.BreachDisposed? && Names(r, party, asOf)
  }

  function Withdrawals(party: string, asOf: int): Record -> bool {
    (r: Record) => r.LimitWithdrawn? && Names(r, party, asOf)
  }

  // ---------------------------------------------------------------- what the facts say of a limit

  /** The amount of the last review that set one, or else of the last load, or else of the last approval. */
  ghost function AmountOf(records: seq<Record>, party: string, asOf: int): nat {
    var revised := LastOf(records, Revisions(party, asOf));
    var loaded := LastOf(records, Loads(party, asOf));
    var approved := LastOf(records, Approvals(party, asOf));
    if revised.Some? then revised.value.revised
    else if loaded.Some? then loaded.value.limit
    else if approved.Some? then approved.value.limit
    else 0
  }

  /** The currency of the fact that gave the amount, or else of the last application. */
  ghost function CurrencyOf(records: seq<Record>, party: string, asOf: int): string {
    var revised := LastOf(records, Revisions(party, asOf));
    var loaded := LastOf(records, Loads(party, asOf));
    var approved := LastOf(records, Approvals(party, asOf));
    var applied := LastOf(records, Applications(party, asOf));
    if revised.Some? then revised.value.currency
    else if loaded.Some? then loaded.value.currency
    else if approved.Some? then approved.value.currency
    else if applied.Some? then applied.value.currency
    else "ZAR"
  }

  ghost function ExpiryOf(records: seq<Record>, party: string, asOf: int): Option<int> {
    var dated := LastOf(records, DatedApprovals(party, asOf));
    if dated.Some? then dated.value.expiry else None
  }

  /** When the limit was last looked at: the last review, or else the last approval. */
  ghost function AnchorOf(records: seq<Record>, party: string, asOf: int): Option<int> {
    var reviewed := LastOf(records, Reviews(party, asOf));
    var approved := LastOf(records, Approvals(party, asOf));
    if reviewed.Some? then Some(reviewed.value.at)
    else if approved.Some? then Some(approved.value.at)
    else None
  }

  /** Whether the last breach was critical. */
  ghost function BreachOf(records: seq<Record>, party: string, asOf: int): Option<bool> {
    var b := LastOf(records, Breaches(party, asOf));
    if b.Some? then Some(b.value.critical) else None
  }

  ghost predicate Mild(r: Record, party: string, asOf: int, critical: bool) {
    Disposals(party, asOf)(r) && !(critical && r.accepted)
  }

  ghost predicate TwoDisposals(records: seq<Record>, party: string, asOf: int) {
    exists i, j | 0 <= i < j < |records| :: Disposals(party, asOf)(records[i]) && Disposals(party, asOf)(records[j])
  }

  /** Some disposal does anything but accept a critical breach, or there are two disposals. */
  ghost predicate PutBack(records: seq<Record>, party: string, asOf: int, critical: bool) {
    (exists r <- records :: Mild(r, party, asOf, critical)) || TwoDisposals(records, party, asOf)
  }

  /** Never withdrawn, and either loaded and never breached, or put back by a disposal. */
  ghost predicate Live(records: seq<Record>, party: string, asOf: int) {
    && !Any(records, Withdrawals(party, asOf))
    && if Any(records, Disposals(party, asOf))
       then PutBack(records, party, asOf, BreachOf(records, party, asOf) == Some(true))
       else BreachOf(records, party, asOf).None? && Any(records, Loads(party, asOf))
  }

  /** The day of expiry is past, in days since the epoch. */
  ghost predicate Expired(records: seq<Record>, party: string, asOf: int) {
    var expiry := ExpiryOf(records, party, asOf);
    expiry.Some? && expiry.value < asOf / 86400000 && !Any(records, Withdrawals(party, asOf))
  }

  /** More than 395 days since the limit was last looked at. */
  ghost predicate Stale(records: seq<Record>, party: string, asOf: int) {
    var anchor := AnchorOf(records, party, asOf);
    anchor.Some? && asOf / 86400000 > anchor.value / 86400000 + 395
  }

  // ---------------------------------------------------------------- the limit is what the facts say

  lemma Regroup<T>(a: seq<T>, b: seq<T>, c: seq<T>)
    ensures a + (b + c) == a + b + c
  {}

  lemma {:induction false} AmongOneMore(records: seq<Record>, wanted: Record -> bool)
    requires records != []
    ensures var n := |records| - 1;
            Among(records, wanted) == Among(records[..n], wanted) + if wanted(records[n]) then [records[n]] else []
  {
    var n := |records| - 1;
    var few, last := if wanted(records[0]) then [records[0]] else [], if wanted(records[n]) then [records[n]] else [];
    if n == 0 {
      assert records[1..] == [] && records[..0] == [];
    } else {
      AmongOneMore(records[1..], wanted);
      assert records[1..][..n - 1] == records[..n][1..];
      Regroup(few, Among(records[..n][1..], wanted), last);
    }
  }

  lemma LastOneMore(records: seq<Record>, kind: Record -> bool)
    ensures records == [] ==> LastOf(records, kind) == None && !Any(records, kind)
    ensures records != [] ==>
              var n := |records| - 1;
              && LastOf(records, kind) == (if kind(records[n]) then Some(records[n]) else LastOf(records[..n], kind))
              && (Any(records, kind) <==> Any(records[..n], kind) || kind(records[n]))
  {}

  function After(l: C.Limit, records: seq<Record>, stage: C.Stage, party: string, asOf: int): C.Limit {
    C.AbsorbAll(l, Among(records, C.Wanted(stage, party, asOf)))
  }

  /** Replaying a type one fact at a time, over all the facts on record. */
  lemma AfterOneMore(l: C.Limit, records: seq<Record>, stage: C.Stage, party: string, asOf: int)
    ensures records == [] ==> After(l, records, stage, party, asOf) == l
    ensures records != [] ==>
              var n := |records| - 1;
              After(l, records, stage, party, asOf) ==
              if C.Concerns(records[n], stage, party, asOf)
              then C.Absorb(After(l, records[..n], stage, party, asOf), records[n])
              else After(l, records[..n], stage, party, asOf)
  {
    if records != [] {
      AmongOneMore(records, C.Wanted(stage, party, asOf));
      var n := |records| - 1;
      var front := Among(records[..n], C.Wanted(stage, party, asOf));
      assert (front + [records[n]])[..|front|] == front;
      assert front + [] == front;
    }
  }

  lemma {:induction false} AfterApplying(l: C.Limit, records: seq<Record>, party: string, asOf: int)
    requires l.status.PendingLimit?
    ensures var a := LastOf(records, Applications(party, asOf));
            After(l, records, C.Applying, party, asOf) ==
            if a.None? then l else l.(seen := true, currency := a.value.currency)
  {
    hide Any, LastOf, LastAt, After, Among, C.AbsorbAll, PutBack;
    AfterOneMore(l, records, C.Applying, party, asOf);
    LastOneMore(records, Applications(party, asOf));
    if records != [] {
      AfterApplying(l, records[..|records| - 1], party, asOf);
    }
  }

  lemma {:induction false} AfterApproving(l: C.Limit, records: seq<Record>, party: string, asOf: int)
    ensures var a, d := LastOf(records, Approvals(party, asOf)), LastOf(records, DatedApprovals(party, asOf));
            After(l, records, C.Approving, party, asOf) ==
            if a.None? then l
            else l.(seen := true, status := C.ApprovedLimit, amount := a.value.limit, currency := a.value.currency,
                    approvedAt := Some(a.value.at), expiry := if d.Some? then d.value.expiry else l.expiry)
  {
    hide Any, LastOf, LastAt, After, Among, C.AbsorbAll, PutBack;
    AfterOneMore(l, records, C.Approving, party, asOf);
    LastOneMore(records, Approvals(party, asOf));
    LastOneMore(records, DatedApprovals(party, asOf));
    if records != [] {
      AfterApproving(l, records[..|records| - 1], party, asOf);
      SpecialKinds(records[..|records| - 1], party, asOf);
    }
  }

  lemma {:induction false} AfterLoading(l: C.Limit, records: seq<Record>, party: string, asOf: int)
    ensures var a := LastOf(records, Loads(party, asOf));
            After(l, records, C.Loading, party, asOf) ==
            if a.None? then l
            else l.(seen := true, status := C.LoadedLimit, amount := a.value.limit, currency := a.value.currency)
  {
    hide Any, LastOf, LastAt, After, Among, C.AbsorbAll, PutBack;
    AfterOneMore(l, records, C.Loading, party, asOf);
    LastOneMore(records, Loads(party, asOf));
    if records != [] {
      AfterLoading(l, records[..|records| - 1], party, asOf);
    }
  }

  lemma {:induction false} AfterReviewing(l: C.Limit, records: seq<Record>, party: string, asOf: int)
    ensures var a, v := LastOf(records, Reviews(party, asOf)), LastOf(records, Revisions(party, asOf));
            After(l, records, C.Reviewing, party, asOf) ==
            if a.None? then l
            else l.(seen := true, reviewedAt := Some(a.value.at),
                    amount := if v.Some? then v.value.revised else l.amount,
                    currency := if v.Some? then v.value.currency else l.currency)
  {
    hide Any, LastOf, LastAt, After, Among, C.AbsorbAll, PutBack;
    AfterOneMore(l, records, C.Reviewing, party, asOf);
    LastOneMore(records, Reviews(party, asOf));
    LastOneMore(records, Revisions(party, asOf));
    if records != [] {
      AfterReviewing(l, records[..|records| - 1], party, asOf);
      SpecialKinds(records[..|records| - 1], party, asOf);
    }
  }

  lemma {:induction false} AfterBreaching(l: C.Limit, records: seq<Record>, party: string, asOf: int)
    ensures var b := BreachOf(records, party, asOf);
            After(l, records, C.Breaching, party, asOf) ==
            if b.None? then l else l.(seen := true, status := C.BreachedLimit, critical := b.value)
  {
    hide Any, LastOf, LastAt, After, Among, C.AbsorbAll, PutBack;
    AfterOneMore(l, records, C.Breaching, party, asOf);
    LastOneMore(records, Breaches(party, asOf));
    if records != [] {
      AfterBreaching(l, records[..|records| - 1], party, asOf);
    }
  }

  lemma {:induction false} AfterDisposing(l: C.Limit, records: seq<Record>, party: string, asOf: int)
    ensures After(l, records, C.Disposing, party, asOf) ==
            if !Any(records, Disposals(party, asOf)) then l
            else l.(seen := true, critical := false,
                    status := if PutBack(records, party, asOf, l.critical) then C.LoadedLimit else l.status)
  {
    hide Any, LastOf, LastAt, After, Among, C.AbsorbAll, TwoDisposals;
    AfterOneMore(l, records, C.Disposing, party, asOf);
    LastOneMore(records, Disposals(party, asOf));
    if records != [] {
      var n := |records| - 1;
      var front, last := records[..n], records[n];
      AfterDisposing(l, front, party, asOf);
      MildOneMore(records, party, asOf, l.critical);
      TwoDisposalsOneMore(records, party, asOf);
      if !Any(front, Disposals(party, asOf)) { NoDisposals(front, party, asOf, l.critical); }
    }
  }

  lemma MildOneMore(records: seq<Record>, party: string, asOf: int, critical: bool)
    requires records != []
    ensures var n := |records| - 1;
            (exists r <- records :: Mild(r, party, asOf, critical)) <==>
            (exists r <- records[..n] :: Mild(r, party, asOf, critical)) || Mild(records[n], party, asOf, critical)
  {
    hide Mild;
    var n := |records| - 1;
    assert forall r <- records :: r in records[..n] || r == records[n];
  }

  lemma TwoDisposalsOneMore(records: seq<Record>, party: string, asOf: int)
    requires records != []
    ensures var n := |records| - 1;
            TwoDisposals(records, party, asOf) <==>
            || TwoDisposals(records[..n], party, asOf)
            || (Disposals(party, asOf)(records[n]) && Any(records[..n], Disposals(party, asOf)))
  {
    hide Names;
    var n, kind := |records| - 1, Disposals(party, asOf);
    var front := records[..n];
    if TwoDisposals(records, party, asOf) { TwoRemain(records, party, asOf); }
    if kind(records[n]) && Any(front, kind) {
      var r :| r in front && kind(r);
      var k :| 0 <= k < n && front[k] == r;
      assert kind(records[k]) && kind(records[n]);
    }
    if TwoDisposals(front, party, asOf) {
      var i, j :| 0 <= i < j < |front| && kind(front[i]) && kind(front[j]);
      assert kind(records[i]) && kind(records[j]);
    }
  }

  lemma TwoRemain(records: seq<Record>, party: string, asOf: int)
    requires records != [] && TwoDisposals(records, party, asOf)
    ensures var n := |records| - 1;
            || TwoDisposals(records[..n], party, asOf)
            || (Disposals(party, asOf)(records[n]) && Any(records[..n], Disposals(party, asOf)))
  {
    hide Names;
    var n, kind := |records| - 1, Disposals(party, asOf);
    var front := records[..n];
    var i, j :| 0 <= i < j < |records| && kind(records[i]) && kind(records[j]);
    assert kind(front[i]) && front[i] in front;
    assert j < n ==> kind(front[j]);
  }

  lemma NoDisposals(records: seq<Record>, party: string, asOf: int, critical: bool)
    requires !Any(records, Disposals(party, asOf))
    ensures !PutBack(records, party, asOf, critical)
  {
    hide Names;
  }

  lemma {:induction false} AfterWithdrawing(l: C.Limit, records: seq<Record>, party: string, asOf: int)
    ensures After(l, records, C.Withdrawing, party, asOf) ==
            if !Any(records, Withdrawals(party, asOf)) then l
            else l.(seen := true, status := C.WithdrawnLimit)
  {
    hide Any, LastOf, LastAt, After, Among, C.AbsorbAll, PutBack;
    AfterOneMore(l, records, C.Withdrawing, party, asOf);
    LastOneMore(records, Withdrawals(party, asOf));
    if records != [] {
      AfterWithdrawing(l, records[..|records| - 1], party, asOf);
    }
  }

  lemma StageAfter(log: seq<Entry>, party: string, asOf: int, n: nat)
    requires n < |C.LIFECYCLE|
    ensures C.LimitAfter(log, party, asOf, n + 1) ==
            After(C.LimitAfter(log, party, asOf, n), Records(log), C.LIFECYCLE[n], party, asOf)
  {
    ReplayIsAmong(log, C.Wanted(C.LIFECYCLE[n], party, asOf));
  }

  /** The limit, field by field. */
  ghost predicate Reads(l: C.Limit, records: seq<Record>, party: string, asOf: int) {
    && l.amount == AmountOf(records, party, asOf) && l.currency == CurrencyOf(records, party, asOf)
    && l.expiry == ExpiryOf(records, party, asOf)
    && (if l.reviewedAt.Some? then l.reviewedAt else l.approvedAt) == AnchorOf(records, party, asOf)
    && (l.status.LoadedLimit? <==> Live(records, party, asOf))
    && (l.status.WithdrawnLimit? <==> Any(records, Withdrawals(party, asOf)))
    && (Live(records, party, asOf) || Expired(records, party, asOf) ==> l.seen)
  }

  /** After applications and approvals. */
  lemma ReadsApproved(log: seq<Entry>, party: string, asOf: int)
    ensures var l, records := C.LimitAfter(log, party, asOf, 2), Records(log);
            var applied, approved := LastOf(records, Applications(party, asOf)),
                LastOf(records, Approvals(party, asOf));
            && l.amount == (if approved.Some? then approved.value.limit else 0)
            && l.currency == (if approved.Some? then approved.value.currency
                              else if applied.Some? then applied.value.currency else "ZAR")
            && l.expiry == ExpiryOf(records, party, asOf)
            && l.approvedAt == (if approved.Some? then Some(approved.value.at) else None)
            && l.reviewedAt == None && !l.critical && (l.status.PendingLimit? || l.status.ApprovedLimit?)
            && (approved.Some? ==> l.seen)
  {
    hide Any, Records, LastOf, After, C.LimitAfter, Names;
    var l0 := C.LimitAfter(log, party, asOf, 0);
    var l1 := C.LimitAfter(log, party, asOf, 1);
    C.NothingAbsorbed(log, party, asOf);
    StageAfter(log, party, asOf, 0);
    AfterApplying(l0, Records(log), party, asOf);
    StageAfter(log, party, asOf, 1);
    AfterApproving(l1, Records(log), party, asOf);
    SpecialKinds(Records(log), party, asOf);
  }

  /** And after loads and reviews. */
  lemma ReadsReviewed(log: seq<Entry>, party: string, asOf: int)
    ensures var l, records := C.LimitAfter(log, party, asOf, 4), Records(log);
            && l.amount == AmountOf(records, party, asOf) && l.currency == CurrencyOf(records, party, asOf)
            && l.expiry == ExpiryOf(records, party, asOf)
            && (if l.reviewedAt.Some? then l.reviewedAt else l.approvedAt) == AnchorOf(records, party, asOf)
            && !l.critical && (l.status.PendingLimit? || l.status.ApprovedLimit? || l.status.LoadedLimit?)
            && (l.status.LoadedLimit? <==> Any(records, Loads(party, asOf)))
            && (Any(records, Approvals(party, asOf)) || l.status.LoadedLimit? ==> l.seen)
  {
    hide Any, Records, LastOf, After, C.LimitAfter, Names, ExpiryOf;
    var l2 := C.LimitAfter(log, party, asOf, 2);
    var l3 := C.LimitAfter(log, party, asOf, 3);
    ReadsApproved(log, party, asOf);
    StageAfter(log, party, asOf, 2);
    AfterLoading(l2, Records(log), party, asOf);
    StageAfter(log, party, asOf, 3);
    AfterReviewing(l3, Records(log), party, asOf);
    SpecialKinds(Records(log), party, asOf);
  }

  /** Breaches, disposals and withdrawals touch the status only. */
  lemma LastTypes(l4: C.Limit, l5: C.Limit, l6: C.Limit, l7: C.Limit, breached: Option<bool>, disposed: bool,
                  putBack: bool, withdrawn: bool)
    requires l5 == if breached.None? then l4
                   else l4.(seen := true, status := C.BreachedLimit, critical := breached.value)
    requires l6 == if !disposed then l5
                   else l5.(seen := true, critical := false, status := if putBack then C.LoadedLimit else l5.status)
    requires l7 == if !withdrawn then l6 else l6.(seen := true, status := C.WithdrawnLimit)
    requires !l4.critical && (l4.status.PendingLimit? || l4.status.ApprovedLimit? || l4.status.LoadedLimit?)
    requires disposed && !l5.critical ==> putBack
    ensures l7.amount == l4.amount && l7.currency == l4.currency && l7.expiry == l4.expiry
    ensures l7.reviewedAt == l4.reviewedAt && l7.approvedAt == l4.approvedAt
    ensures l5.critical == (breached == Some(true))
    ensures l7.status.WithdrawnLimit? <==> withdrawn
    ensures l7.status.LoadedLimit? <==>
            !withdrawn && if disposed then putBack else breached.None? && l4.status.LoadedLimit?
    ensures l4.seen || disposed ==> l7.seen
  {}

  lemma LimitReads(log: seq<Entry>, party: string, asOf: int)
    ensures Reads(C.LimitOf(log, party, asOf), Records(log), party, asOf)
  {
    hide Any, Records, LastOf, After, C.LimitAfter, Names, AmountOf, CurrencyOf, AnchorOf, ExpiryOf, PutBack, BreachOf,
         Disposals, Withdrawals, Loads;
    var records := Records(log);
    var l4 := C.LimitAfter(log, party, asOf, 4);
    var l5 := C.LimitAfter(log, party, asOf, 5);
    var l6 := C.LimitAfter(log, party, asOf, 6);
    StageAfter(log, party, asOf, 4);
    AfterBreaching(l4, records, party, asOf);
    StageAfter(log, party, asOf, 5);
    AfterDisposing(l5, records, party, asOf);
    StageAfter(log, party, asOf, 6);
    AfterWithdrawing(l6, records, party, asOf);
    AnyDisposal(records, party, asOf, l5.critical);
    ReadsReviewed(log, party, asOf);
    LastTypes(l4, l5, l6, C.LimitOf(log, party, asOf), BreachOf(records, party, asOf),
              Any(records, Disposals(party, asOf)), PutBack(records, party, asOf, l5.critical),
              Any(records, Withdrawals(party, asOf)));
    ExpiryIsOfApproval(records, party, asOf);
  }

  lemma ExpiryIsOfApproval(records: seq<Record>, party: string, asOf: int)
    ensures ExpiryOf(records, party, asOf).Some? ==> Any(records, Approvals(party, asOf))
  {
    SpecialKinds(records, party, asOf);
  }

  lemma AnyDisposal(records: seq<Record>, party: string, asOf: int, critical: bool)
    ensures Any(records, Disposals(party, asOf)) && !critical ==> PutBack(records, party, asOf, critical)
  {
    if Any(records, Disposals(party, asOf)) && !critical {
      var r :| r in records && Disposals(party, asOf)(r);
      assert Mild(r, party, asOf, critical);
    }
  }

  /** A dated approval is an approval, and a review with an amount a review. */
  lemma SpecialKinds(records: seq<Record>, party: string, asOf: int)
    ensures Any(records, DatedApprovals(party, asOf)) ==> Any(records, Approvals(party, asOf))
    ensures Any(records, Revisions(party, asOf)) ==> Any(records, Reviews(party, asOf))
  {
    assert forall r :: DatedApprovals(party, asOf)(r) ==> Approvals(party, asOf)(r);
    assert forall r :: Revisions(party, asOf)(r) ==> Reviews(party, asOf)(r);
  }

  // ---------------------------------------------------------------- the exposure

  /** A figure computed for a netting set of the party: an exposure at default or a replacement cost. */
  predicate IsFigure(r: Record, ead: bool, party: string, asOf: int, nettingSet: string) {
    (if ead then r.EadComputed? else r.CostComputed?) && r.party == party && r.asOf <= asOf &&
    r.nettingSet == nettingSet
  }

  /** The figure of greatest date, the last on record among equals. */
  ghost predicate Prevails(records: seq<Record>, ead: bool, party: string, asOf: int, nettingSet: string, k: nat) {
    && k < |records| && IsFigure(records[k], ead, party, asOf, nettingSet)
    && forall j | 0 <= j < |records| && IsFigure(records[j], ead, party, asOf, nettingSet) ::
         records[j].on < records[k].on || (records[j].on == records[k].on && j <= k)
  }

  ghost function FigureOf(records: seq<Record>, ead: bool, party: string, asOf: int, nettingSet: string)
    : (r: Option<Record>)
    ensures r.Some? <==> exists k: nat :: Prevails(records, ead, party, asOf, nettingSet, k)
    ensures r.Some? ==> exists k: nat :: Prevails(records, ead, party, asOf, nettingSet, k) && records[k] == r.value
  {
    if k: nat :| Prevails(records, ead, party, asOf, nettingSet, k) then Some(records[k]) else None
  }

  /** What a netting set counts for: its exposure at default if one was computed, or else its replacement cost,
      and nothing in another currency. */
  ghost function FigureIn(records: seq<Record>, party: string, asOf: int, currency: string, nettingSet: string): int {
    var ead := FigureOf(records, true, party, asOf, nettingSet);
    var cost := FigureOf(records, false, party, asOf, nettingSet);
    if ead.Some? then if ead.value.currency == currency then ead.value.amount else 0
    else if cost.Some? && cost.value.currency == currency then cost.value.amount
    else 0
  }

  predicate HasFigure(r: Record, party: string, asOf: int) {
    (r.EadComputed? || r.CostComputed?) && r.party == party && r.asOf <= asOf
  }

  ghost function SetsOf(records: seq<Record>, party: string, asOf: int): set<string> {
    set r | r in records && HasFigure(r, party, asOf) :: r.nettingSet
  }

  /** The sum over a set of netting sets, in whatever order. */
  ghost function Total(sets: set<string>, records: seq<Record>, party: string, asOf: int, currency: string): int {
    if sets == {} then 0
    else
      var s :| s in sets;
      FigureIn(records, party, asOf, currency, s) + Total(sets - {s}, records, party, asOf, currency)
  }

  ghost function ExposureOf(records: seq<Record>, party: string, asOf: int, currency: string): int {
    Total(SetsOf(records, party, asOf), records, party, asOf, currency)
  }

  // ---------------------------------------------------------------- the exposure is what the facts say

  ghost predicate IsFigureOf(records: seq<Record>, ead: bool, party: string, asOf: int, nettingSet: string, r: Record) {
    IsFigure(r, ead, party, asOf, nettingSet) &&
    exists k: nat :: Prevails(records, ead, party, asOf, nettingSet, k) && records[k] == r
  }

  /** A later record prevails unless its date is earlier. */
  lemma FigureOneMore(records: seq<Record>, ead: bool, party: string, asOf: int, nettingSet: string, r: Record)
    requires records != [] && IsFigureOf(records[..|records| - 1], ead, party, asOf, nettingSet, r)
    ensures var last := records[|records| - 1];
            IsFigureOf(records, ead, party, asOf, nettingSet,
                       if IsFigure(last, ead, party, asOf, nettingSet) && r.on <= last.on then last else r)
  {
    var n := |records| - 1;
    var front := records[..n];
    var k: nat :| Prevails(front, ead, party, asOf, nettingSet, k) && front[k] == r;
    assert forall j | 0 <= j < |front| :: front[j] == records[j];
    if IsFigure(records[n], ead, party, asOf, nettingSet) && r.on <= records[n].on {
      assert Prevails(records, ead, party, asOf, nettingSet, n);
    } else {
      assert Prevails(records, ead, party, asOf, nettingSet, k);
    }
  }

  lemma FirstFigure(records: seq<Record>, ead: bool, party: string, asOf: int, nettingSet: string)
    requires records != [] && IsFigure(records[|records| - 1], ead, party, asOf, nettingSet)
    requires forall x <- records[..|records| - 1] :: !IsFigure(x, ead, party, asOf, nettingSet)
    ensures IsFigureOf(records, ead, party, asOf, nettingSet, records[|records| - 1])
  {
    assert forall j | 0 <= j < |records| - 1 :: records[j] in records[..|records| - 1];
    assert Prevails(records, ead, party, asOf, nettingSet, |records| - 1);
  }

  lemma {:induction false} LatestPrevails(records: seq<Record>, ead: bool, party: string, asOf: int,
                                          nettingSet: string)
    ensures var r := C.Latest(Among(records, C.Computed(ead, party, asOf)), nettingSet);
            && (r.None? ==> forall x <- records :: !IsFigure(x, ead, party, asOf, nettingSet))
            && (r.Some? ==> IsFigureOf(records, ead, party, asOf, nettingSet, r.value))
  {
    if records != [] {
      hide Among, C.Latest, Prevails, IsFigureOf;
      var n := |records| - 1;
      var front, wanted := records[..n], C.Computed(ead, party, asOf);
      assert forall x <- records :: x in front || x == records[n];
      AmongOneMore(records, wanted);
      LatestPrevails(front, ead, party, asOf, nettingSet);
      LatestOneMore(Among(front, wanted), records[n], nettingSet);
      var before := C.Latest(Among(front, wanted), nettingSet);
      if before.Some? {
        FigureOneMore(records, ead, party, asOf, nettingSet, before.value);
      } else if IsFigure(records[n], ead, party, asOf, nettingSet) {
        FirstFigure(records, ead, party, asOf, nettingSet);
      }
    }
  }

  lemma LatestOneMore(figures: seq<Record>, last: Record, nettingSet: string)
    ensures C.Latest(figures + [last], nettingSet) ==
            var before := C.Latest(figures, nettingSet);
            if C.InSet(last, nettingSet) && (before.None? || before.value.on <= last.on) then Some(last) else before
    ensures C.Latest(figures + [], nettingSet) == C.Latest(figures, nettingSet)
  {
    assert (figures + [last])[..|figures|] == figures;
    assert figures + [] == figures;
  }

  lemma LatestIsFigure(records: seq<Record>, ead: bool, party: string, asOf: int, nettingSet: string)
    ensures C.Latest(Among(records, C.Computed(ead, party, asOf)), nettingSet) ==
            FigureOf(records, ead, party, asOf, nettingSet)
  {
    hide Among, C.Latest;
    LatestPrevails(records, ead, party, asOf, nettingSet);
    var r := C.Latest(Among(records, C.Computed(ead, party, asOf)), nettingSet);
    if r.Some? {
      var k: nat :| Prevails(records, ead, party, asOf, nettingSet, k) && records[k] == r.value;
    }
  }

  lemma {:induction false} TotalWithout(sets: set<string>, s: string, records: seq<Record>, party: string, asOf: int,
                                        currency: string)
    requires s in sets
    ensures Total(sets, records, party, asOf, currency) ==
            FigureIn(records, party, asOf, currency, s) + Total(sets - {s}, records, party, asOf, currency)
    decreases |sets|
  {
    hide FigureIn;
    var t :| t in sets && Total(sets, records, party, asOf, currency) ==
                          FigureIn(records, party, asOf, currency, t) +
                              Total(sets - {t}, records, party, asOf, currency);
    if t != s {
      TotalWithout(sets - {t}, s, records, party, asOf, currency);
      TotalWithout(sets - {s}, t, records, party, asOf, currency);
      assert sets - {t} - {s} == sets - {s} - {t};
    }
  }

  lemma SetFigure(records: seq<Record>, party: string, asOf: int, nettingSet: string, currency: string)
    ensures C.SetExposure(Among(records, C.Computed(true, party, asOf)), Among(records, C.Computed(false, party, asOf)),
                          nettingSet, currency) == FigureIn(records, party, asOf, currency, nettingSet)
  {
    hide Among, C.Latest, FigureOf;
    LatestIsFigure(records, true, party, asOf, nettingSet);
    LatestIsFigure(records, false, party, asOf, nettingSet);
  }

  lemma {:induction false} SumIsTotal(records: seq<Record>, party: string, asOf: int, sets: seq<string>,
                                      currency: string)
    requires forall i, j | 0 <= i < j < |sets| :: sets[i] != sets[j]
    ensures C.SumExposure(Among(records, C.Computed(true, party, asOf)), Among(records, C.Computed(false, party, asOf)),
                          sets, currency) == Total((set s | s in sets), records, party, asOf, currency)
  {
    if sets != [] {
      hide Among, C.SetExposure, FigureIn, Total;
      SumIsTotal(records, party, asOf, sets[1..], currency);
      SetFigure(records, party, asOf, sets[0], currency);
      TotalWithout((set s | s in sets), sets[0], records, party, asOf, currency);
      assert (set s | s in sets) - {sets[0]} == (set s | s in sets[1..]);
    }
  }

  ghost predicate Counts(figures: seq<Record>, nettingSet: string) {
    exists r <- figures :: (r.EadComputed? || r.CostComputed?) && r.nettingSet == nettingSet
  }

  predicate Distinct(sets: seq<string>) {
    forall i, j | 0 <= i < j < |sets| :: sets[i] != sets[j]
  }

  lemma {:induction false} SetsListed(figures: seq<Record>)
    ensures forall s :: s in C.NettingSets(figures) <==> Counts(figures, s)
    ensures Distinct(C.NettingSets(figures))
  {
    if figures == [] {
      assert C.NettingSets(figures) == [] && forall r :: r !in figures;
    } else {
      hide Counts;
      var n := |figures| - 1;
      SetsListed(figures[..n]);
      forall s ensures Counts(figures, s) <==> Counts(figures[..n], s) || Counts([figures[n]], s) {
        CountsOneMore(figures, s);
      }
      CountsOne(figures[n]);
      if figures[n].EadComputed? || figures[n].CostComputed? {
        DistinctMore(C.NettingSets(figures[..n]), figures[n].nettingSet);
      }
    }
  }

  lemma DistinctMore(sets: seq<string>, s: string)
    requires Distinct(sets)
    ensures Distinct(if s in sets then sets else sets + [s])
  {}

  lemma CountsOneMore(figures: seq<Record>, s: string)
    requires figures != []
    ensures Counts(figures, s) <==> Counts(figures[..|figures| - 1], s) || Counts([figures[|figures| - 1]], s)
  {
    var n := |figures| - 1;
    assert forall r :: r in figures <==> r in figures[..n] || r in [figures[n]];
  }

  lemma CountsOne(r: Record)
    ensures forall s :: Counts([r], s) <==> (r.EadComputed? || r.CostComputed?) && r.nettingSet == s
  {
    assert r in [r];
  }

  lemma {:induction false} AmongAre(records: seq<Record>, wanted: Record -> bool)
    ensures forall r :: r in Among(records, wanted) <==> r in records && wanted(r)
  {
    if records != [] {
      AmongAre(records[1..], wanted);
      assert forall r :: r in records <==> r == records[0] || r in records[1..];
    }
  }

  lemma SetsAreListed(records: seq<Record>, party: string, asOf: int)
    ensures var eads := Among(records, C.Computed(true, party, asOf));
            var costs := Among(records, C.Computed(false, party, asOf));
            (set s | s in C.NettingSets(eads + costs)) == SetsOf(records, party, asOf)
  {
    hide C.NettingSets, Among;
    var eads := Among(records, C.Computed(true, party, asOf));
    var costs := Among(records, C.Computed(false, party, asOf));
    AmongAre(records, C.Computed(true, party, asOf));
    AmongAre(records, C.Computed(false, party, asOf));
    SetsListed(eads + costs);
    forall s ensures s in C.NettingSets(eads + costs) <==> s in SetsOf(records, party, asOf) {
      if s in SetsOf(records, party, asOf) {
        var r :| r in records && HasFigure(r, party, asOf) && r.nettingSet == s;
        assert r in eads + costs;
      }
    }
  }

  lemma ExposureReads(log: seq<Entry>, party: string, currency: string, asOf: int)
    ensures C.Exposure(log, party, currency, asOf) == ExposureOf(Records(log), party, asOf, currency)
  {
    hide Among, C.NettingSets, C.SumExposure, Total, SetsOf;
    var records := Records(log);
    ReplayIsAmong(log, C.Computed(true, party, asOf));
    ReplayIsAmong(log, C.Computed(false, party, asOf));
    var sets := C.NettingSets(Among(records, C.Computed(true, party, asOf)) +
                              Among(records, C.Computed(false, party, asOf)));
    SetsListed(Among(records, C.Computed(true, party, asOf)) + Among(records, C.Computed(false, party, asOf)));
    SetsAreListed(records, party, asOf);
    SumIsTotal(records, party, asOf, sets, currency);
  }

  // ---------------------------------------------------------------- the check

  /** The limit's amount is not reached by the exposure and the proposal together; a proposal in another
      currency counts for nothing. */
  ghost predicate HasRoom(records: seq<Record>, party: string, proposed: nat, currency: string, asOf: int) {
    var limitCurrency := CurrencyOf(records, party, asOf);
    ExposureOf(records, party, asOf, limitCurrency) + (if currency == limitCurrency then proposed else 0)
      < AmountOf(records, party, asOf)
  }

  ghost predicate HasHeadroom(records: seq<Record>, party: string, proposed: nat, currency: string, asOf: int) {
    && Live(records, party, asOf) && !Expired(records, party, asOf) && !Stale(records, party, asOf)
    && HasRoom(records, party, proposed, currency, asOf)
  }

  ghost predicate BlockedFor(records: seq<Record>, party: string, proposed: nat, currency: string, asOf: int,
                             block: CreditBlock) {
    match block
    case CounterpartyNotApproved => !Live(records, party, asOf) && !Expired(records, party, asOf)
    case LimitExpired => Expired(records, party, asOf)
    case AnnualReviewStale =>
      Live(records, party, asOf) && !Expired(records, party, asOf) && Stale(records, party, asOf)
    case CreditLimitExhausted =>
      && Live(records, party, asOf) && !Expired(records, party, asOf) && !Stale(records, party, asOf)
      && !HasRoom(records, party, proposed, currency, asOf)
  }

  /** MAIN: every answer of the credit check, by the facts on record alone. */
  lemma BlockMeans(log: seq<Entry>, party: string, proposed: nat, currency: string, asOf: int)
    ensures var answer := C.HeadroomBlock(log, party, proposed, currency, asOf);
            && (answer.None? <==> HasHeadroom(Records(log), party, proposed, currency, asOf))
            && forall block ::
                 answer == Some(block) <==> BlockedFor(Records(log), party, proposed, currency, asOf, block)
  {
    hide Records, C.LimitOf, C.Exposure, AmountOf, CurrencyOf, ExpiryOf, AnchorOf, Live, Any, ExposureOf;
    LimitReads(log, party, asOf);
    ExposureReads(log, party, CurrencyOf(Records(log), party, asOf), asOf);
  }
}
