/**
 What a row of the decisions register says about the log.

 The register is folded one event at a time.  Here each row is read off the log's payloads alone: which
 event opened it, which one resolved it, and what its status means.
 */
module DecisionsMeaning {
  import opened Wrappers
  import opened SnapshotReplay
  import opened DecisionsRegister

  // ---- Reading payloads ----

  /** A request for the decision, in either vocabulary. */
  predicate Asks(e: Recorded, id: string) {
    id != "" &&
    match e.body.payload
    case DecisionRequested(d, _, _) => d == id
    case Decision(d, phase, _, _, _, _, _, _, _) => d == id && phase == "requested"
    case _ => false
  }

  const ACTIONS: set<string> := {"approve", "defer", "modify", "request-revision"}

  /** An event that settles the decision one way or another; an unknown action settles nothing. */
  predicate Settles(e: Recorded, id: string) {
    id != "" &&
    match e.body.payload
    case CeoDecision(d, action, _, _, _, _) => d == id && (action.Some? ==> action.value in ACTIONS)
    case Decision(d, phase, _, _, _, _, _, _, _) => d == id && phase != "requested"
    case _ => false
  }

  predicate AsksForRevision(e: Recorded) {
    e.body.payload.CeoDecision? && e.body.payload.action == Some("request-revision")
  }

  predicate IsOr(text: string, given: Option<string>, fallback: string) {
    text == if given.Some? then given.value else fallback
  }

  /** The request side a request leaves in the row. */
  predicate AskedAs(e: Recorded, id: string, r: Request) {
    && r.requestEventId == e.body.eventId && r.requestedAt == e.asOf
    && match e.body.payload
       case DecisionRequested(_, title, brief) => r.title == title && r.brief == brief
       case Decision(_, _, title, _, _, _, hashes, citations, deadline) =>
         && IsOr(r.title, title, id)
         && r.brief ==
            Brief("near-term", ("unknown", "unknown"), "CEO", "", ("", ""), hashes, citations, None, deadline)
       case _ => false
  }

  /** The request side of a decision nobody asked for. */
  predicate StubbedAs(e: Recorded, id: string, r: Request) {
    && r.requestEventId == "" && r.requestedAt == e.asOf
    && r.brief == Brief("near-term", ("unknown", "unknown"), "CEO", "", ("", ""), [], [], None, None)
    && match e.body.payload
       case CeoDecision(_, _, title, _, _, _) => IsOr(r.title, title, id)
       case Decision(_, _, title, _, _, _, _, _, _) => IsOr(r.title, title, id)
       case _ => false
  }

  predicate ActionIs(e: Recorded, a: Action) {
    match e.body.payload
    case CeoDecision(_, action, _, _, _, _) =>
      (match a
       case Approve => action in {None, Some("approve")}
       case Defer => action == Some("defer")
       case Modify => action == Some("modify")
       case RequestRevision => action == Some("request-revision"))
    case Decision(_, phase, _, _, _, _, _, _, _) =>
      (match a
       case Approve => phase !in {"deferred", "superseded", "withdrawn"}
       case Defer => phase == "deferred"
       case Modify => phase in {"superseded", "withdrawn"}
       case RequestRevision => false)
    case _ => false
  }

  predicate ResolvedAs(e: Recorded, r: Resolution) {
    && r.eventId == e.body.eventId && r.actorId == e.body.actorId && r.resolvedAt == e.asOf && ActionIs(e, r.action)
    && match e.body.payload
       case CeoDecision(_, _, _, outcome, comment, via) =>
         IsOr(r.outcome, outcome, "") && r.comment == comment && IsOr(r.recordedVia, via, "unknown")
       case Decision(_, _, _, text, rationale, via, _, _, _) =>
         IsOr(r.outcome, text, "") && r.comment == rationale && IsOr(r.recordedVia, via, "unknown")
       case _ => false
  }

  // ---- The events that matter ----

  predicate NoneAsks(log: seq<Recorded>, id: string) {
    forall j | 0 <= j < |log| :: !Asks(log[j], id)
  }

  predicate NoneSettles(log: seq<Recorded>, id: string) {
    forall j | 0 <= j < |log| :: !Settles(log[j], id)
  }

  predicate LastAsk(log: seq<Recorded>, id: string, k: nat) {
    k < |log| && Asks(log[k], id) && forall j | k < j < |log| :: !Asks(log[j], id)
  }

  predicate FirstSettling(log: seq<Recorded>, id: string, k: nat) {
    k < |log| && Settles(log[k], id) && forall j | 0 <= j < k :: !Settles(log[j], id)
  }

  /** The settling event of greatest time, the last in the log among equals. */
  predicate Prevails(log: seq<Recorded>, id: string, k: nat) {
    && k < |log| && Settles(log[k], id)
    && forall j | 0 <= j < |log| && Settles(log[j], id) ::
         log[j].asOf < log[k].asOf || (log[j].asOf == log[k].asOf && j <= k)
  }

  /** Some settling event came after the one that prevails. */
  predicate Overtaken(log: seq<Recorded>, id: string, k: nat) {
    exists j | 0 <= j < |log| :: k < j && Settles(log[j], id)
  }

  ghost predicate RequestSideIs(log: seq<Recorded>, id: string, r: Request) {
    || (exists k: nat :: LastAsk(log, id, k) && AskedAs(log[k], id, r))
    || (NoneAsks(log, id) && exists k: nat :: FirstSettling(log, id, k) && StubbedAs(log[k], id, r))
  }

  ghost predicate DecisionSideIs(log: seq<Recorded>, id: string, status: Status, resolution: Option<Resolution>) {
    || (NoneSettles(log, id) && status == Open && resolution == None)
    || (exists k: nat ::
          && Prevails(log, id, k) && resolution.Some? && ResolvedAs(log[k], resolution.value)
          && status == if Overtaken(log, id, k) then Superseded
                       else if AsksForRevision(log[k]) then RevisionRequested
                       else Resolved)
  }

  /** What a row says, and that there is one exactly when some event names the decision. */
  ghost predicate RowSays(log: seq<Recorded>, id: string, row: Option<Row>) {
    match row
    case None => NoneAsks(log, id) && NoneSettles(log, id)
    case Some(r) => RequestSideIs(log, id, r.request) && DecisionSideIs(log, id, r.status, r.resolution)
  }

  // ---- What one event does ----

  /** An event asks, settles, or leaves the row alone; the reducer's reading agrees with the payload's. */
  lemma EffectIs(e: Recorded, id: string)
    ensures Touches(e, id) <==> Asks(e, id) || Settles(e, id)
    ensures !(Asks(e, id) && Settles(e, id))
    ensures Asks(e, id) ==> EffectOf(e).Opens? && AskedAs(e, id, EffectOf(e).request)
    ensures Settles(e, id) ==>
              EffectOf(e).Resolves? && StubbedAs(e, id, EffectOf(e).stub) && ResolvedAs(e, EffectOf(e).resolution)
  {}

  lemma StatusIs(e: Recorded, r: Resolution)
    requires ResolvedAs(e, r)
    ensures StatusOf(r.action) == if AsksForRevision(e) then RevisionRequested else Resolved
  {}

  // ---- One more event ----

  lemma Earlier(log: seq<Recorded>, e: Recorded)
    ensures (log + [e])[|log|] == e && |log + [e]| == |log| + 1
    ensures forall j | 0 <= j < |log| :: (log + [e])[j] == log[j]
  {}

  lemma QuietRequestSide(log: seq<Recorded>, e: Recorded, id: string, r: Request)
    requires RequestSideIs(log, id, r) && !Asks(e, id)
    ensures RequestSideIs(log + [e], id, r)
  {
    hide Asks, Settles, AskedAs, StubbedAs;
    Earlier(log, e);
    if k: nat :| LastAsk(log, id, k) && AskedAs(log[k], id, r) {
      assert LastAsk(log + [e], id, k) && AskedAs((log + [e])[k], id, r);
    } else {
      var k: nat :| FirstSettling(log, id, k) && StubbedAs(log[k], id, r);
      assert FirstSettling(log + [e], id, k) && StubbedAs((log + [e])[k], id, r);
    }
  }

  lemma AskedRequestSide(log: seq<Recorded>, e: Recorded, id: string, r: Request)
    requires Asks(e, id) && AskedAs(e, id, r)
    ensures RequestSideIs(log + [e], id, r)
  {
    hide Asks, AskedAs;
    Earlier(log, e);
    assert LastAsk(log + [e], id, |log|) && AskedAs((log + [e])[|log|], id, r);
  }

  lemma StubRequestSide(log: seq<Recorded>, e: Recorded, id: string, r: Request)
    requires NoneAsks(log, id) && NoneSettles(log, id) && Settles(e, id) && !Asks(e, id) && StubbedAs(e, id, r)
    ensures RequestSideIs(log + [e], id, r)
  {
    hide Asks, Settles, StubbedAs;
    Earlier(log, e);
    assert FirstSettling(log + [e], id, |log|) && StubbedAs((log + [e])[|log|], id, r);
  }

  lemma QuietDecisionSide(log: seq<Recorded>, e: Recorded, id: string, status: Status, resolution: Option<Resolution>)
    requires DecisionSideIs(log, id, status, resolution) && !Settles(e, id)
    ensures DecisionSideIs(log + [e], id, status, resolution)
  {
    hide Settles, ResolvedAs, AsksForRevision;
    Earlier(log, e);
    if k: nat :| Prevails(log, id, k) && resolution.Some? && ResolvedAs(log[k], resolution.value) &&
                 status == if Overtaken(log, id, k) then Superseded
                           else if AsksForRevision(log[k]) then RevisionRequested
                           else Resolved
    {
      assert Prevails(log + [e], id, k) && ResolvedAs((log + [e])[k], resolution.value);
      assert Overtaken(log + [e], id, k) <==> Overtaken(log, id, k);
    }
  }

  /** The settling event prevails if nothing settled at a later time. */
  lemma NewDecisionSide(log: seq<Recorded>, e: Recorded, id: string, r: Resolution)
    requires Settles(e, id) && ResolvedAs(e, r)
    requires forall j | 0 <= j < |log| && Settles(log[j], id) :: log[j].asOf <= e.asOf
    ensures DecisionSideIs(log + [e], id, StatusOf(r.action), Some(r))
  {
    hide Settles, ResolvedAs;
    StatusIs(e, r);
    Earlier(log, e);
    assert Prevails(log + [e], id, |log|) && ResolvedAs((log + [e])[|log|], r);
    assert !Overtaken(log + [e], id, |log|);
  }

  /** An event of earlier time than the one that prevails only overtakes it. */
  lemma LateDecisionSide(log: seq<Recorded>, e: Recorded, id: string, status: Status, r: Resolution)
    requires DecisionSideIs(log, id, status, Some(r)) && Settles(e, id) && e.asOf < r.resolvedAt
    ensures DecisionSideIs(log + [e], id, Superseded, Some(r))
  {
    hide Settles, AsksForRevision;
    Earlier(log, e);
    var k: nat :| Prevails(log, id, k) && ResolvedAs(log[k], r);
    assert Prevails(log + [e], id, k) && ResolvedAs((log + [e])[k], r);
    assert (log + [e])[|log|] == e && Overtaken(log + [e], id, k);
  }

  /** Whether anything settled later, read off the row. */
  lemma PrevailingTime(log: seq<Recorded>, id: string, status: Status, resolution: Option<Resolution>, time: int)
    requires DecisionSideIs(log, id, status, resolution)
    ensures (resolution.None? || resolution.value.resolvedAt <= time) ==>
              forall j | 0 <= j < |log| && Settles(log[j], id) :: log[j].asOf <= time
  {
    hide Settles, AsksForRevision;
  }

  lemma StepSays(log: seq<Recorded>, row: Option<Row>, e: Recorded, id: string)
    requires RowSays(log, id, row)
    ensures RowSays(log + [e], id, RowStep(row, e, id))
  {
    EffectIs(e, id);
    hide Asks, Settles, AskedAs, StubbedAs, ResolvedAs, RequestSideIs, DecisionSideIs, EffectOf, StatusOf;
    if Asks(e, id) {
      AskStepSays(log, row, e, id);
    } else if Settles(e, id) {
      SettleStepSays(log, row, e, id);
    } else if row.Some? {
      QuietRequestSide(log, e, id, row.value.request);
      QuietDecisionSide(log, e, id, row.value.status, row.value.resolution);
    } else {
      Earlier(log, e);
    }
  }

  lemma AskStepSays(log: seq<Recorded>, row: Option<Row>, e: Recorded, id: string)
    requires RowSays(log, id, row) && Asks(e, id)
    ensures RowSays(log + [e], id, RowStep(row, e, id))
  {
    EffectIs(e, id);
    hide Asks, Settles, AskedAs, StubbedAs, ResolvedAs, RequestSideIs, EffectOf;
    AskedRequestSide(log, e, id, EffectOf(e).request);
    if row.Some? {
      QuietDecisionSide(log, e, id, row.value.status, row.value.resolution);
    } else {
      Earlier(log, e);
    }
  }

  lemma SettleStepSays(log: seq<Recorded>, row: Option<Row>, e: Recorded, id: string)
    requires RowSays(log, id, row) && Settles(e, id)
    ensures RowSays(log + [e], id, RowStep(row, e, id))
  {
    EffectIs(e, id);
    var f := EffectOf(e);
    assert f.resolution.resolvedAt == e.asOf;
    hide Asks, Settles, AskedAs, StubbedAs, ResolvedAs, RequestSideIs, DecisionSideIs, EffectOf, StatusOf;
    if row.None? {
      StubRequestSide(log, e, id, f.stub);
      NewDecisionSide(log, e, id, f.resolution);
    } else {
      QuietRequestSide(log, e, id, row.value.request);
      PrevailingTime(log, id, row.value.status, row.value.resolution, e.asOf);
      if row.value.resolution.Some? && row.value.resolution.value.resolvedAt > e.asOf {
        LateDecisionSide(log, e, id, row.value.status, row.value.resolution.value);
      } else {
        NewDecisionSide(log, e, id, f.resolution);
      }
    }
  }

  lemma NothingSaid(id: string)
    ensures RowSays([], id, None)
  {}

  lemma {:induction false} FoldSays(log: seq<Recorded>, id: string)
    ensures RowSays(log, id, RowFold(None, log, id))
  {
    hide RowSays, RowStep;
    if log == [] {
      NothingSaid(id);
    } else {
      var n := |log| - 1;
      FoldSays(log[..n], id);
      StepSays(log[..n], RowFold(None, log[..n], id), log[n], id);
      assert log == log[..n] + [log[n]];
    }
  }

  // ---- The register ----

  /** MAIN: after a full replay, each decision's row says what the replayed events say, and there is a row
      exactly for the decisions they name. */
  lemma RegisterSaysLog(log: seq<Recorded>, asOf: int, id: string)
    ensures RowSays(Replay(log, 0, asOf), id, Lookup(Full(DECISIONS, log, asOf), id))
  {
    var rows := Replay(log, 0, asOf);
    RowsAreIndependent(EMPTY, rows, id);
    FoldSays(rows, id);
  }

  // ---- The order of the rows ----

  predicate Names(e: Recorded, id: string) {
    Asks(e, id) || Settles(e, id)
  }

  /** The event that first names a decision. */
  predicate FirstNaming(log: seq<Recorded>, id: string, k: nat) {
    k < |log| && Names(log[k], id) && forall j | 0 <= j < k :: !Names(log[j], id)
  }

  /** The rows are listed in the order in which their decisions were first named: the row at place `a`
      by the event at `at[a]`. */
  ghost predicate ListedAt(log: seq<Recorded>, s: Register, at: seq<nat>) {
    && |at| == |s.order| && (forall id :: id in s.order <==> id in s.rows)
    && (forall a | 0 <= a < |at| :: FirstNaming(log, s.order[a], at[a]))
    && (forall a, b | 0 <= a < b < |at| :: at[a] < at[b])
  }

  lemma NamedFirst(log: seq<Recorded>, e: Recorded, id: string, k: nat)
    requires FirstNaming(log, id, k)
    ensures FirstNaming(log + [e], id, k)
  {
    hide Names;
    Earlier(log, e);
  }

  lemma ListedStep(log: seq<Recorded>, s: Register, at: seq<nat>, e: Recorded, id: string) returns (next: seq<nat>)
    requires ListedAt(log, s, at) && Names(e, id)
    requires id !in s.rows ==> NoneAsks(log, id) && NoneSettles(log, id)
    ensures forall row :: ListedAt(log + [e], Put(s, id, row), next)
  {
    hide Names, FirstNaming, NoneAsks, NoneSettles;
    next := if id in s.rows then at else at + [|log|];
    ListedAlready(log, s, at, e);
    if id !in s.rows {
      NamedNow(log, e, id);
      forall a | 0 <= a < |at| ensures at[a] < |log| {
        NamedBefore(log, s.order[a], at[a]);
      }
    }
  }

  lemma NamedBefore(log: seq<Recorded>, id: string, k: nat)
    requires FirstNaming(log, id, k)
    ensures k < |log|
  {}

  lemma NamedNow(log: seq<Recorded>, e: Recorded, id: string)
    requires Names(e, id) && NoneAsks(log, id) && NoneSettles(log, id)
    ensures FirstNaming(log + [e], id, |log|)
  {
    hide Asks, Settles;
    Earlier(log, e);
  }

  lemma ListedAlready(log: seq<Recorded>, s: Register, at: seq<nat>, e: Recorded)
    requires ListedAt(log, s, at)
    ensures ListedAt(log + [e], s, at)
  {
    hide FirstNaming;
    forall a | 0 <= a < |at| ensures FirstNaming(log + [e], s.order[a], at[a]) {
      NamedFirst(log, e, s.order[a], at[a]);
    }
  }

  lemma {:induction false} FoldListed(log: seq<Recorded>) returns (at: seq<nat>)
    ensures ListedAt(log, Fold(Reduce, EMPTY, log), at)
  {
    if log == [] {
      at := [];
    } else {
      var n := |log| - 1;
      var front, e := log[..n], log[n];
      var s := Fold(Reduce, EMPTY, front);
      at := FoldListed(front);
      assert log == front + [e];
      if EffectOf(e).Nothing? {
        forall a | 0 <= a < |at| ensures FirstNaming(log, s.order[a], at[a]) {
          NamedFirst(front, e, s.order[a], at[a]);
        }
      } else {
        var id := EffectOf(e).decisionId;
        EffectIs(e, id);
        RowsAreIndependent(EMPTY, front, id);
        FoldSays(front, id);
        at := ListedStep(front, s, at, e, id);
      }
    }
  }

  /** MAIN: the register lists its decisions in the order in which the replayed events first named them,
      each once. */
  lemma RowsAreListedAsNamed(log: seq<Recorded>, asOf: int)
    ensures exists at: seq<nat> :: ListedAt(Replay(log, 0, asOf), Full(DECISIONS, log, asOf), at)
  {
    var at := FoldListed(Replay(log, 0, asOf));
    assert ListedAt(Replay(log, 0, asOf), Full(DECISIONS, log, asOf), at);
  }
}
