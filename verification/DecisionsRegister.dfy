/**
 The decisions register: the one projection the dashboard reads through snapshots.

 Three event types write it.  A request fills the request side of a row and keeps any resolution; a
 resolution replaces the row's resolution unless the row already holds a later one, in which case the
 row is only marked superseded.
 */
module DecisionsRegister {
  import opened Wrappers
  import opened SnapshotReplay

  datatype Action = Approve | Defer | Modify | RequestRevision

  datatype Status = Open | Resolved | RevisionRequested | Superseded

  /** The request-side fields of a row other than its title, pin and time. */
  datatype Brief = Brief(category: string, owner: (string, string), forActor: string, decisionForActor: string,
                         recommendation: (string, string), sourceDocumentHashes: seq<string>,
                         decisionCitations: seq<string>, options: Option<seq<string>>, deadline: Option<string>)

  datatype Request = Request(requestEventId: string, title: string, brief: Brief, requestedAt: int)

  datatype Resolution = Resolution(eventId: string, action: Action, outcome: string, comment: Option<string>,
                                   recordedVia: string, resolvedAt: int, actorId: string)

  datatype Row = Row(request: Request, status: Status, resolution: Option<Resolution>)

  /** Rows in the order their keys were first set. */
  datatype Register = Register(order: seq<string>, rows: map<string, Row>)

  datatype Payload =
    | DecisionRequested(decisionId: string, title: string, brief: Brief)
    | CeoDecision(decisionId: string, action: Option<string>, stubTitle: Option<string>, outcome: Option<string>,
                  comment: Option<string>, recordedVia: Option<string>)
    | Decision(decisionId: string, phase: string, stubTitle: Option<string>, text: Option<string>,
               rationale: Option<string>, recordedVia: Option<string>, sourceDocHashes: seq<string>,
               citations: seq<string>, deadline: Option<string>)
    | Unrelated

  datatype Event = Event(eventId: string, actorId: string, payload: Payload)

  type Recorded = Entry<Event>

  /** What one event does to the row of its decision. */
  datatype Effect =
    | Opens(decisionId: string, request: Request)
    | Resolves(decisionId: string, stub: Request, resolution: Resolution)
    | Nothing

  const EMPTY := Register([], map[])

  const UNKNOWN_BRIEF := Brief("near-term", ("unknown", "unknown"), "CEO", "", ("", ""), [], [], None, None)

  function OrElse(o: Option<string>, fallback: string): string {
    if o.Some? then o.value else fallback
  }

  function ParseAction(action: string): Option<Action> {
    if action == "approve" then Some(Approve)
    else if action == "defer" then Some(Defer)
    else if action == "modify" then Some(Modify)
    else if action == "request-revision" then Some(RequestRevision)
    else None
  }

  function PhaseAction(phase: string): Action {
    if phase == "deferred" then Defer
    else if phase == "superseded" || phase == "withdrawn" then Modify
    else Approve
  }

  function EffectOf(e: Recorded): Effect {
    var ev, p := e.body, e.body.payload;
    match p
    case DecisionRequested(id, title, brief) =>
      if id == "" then Nothing else Opens(id, Request(ev.eventId, title, brief, e.asOf))
    case CeoDecision(id, action, title, outcome, comment, via) =>
      var parsed := ParseAction(OrElse(action, "approve"));
      if id == "" || parsed.None? then Nothing
      else Resolves(id, Request("", OrElse(title, id), UNKNOWN_BRIEF, e.asOf),
                    Resolution(ev.eventId, parsed.value, OrElse(outcome, ""), comment, OrElse(via, "unknown"), e.asOf,
                               ev.actorId))
    case Decision(id, phase, title, text, rationale, via, hashes, citations, deadline) =>
      if id == "" then Nothing
      else if phase == "requested" then
        Opens(id, Request(ev.eventId, OrElse(title, id),
                          UNKNOWN_BRIEF.(sourceDocumentHashes := hashes, decisionCitations := citations,
                                         deadline := deadline), e.asOf))
      else
        Resolves(id, Request("", OrElse(title, id), UNKNOWN_BRIEF, e.asOf),
                 Resolution(ev.eventId, PhaseAction(phase), OrElse(text, ""), rationale, OrElse(via, "unknown"),
                            e.asOf, ev.actorId))
    case Unrelated => Nothing
  }

  function StatusOf(action: Action): Status {
    if action == RequestRevision then RevisionRequested else Resolved
  }

  function OpenRow(row: Option<Row>, request: Request): Row {
    match row
    case None => Row(request, Open, None)
    case Some(r) => r.(request := request)
  }

  function ResolveRow(row: Option<Row>, stub: Request, resolution: Resolution): Row {
    if row.Some? && row.value.resolution.Some? && row.value.resolution.value.resolvedAt > resolution.resolvedAt then
      row.value.(status := Superseded)
    else
      Row(if row.Some? then row.value.request else stub, StatusOf(resolution.action), Some(resolution))
  }

  function Lookup(s: Register, id: string): Option<Row> {
    if id in s.rows then Some(s.rows[id]) else None
  }

  function Put(s: Register, id: string, row: Row): Register {
    Register(if id in s.rows then s.order else s.order + [id], s.rows[id := row])
  }

  function Reduce(s: Register, e: Recorded): Register {
    match EffectOf(e)
    case Opens(id, request) => Put(s, id, OpenRow(Lookup(s, id), request))
    case Resolves(id, stub, resolution) => Put(s, id, ResolveRow(Lookup(s, id), stub, resolution))
    case Nothing => s
  }

  const DECISIONS: Projection<Register, Event> := Projection(EMPTY, Reduce)

  // ---- One row at a time ----

  predicate Touches(e: Recorded, id: string) {
    var f := EffectOf(e); !f.Nothing? && f.decisionId == id
  }

  function RowStep(row: Option<Row>, e: Recorded, id: string): Option<Row> {
    if !Touches(e, id) then row
    else match EffectOf(e)
      case Opens(_, request) => Some(OpenRow(row, request))
      case Resolves(_, stub, resolution) => Some(ResolveRow(row, stub, resolution))
  }

  function RowFold(row: Option<Row>, xs: seq<Recorded>, id: string): Option<Row> {
    if xs == [] then row else RowStep(RowFold(row, xs[..|xs| - 1], id), xs[|xs| - 1], id)
  }

  /** The register folds every decision's row independently of all the others. */
  lemma {:induction false} RowsAreIndependent(s: Register, xs: seq<Recorded>, id: string)
    ensures Lookup(Fold(Reduce, s, xs), id) == RowFold(Lookup(s, id), xs, id)
  {
    if xs != [] {
      RowsAreIndependent(s, xs[..|xs| - 1], id);
    }
  }

  function ResolvedAt(row: Option<Row>): Option<int> {
    if row.Some? && row.value.resolution.Some? then Some(row.value.resolution.value.resolvedAt) else None
  }

  predicate NotLater(a: Option<int>, b: Option<int>) {
    a.Some? ==> b.Some? && a.value <= b.value
  }

  /** A row's resolution time never moves back, and a row never disappears. */
  lemma {:induction false} RowFoldAdvances(row: Option<Row>, xs: seq<Recorded>, i: nat, id: string)
    requires i <= |xs|
    ensures NotLater(ResolvedAt(RowFold(row, xs[..i], id)), ResolvedAt(RowFold(row, xs, id)))
    ensures RowFold(row, xs[..i], id).Some? ==> RowFold(row, xs, id).Some?
    decreases |xs| - i
  {
    if i == |xs| {
      assert xs[..i] == xs;
    } else {
      assert xs[..i + 1][..i] == xs[..i];
      RowFoldAdvances(row, xs, i + 1, id);
    }
  }

  predicate SeenOpen(xs: seq<Recorded>, id: string) {
    exists j | 0 <= j < |xs| :: Touches(xs[j], id) && EffectOf(xs[j]).Opens?
  }

  predicate SeenResolve(xs: seq<Recorded>, id: string) {
    exists j | 0 <= j < |xs| :: Touches(xs[j], id) && EffectOf(xs[j]).Resolves?
  }

  /** How the second application of a batch follows the first: `a` is the row part-way through the
      first application, `b` the row at the same point of the second, `final` the row after the first. */
  predicate Follows(a: Option<Row>, b: Option<Row>, final: Row, asked: bool, decided: bool) {
    && b.Some?
    && NotLater(ResolvedAt(a), ResolvedAt(Some(final)))
    && (if asked then a.Some? && a.value.request == b.value.request else b.value.request == final.request)
    && (if !decided then b.value.resolution == final.resolution && b.value.status == final.status
        else
          && a.Some? && a.value.resolution.Some? && b.value.resolution.Some?
          && ResolvedAt(b) == ResolvedAt(Some(final))
          && (a.value.resolution == b.value.resolution || b.value.resolution == final.resolution)
          && (a.value.status == b.value.status ||
              (ResolvedAt(a) != ResolvedAt(Some(final)) && b.value.status == Superseded)))
  }

  lemma FollowsStep(a: Option<Row>, b: Option<Row>, final: Row, asked: bool, decided: bool, e: Recorded, id: string)
    requires Follows(a, b, final, asked, decided)
    requires NotLater(ResolvedAt(RowStep(a, e, id)), ResolvedAt(Some(final)))
    ensures Follows(RowStep(a, e, id), RowStep(b, e, id), final,
                    asked || (Touches(e, id) && EffectOf(e).Opens?),
                    decided || (Touches(e, id) && EffectOf(e).Resolves?))
  {
  }

  lemma {:induction false} FollowsAlong(row: Option<Row>, xs: seq<Recorded>, i: nat, id: string, final: Row)
    requires i <= |xs| && RowFold(row, xs, id) == Some(final)
    ensures Follows(RowFold(row, xs[..i], id), RowFold(Some(final), xs[..i], id), final,
                    SeenOpen(xs[..i], id), SeenResolve(xs[..i], id))
    decreases i
  {
    RowFoldAdvances(row, xs, i, id);
    if i > 0 {
      var front, e := xs[..i - 1], xs[i - 1];
      assert xs[..i] == front + [e] && xs[..i][..i - 1] == front;
      FollowsAlong(row, xs, i - 1, id, final);
      FollowsStep(RowFold(row, front, id), RowFold(Some(final), front, id), final, SeenOpen(front, id),
                  SeenResolve(front, id), e, id);
      SeenExtends(front, e, id);
    }
  }

  lemma SeenExtends(xs: seq<Recorded>, e: Recorded, id: string)
    ensures SeenOpen(xs + [e], id) == (SeenOpen(xs, id) || (Touches(e, id) && EffectOf(e).Opens?))
    ensures SeenResolve(xs + [e], id) == (SeenResolve(xs, id) || (Touches(e, id) && EffectOf(e).Resolves?))
  {
    var ys := xs + [e];
    assert ys[|xs|] == e;
    assert forall j | 0 <= j < |xs| :: ys[j] == xs[j];
  }

  /** MAIN, one row: applying a batch of events again, in order, leaves the row as it was. */
  lemma RowReapplied(row: Option<Row>, xs: seq<Recorded>, id: string)
    ensures RowFold(RowFold(row, xs, id), xs, id) == RowFold(row, xs, id)
  {
    var r := RowFold(row, xs, id);
    if r.Some? {
      FollowsAlong(row, xs, |xs|, id, r.value);
      assert xs[..|xs|] == xs;
    } else {
      NeverOpened(row, xs, id);
    }
  }

  lemma {:induction false} NeverOpened(row: Option<Row>, xs: seq<Recorded>, id: string)
    requires RowFold(row, xs, id).None?
    ensures row.None?
  {
    RowFoldAdvances(row, xs, 0, id);
    assert xs[..0] == [];
  }

  // ---- The whole register ----

  lemma {:induction false} FoldKeepsKeys(s: Register, xs: seq<Recorded>)
    ensures s.rows.Keys <= Fold(Reduce, s, xs).rows.Keys
    ensures forall j | 0 <= j < |xs| && !EffectOf(xs[j]).Nothing? ::
            EffectOf(xs[j]).decisionId in Fold(Reduce, s, xs).rows
  {
    if xs != [] {
      FoldKeepsKeys(s, xs[..|xs| - 1]);
      assert forall j | 0 <= j < |xs| - 1 :: xs[..|xs| - 1][j] == xs[j];
    }
  }

  lemma {:induction false} FoldKeepsOrder(s: Register, xs: seq<Recorded>)
    requires forall j | 0 <= j < |xs| && !EffectOf(xs[j]).Nothing? :: EffectOf(xs[j]).decisionId in s.rows
    ensures Fold(Reduce, s, xs).order == s.order
  {
    if xs != [] {
      var front := xs[..|xs| - 1];
      assert forall j | 0 <= j < |xs| - 1 :: front[j] == xs[j];
      FoldKeepsOrder(s, front);
      FoldKeepsKeys(s, front);
      assert xs[|xs| - 1] == xs[|xs| - 1];
    }
  }

  /** MAIN: the decisions reducer tolerates ordered re-application, from every state and for every
      batch, down to the display order of the rows. */
  lemma DecisionsReapplicable()
    ensures Reapplicable(Reduce)
  {
    forall s: Register, xs: seq<Recorded> ensures Fold(Reduce, Fold(Reduce, s, xs), xs) == Fold(Reduce, s, xs) {
      var once := Fold(Reduce, s, xs);
      var twice := Fold(Reduce, once, xs);
      FoldKeepsKeys(s, xs);
      FoldKeepsOrder(once, xs);
      forall id ensures Lookup(twice, id) == Lookup(once, id) {
        RowsAreIndependent(s, xs, id);
        RowsAreIndependent(once, xs, id);
        RowReapplied(Lookup(s, id), xs, id);
      }
      assert forall id :: id in twice.rows <==> Lookup(twice, id).Some?;
      assert forall id :: id in once.rows <==> Lookup(once, id).Some?;
      assert forall id | id in twice.rows :: Lookup(twice, id) == Some(twice.rows[id]);
      assert forall id | id in once.rows :: Lookup(once, id) == Some(once.rows[id]);
      assert twice.rows == once.rows;
    }
  }
}
