/**
 The build-phase reset: a dry run that counts what would go, and a transaction that removes it.

 Both are written over the event types present in the store.  A list of types spliced into SQL is never
 empty: with nothing to delete it becomes the one-element list holding the empty string, and this is
 modelled, because it decides what a second run does.
 */
module ResetEventStore {
  import opened Wrappers

  /** A JSON value as the queries compare it. */
  datatype Elem = Null | Text(text: string) | Other

  /** `ref` and `list` are the payload fields that cascade types name; `approval` marks the approved
      Decision of this reset. */
  datatype Event = Event(id: string, kind: string, production: bool, ref: Elem, list: seq<Elem>, approval: bool)

  datatype Cascade = Scalar | Array

  datatype Config = Config(prefixes: seq<string>, exact: seq<string>, keep: set<string>, cascades: map<string, Cascade>)

  datatype Class = Delete | Cascading | Keep

  function Classify(c: Config, kind: string): Class {
    if kind in c.keep then Keep
    else if kind in c.cascades then Cascading
    else if kind in c.exact then Delete
    else if exists i | 0 <= i < |c.prefixes| :: c.prefixes[i] <= kind then Delete
    else Keep
  }

  // ---------------------------------------------------------------- queries

  /** The distinct types of the store. */
  function Present(events: seq<Event>): (kinds: seq<string>)
  {
    if events == [] then []
    else
      var before, k := Present(events[..|events| - 1]), events[|events| - 1].kind;
      if k in before then before else before + [k]
  }

  function OfClass(c: Config, kinds: seq<string>, class_: Class): seq<string> {
    if kinds == [] then []
    else
      var k := kinds[|kinds| - 1];
      OfClass(c, kinds[..|kinds| - 1], class_) + (if Classify(c, k) == class_ then [k] else [])
  }

  function DeleteTypes(c: Config, events: seq<Event>): seq<string> {
    OfClass(c, Present(events), Delete)
  }

  function CascadeTypes(c: Config, events: seq<Event>): seq<string> {
    OfClass(c, Present(events), Cascading)
  }

  /** The SQL list: an empty one is written `''`. */
  function InList(kinds: seq<string>): seq<string> {
    if kinds == [] then [""] else kinds
  }

  /** A scalar reference is in the list; or no element of the array is outside it.  A JSON null is neither
      in nor outside any list, so an array without text passes. */
  predicate Refers(cascade: Cascade, e: Event, list: seq<string>) {
    match cascade
    case Scalar => e.ref.Text? && e.ref.text in list
    case Array => forall x <- e.list :: x.Null? || (x.Text? && x.text in list)
  }

  function CountKinds(events: seq<Event>, kinds: seq<string>): nat {
    if events == [] then 0 else (if events[0].kind in kinds then 1 else 0) + CountKinds(events[1..], kinds)
  }

  predicate Follows(e: Event, kind: string, cascade: Cascade, list: seq<string>) {
    e.kind == kind && Refers(cascade, e, list)
  }

  function CountCascade(events: seq<Event>, kind: string, cascade: Cascade, list: seq<string>): nat {
    if events == [] then 0
    else (if Follows(events[0], kind, cascade, list) then 1 else 0) + CountCascade(events[1..], kind, cascade, list)
  }

  function WithoutKinds(events: seq<Event>, kinds: seq<string>): seq<Event> {
    if events == [] then []
    else (if events[0].kind in kinds then [] else [events[0]]) + WithoutKinds(events[1..], kinds)
  }

  function WithoutCascade(events: seq<Event>, kind: string, cascade: Cascade, list: seq<string>): seq<Event> {
    if events == [] then []
    else
      (if Follows(events[0], kind, cascade, list) then [] else [events[0]]) +
      WithoutCascade(events[1..], kind, cascade, list)
  }

  predicate ProductionInScope(c: Config, events: seq<Event>) {
    exists i | 0 <= i < |events| :: events[i].production && events[i].kind in InList(DeleteTypes(c, events))
  }

  // ---------------------------------------------------------------- what each half computes

  function CascadeOf(c: Config, kind: string): Cascade {
    if kind in c.cascades then c.cascades[kind] else Scalar
  }

  function CascadeCount(c: Config, events: seq<Event>, kinds: seq<string>, list: seq<string>): nat {
    if kinds == [] then 0
    else
      var k := kinds[|kinds| - 1];
      CascadeCount(c, events, kinds[..|kinds| - 1], list) + CountCascade(events, k, CascadeOf(c, k), list)
  }

  /** The dry run counts direct deletions by their own list, which may be empty. */
  function Predicted(c: Config, events: seq<Event>): nat {
    CountKinds(events, DeleteTypes(c, events)) +
    CascadeCount(c, events, CascadeTypes(c, events), InList(DeleteTypes(c, events)))
  }

  function WithoutCascades(c: Config, events: seq<Event>, kinds: seq<string>, list: seq<string>): seq<Event> {
    if kinds == [] then events
    else
      var k := kinds[|kinds| - 1];
      WithoutCascade(WithoutCascades(c, events, kinds[..|kinds| - 1], list), k, CascadeOf(c, k), list)
  }

  /** The transaction, with the lists computed before it began. */
  function Wiped(c: Config, events: seq<Event>): seq<Event> {
    var list := InList(DeleteTypes(c, events));
    WithoutCascades(c, WithoutKinds(events, list), CascadeTypes(c, events), list)
  }

  predicate HasApproval(events: seq<Event>) {
    exists i | 0 <= i < |events| :: events[i].kind == "Decision" && events[i].approval
  }

  function DecisionEvent(id: string): Event {
    Event(id, "Decision", true, Null, [], true)
  }

  function Recorded(events: seq<Event>, id: string): seq<Event> {
    if HasApproval(events) then events else events + [DecisionEvent(id)]
  }

  // ---------------------------------------------------------------- the script

  class Store {
    var events: seq<Event>
    var snapshots: nat
    var claims: seq<string>
    var partitions: nat

    constructor (events: seq<Event>, snapshots: nat, claims: seq<string>, partitions: nat)
      ensures this.events == events && this.snapshots == snapshots
      ensures this.claims == claims && this.partitions == partitions
    {
      this.events, this.snapshots, this.claims, this.partitions := events, snapshots, claims, partitions;
    }

    /** The inventory loop. */
    method Inventory(c: Config) returns (deletes: seq<string>, cascades: seq<string>)
      ensures deletes == DeleteTypes(c, events) && cascades == CascadeTypes(c, events)
    {
      var kinds := Present(events);
      deletes, cascades := [], [];
      for i := 0 to |kinds|
        invariant deletes == OfClass(c, kinds[..i], Delete) && cascades == OfClass(c, kinds[..i], Cascading)
      {
        assert kinds[..i + 1][..i] == kinds[..i];
        match Classify(c, kinds[i]) {
          case Delete => deletes := deletes + [kinds[i]];
          case Cascading => cascades := cascades + [kinds[i]];
          case Keep =>
        }
      }
      assert kinds[..|kinds|] == kinds;
    }

    method DryRun(c: Config) returns (total: nat)
      ensures total == Predicted(c, events)
    {
      var deletes, cascades := Inventory(c);
      var list := InList(deletes);
      var cascaded := 0;
      for i := 0 to |cascades|
        invariant cascaded == CascadeCount(c, events, cascades[..i], list)
      {
        assert cascades[..i + 1][..i] == cascades[..i];
        cascaded := cascaded + CountCascade(events, cascades[i], CascadeOf(c, cascades[i]), list);
      }
      assert cascades[..|cascades|] == cascades;
      total := CountKinds(events, deletes) + cascaded;
    }

    /** Refuses when a production event is of a type to be deleted. */
    method Emit(c: Config, decisionId: string) returns (done: bool)
      modifies this
      ensures done <==> !ProductionInScope(c, old(events))
      ensures !done ==> events == old(events) && snapshots == old(snapshots) && claims == old(claims) &&
                        partitions == old(partitions)
      ensures done ==> events == Recorded(Wiped(c, old(events)), decisionId)
      ensures done ==> snapshots == 0 && partitions == 0
      ensures done ==> claims == Pointing(old(claims), Wiped(c, old(events)))
    {
      var deletes, cascades := Inventory(c);
      var list := InList(deletes);
      if exists i | 0 <= i < |events| :: events[i].production && events[i].kind in list {
        return false;
      }
      ghost var before := events;
      events := WithoutKinds(events, list);
      ghost var direct := events;
      for i := 0 to |cascades|
        invariant events == WithoutCascades(c, direct, cascades[..i], list)
        invariant snapshots == old(snapshots) && partitions == old(partitions) && claims == old(claims)
      {
        assert cascades[..i + 1][..i] == cascades[..i];
        events := WithoutCascade(events, cascades[i], CascadeOf(c, cascades[i]), list);
      }
      assert cascades[..|cascades|] == cascades;
      snapshots := 0;
      claims := Pointing(claims, events);
      partitions := 0;
      if !HasApproval(events) {
        events := events + [DecisionEvent(decisionId)];
      }
      done := true;
    }
  }

  /** The claims whose event is still there. */
  function Pointing(claims: seq<string>, events: seq<Event>): seq<string> {
    if claims == [] then []
    else
      var last := claims[|claims| - 1];
      Pointing(claims[..|claims| - 1], events) +
      (if exists i | 0 <= i < |events| :: events[i].id == last then [last] else [])
  }

  // ---------------------------------------------------------------- which events go

  /** One pass of the transaction, seen from one event. */
  predicate Doomed(c: Config, list: seq<string>, e: Event) {
    e.kind in list || (Classify(c, e.kind) == Cascading && Refers(CascadeOf(c, e.kind), e, list))
  }

  function Surviving(c: Config, list: seq<string>, events: seq<Event>): seq<Event> {
    if events == [] then []
    else (if Doomed(c, list, events[0]) then [] else [events[0]]) + Surviving(c, list, events[1..])
  }

  lemma {:induction false} PresentMeans(events: seq<Event>, kind: string)
    ensures kind in Present(events) <==> exists e :: e in events && e.kind == kind
    ensures forall i, j | 0 <= i < j < |Present(events)| :: Present(events)[i] != Present(events)[j]
  {
    if events != [] {
      PresentMeans(events[..|events| - 1], kind);
      assert forall e :: e in events <==> e in events[..|events| - 1] || e == events[|events| - 1];
    }
  }

  lemma {:induction false} OfClassMeans(c: Config, kinds: seq<string>, class_: Class, kind: string)
    requires forall i, j | 0 <= i < j < |kinds| :: kinds[i] != kinds[j]
    ensures kind in OfClass(c, kinds, class_) <==> kind in kinds && Classify(c, kind) == class_
    ensures var o := OfClass(c, kinds, class_); forall i, j | 0 <= i < j < |o| :: o[i] != o[j]
    ensures forall x <- OfClass(c, kinds, class_) :: x in kinds
  {
    hide Classify;
    if kinds != [] {
      var n := |kinds| - 1;
      OfClassMeans(c, kinds[..n], class_, kind);
      assert forall x :: x in kinds <==> x in kinds[..n] || x == kinds[n];
      assert kinds[n] !in kinds[..n];
    }
  }

  /** The types of a class present in the store, each once. */
  lemma TypesOfClass(c: Config, events: seq<Event>, class_: Class, kind: string)
    ensures var kinds := OfClass(c, Present(events), class_);
            && (kind in kinds <==> Classify(c, kind) == class_ && exists e :: e in events && e.kind == kind)
            && (forall i, j | 0 <= i < j < |kinds| :: kinds[i] != kinds[j])
  {
    PresentMeans(events, kind);
    OfClassMeans(c, Present(events), class_, kind);
  }

  lemma {:induction false} CascadesAsFilter(c: Config, events: seq<Event>, kinds: seq<string>, list: seq<string>,
                                            e: Event)
    ensures WithoutCascades(c, [e] + events, kinds, list) ==
            (if exists k :: k in kinds && Follows(e, k, CascadeOf(c, k), list) then [] else [e]) +
            WithoutCascades(c, events, kinds, list)
  {
    hide Follows, CascadeOf;
    if kinds == [] {
    } else {
      var n := |kinds| - 1;
      CascadesAsFilter(c, events, kinds[..n], list, e);
      assert forall x :: x in kinds <==> x in kinds[..n] || x == kinds[n];
      var rest := WithoutCascades(c, events, kinds[..n], list);
      if exists k :: k in kinds[..n] && Follows(e, k, CascadeOf(c, k), list) {
        assert [] + rest == rest;
      } else {
        assert ([e] + rest)[1..] == rest;
        assert [] + WithoutCascade(rest, kinds[n], CascadeOf(c, kinds[n]), list) ==
               WithoutCascade(rest, kinds[n], CascadeOf(c, kinds[n]), list);
      }
    }
  }

  lemma {:induction false} NothingWithoutCascades(c: Config, kinds: seq<string>, list: seq<string>)
    ensures WithoutCascades(c, [], kinds, list) == []
  {
    if kinds != [] {
      NothingWithoutCascades(c, kinds[..|kinds| - 1], list);
    }
  }

  /** The deletions, one statement after another, remove exactly the doomed events. */
  lemma {:induction false} DeletionsAsFilter(c: Config, events: seq<Event>, cascades: seq<string>, list: seq<string>)
    requires forall e <- events :: e.kind in cascades <==> Classify(c, e.kind) == Cascading
    ensures WithoutCascades(c, WithoutKinds(events, list), cascades, list) == Surviving(c, list, events)
  {
    hide Classify, Refers, CascadeOf, WithoutCascades;
    if events == [] {
      NothingWithoutCascades(c, cascades, list);
    } else {
      var e, rest := events[0], events[1..];
      assert e in events && forall x <- rest :: x in events;
      DeletionsAsFilter(c, rest, cascades, list);
      if e.kind in list {
        assert WithoutKinds(events, list) == WithoutKinds(rest, list);
      } else {
        assert WithoutKinds(events, list) == [e] + WithoutKinds(rest, list);
        CascadesAsFilter(c, WithoutKinds(rest, list), cascades, list, e);
        if Classify(c, e.kind) == Cascading && Refers(CascadeOf(c, e.kind), e, list) {
          assert Follows(e, e.kind, CascadeOf(c, e.kind), list);
        }
      }
    }
  }

  /** The transaction keeps exactly the events that are not doomed, in order. */
  lemma WipedIsSurviving(c: Config, events: seq<Event>)
    ensures Wiped(c, events) == Surviving(c, InList(DeleteTypes(c, events)), events)
  {
    hide Classify;
    forall e | e in events ensures e.kind in CascadeTypes(c, events) <==> Classify(c, e.kind) == Cascading {
      TypesOfClass(c, events, Cascading, e.kind);
    }
    DeletionsAsFilter(c, events, CascadeTypes(c, events), InList(DeleteTypes(c, events)));
  }

  // ---------------------------------------------------------------- the dry run tells the truth

  lemma {:induction false} CascadeCountOfOne(c: Config, e: Event, events: seq<Event>, kinds: seq<string>,
                                             list: seq<string>)
    requires forall i, j | 0 <= i < j < |kinds| :: kinds[i] != kinds[j]
    ensures CascadeCount(c, [e] + events, kinds, list) ==
            CascadeCount(c, events, kinds, list) +
            if e.kind in kinds && Refers(CascadeOf(c, e.kind), e, list) then 1 else 0
  {
    hide Refers, CascadeOf;
    if kinds != [] {
      var n := |kinds| - 1;
      CascadeCountOfOne(c, e, events, kinds[..n], list);
      assert ([e] + events)[1..] == events;
      assert forall x :: x in kinds <==> x in kinds[..n] || x == kinds[n];
      assert kinds[n] !in kinds[..n];
    }
  }

  lemma {:induction false} NothingToCascade(c: Config, kinds: seq<string>, list: seq<string>)
    ensures CascadeCount(c, [], kinds, list) == 0
  {
    if kinds != [] {
      NothingToCascade(c, kinds[..|kinds| - 1], list);
    }
  }

  lemma {:induction false} RemovedCount(c: Config, events: seq<Event>, cascades: seq<string>, list: seq<string>)
    requires forall e <- events :: e.kind in cascades <==> Classify(c, e.kind) == Cascading
    requires forall i, j | 0 <= i < j < |cascades| :: cascades[i] != cascades[j]
    requires forall k <- list :: Classify(c, k) != Cascading
    ensures |events| - |Surviving(c, list, events)| ==
            CountKinds(events, list) + CascadeCount(c, events, cascades, list)
  {
    hide Classify, Refers, CascadeOf, CascadeCount;
    if events == [] {
      NothingToCascade(c, cascades, list);
    } else {
      var e, rest := events[0], events[1..];
      assert e in events && forall x <- rest :: x in events;
      RemovedCount(c, rest, cascades, list);
      CascadeCountOfOne(c, e, rest, cascades, list);
      assert events == [e] + rest;
    }
  }

  /** The empty type and the Decision type are kept types. */
  predicate Sane(c: Config) {
    Classify(c, "") == Keep && Classify(c, "Decision") == Keep
  }

  lemma ListClasses(c: Config, events: seq<Event>, kind: string)
    requires Sane(c)
    ensures kind in InList(DeleteTypes(c, events)) ==>
              Classify(c, kind) == Delete || (kind == "" && DeleteTypes(c, events) == [] && Classify(c, kind) == Keep)
  {
    TypesOfClass(c, events, Delete, kind);
  }

  /** The transaction removes what the dry run counted, plus the events of empty type when no type is to be
      deleted; so the two agree exactly when a type is to be deleted or no event has an empty type. */
  lemma DryRunIsExact(c: Config, events: seq<Event>)
    requires Sane(c)
    ensures var untyped := if DeleteTypes(c, events) == [] then CountKinds(events, [""]) else 0;
            |events| - |Wiped(c, events)| == Predicted(c, events) + untyped
  {
    hide Classify;
    var deletes, cascades := DeleteTypes(c, events), CascadeTypes(c, events);
    forall e | e in events ensures e.kind in cascades <==> Classify(c, e.kind) == Cascading {
      TypesOfClass(c, events, Cascading, e.kind);
    }
    TypesOfClass(c, events, Cascading, "");
    forall k | k in InList(deletes) ensures Classify(c, k) != Cascading {
      ListClasses(c, events, k);
    }
    RemovedCount(c, events, cascades, InList(deletes));
    WipedIsSurviving(c, events);
    NoKinds(events);
  }

  lemma {:induction false} NoKinds(events: seq<Event>)
    ensures CountKinds(events, []) == 0
  {
    if events != [] {
      NoKinds(events[1..]);
    }
  }

  /** What is left in the table: the survivors, and the Decision if it was not already approved. */
  lemma RemainingCount(c: Config, events: seq<Event>, id: string)
    requires Sane(c) && (DeleteTypes(c, events) != [] || CountKinds(events, [""]) == 0)
    ensures |Recorded(Wiped(c, events), id)| ==
            |events| - Predicted(c, events) + if HasApproval(Wiped(c, events)) then 0 else 1
  {
    hide Classify;
    DryRunIsExact(c, events);
  }

  // ---------------------------------------------------------------- what is never removed

  lemma {:induction false} SurvivingMeans(c: Config, list: seq<string>, events: seq<Event>, e: Event)
    ensures e in Surviving(c, list, events) <==> e in events && !Doomed(c, list, e)
  {
    hide Doomed;
    if events != [] {
      SurvivingMeans(c, list, events[1..], e);
      assert e in events <==> e == events[0] || e in events[1..];
    }
  }

  /** No event of a kept type is removed, save untyped ones when no type is to be deleted. */
  lemma KeptTypesSurvive(c: Config, events: seq<Event>, e: Event)
    requires Sane(c) && e in events && Classify(c, e.kind) == Keep
    requires e.kind != "" || DeleteTypes(c, events) != []
    ensures e in Wiped(c, events)
  {
    ListClasses(c, events, e.kind);
    hide Classify;
    WipedIsSurviving(c, events);
    SurvivingMeans(c, InList(DeleteTypes(c, events)), events, e);
  }

  /** A record of a describing type whose reference is to the types being deleted. */
  predicate DescribesDeleted(c: Config, events: seq<Event>, e: Event) {
    Classify(c, e.kind) == Cascading && Refers(CascadeOf(c, e.kind), e, InList(DeleteTypes(c, events)))
  }

  /** When the transaction is allowed to run, the production events it removes are exactly the records that
      describe deleted types. */
  lemma ProductionRemovedOnlyByCascade(c: Config, events: seq<Event>, e: Event)
    requires !ProductionInScope(c, events) && e in events && e.production
    ensures e !in Wiped(c, events) <==> DescribesDeleted(c, events, e)
  {
    hide Classify, Refers;
    WipedIsSurviving(c, events);
    SurvivingMeans(c, InList(DeleteTypes(c, events)), events, e);
    var i :| 0 <= i < |events| && events[i] == e;
  }

  /** A run that is not refused spares every production event exactly when no production record describes a
      deleted type; the script's own check does not look for one. */
  lemma ProductionSparedExactlyWhen(c: Config, events: seq<Event>)
    requires !ProductionInScope(c, events)
    ensures (forall e <- events :: e.production ==> e in Wiped(c, events)) <==>
            forall e <- events :: e.production ==> !DescribesDeleted(c, events, e)
  {
    hide Wiped, DescribesDeleted, ProductionInScope;
    forall e | e in events && e.production ensures e !in Wiped(c, events) <==> DescribesDeleted(c, events, e) {
      ProductionRemovedOnlyByCascade(c, events, e);
    }
  }

  /** Every claim left points at an event left, and no claim to a surviving event is lost. */
  lemma {:induction false} ClaimsPointAtSurvivors(claims: seq<string>, events: seq<Event>, claim: string)
    ensures claim in Pointing(claims, events) <==>
            claim in claims && exists i :: 0 <= i < |events| && events[i].id == claim
  {
    if claims != [] {
      ClaimsPointAtSurvivors(claims[..|claims| - 1], events, claim);
      assert claim in claims <==> claim in claims[..|claims| - 1] || claim == claims[|claims| - 1];
    }
  }

  // ---------------------------------------------------------------- running it again

  /** A record that refers to the empty type only. */
  predicate RefersToNothing(c: Config, e: Event) {
    Classify(c, e.kind) == Cascading && Refers(CascadeOf(c, e.kind), e, [""])
  }

  lemma OnlyEmpty(kinds: seq<string>)
    ensures (forall k :: k !in kinds) ==> kinds == []
  {
    if kinds != [] {
      assert kinds[0] in kinds;
    }
  }

  lemma NoTypesLeft(c: Config, events: seq<Event>, id: string)
    requires Sane(c)
    ensures DeleteTypes(c, Recorded(Wiped(c, events), id)) == []
  {
    hide Classify;
    var after := Recorded(Wiped(c, events), id);
    var list := InList(DeleteTypes(c, events));
    WipedIsSurviving(c, events);
    forall kind ensures kind !in DeleteTypes(c, after) {
      TypesOfClass(c, after, Delete, kind);
      if kind in DeleteTypes(c, after) {
        var e :| e in after && e.kind == kind;
        if e in Wiped(c, events) {
          SurvivingMeans(c, list, events, e);
          TypesOfClass(c, events, Delete, kind);
        }
      }
    }
    OnlyEmpty(DeleteTypes(c, after));
  }

  lemma {:induction false} AllSurvive(c: Config, list: seq<string>, events: seq<Event>)
    ensures Surviving(c, list, events) == events <==> forall e <- events :: !Doomed(c, list, e)
    ensures |Surviving(c, list, events)| <= |events|
  {
    hide Doomed;
    if events != [] {
      AllSurvive(c, list, events[1..]);
      assert forall e :: e in events <==> e == events[0] || e in events[1..];
      if Doomed(c, list, events[0]) {
        assert |Surviving(c, list, events)| < |events|;
      } else {
        assert Surviving(c, list, events) == events <==> Surviving(c, list, events[1..]) == events[1..] by {
          assert events == [events[0]] + events[1..];
          assert ([events[0]] + Surviving(c, list, events[1..]))[1..] == Surviving(c, list, events[1..]);
        }
      }
    }
  }

  /** A second run removes nothing exactly when no event left has an empty type or is a describing record
      that refers to the empty type only. */
  lemma SecondRunIsSilent(c: Config, events: seq<Event>, id: string)
    requires Sane(c)
    ensures var after := Recorded(Wiped(c, events), id);
            Wiped(c, after) == after <==> forall e <- after :: e.kind != "" && !RefersToNothing(c, e)
  {
    var after := Recorded(Wiped(c, events), id);
    NoTypesLeft(c, events, id);
    WipedIsSurviving(c, after);
    AllSurvive(c, [""], after);
    hide Classify, Refers;
  }

  /** A record whose reference is the empty string outlives the first run and not the second. */
  lemma EmptyReferenceGoesOnSecondRun(c: Config, x: Event, r: Event, id: string)
    requires Sane(c) && Classify(c, x.kind) == Delete
    requires Classify(c, r.kind) == Cascading && CascadeOf(c, r.kind) == Scalar && r.ref == Text("")
    ensures var after := Recorded(Wiped(c, [x, r]), id);
            r in after && r !in Wiped(c, after)
  {
    var events := [x, r];
    var after := Recorded(Wiped(c, events), id);
    TypesOfClass(c, events, Delete, x.kind);
    TypesOfClass(c, events, Delete, "");
    TypesOfClass(c, events, Delete, r.kind);
    assert x in events && r in events;
    WipedIsSurviving(c, events);
    SurvivingMeans(c, InList(DeleteTypes(c, events)), events, r);
    NoTypesLeft(c, events, id);
    WipedIsSurviving(c, after);
    SurvivingMeans(c, [""], after, r);
  }

  /** A production record that describes a deleted type is removed, although the script refuses to touch
      production events of the deleted types themselves. */
  lemma ProductionRecordIsRemoved(c: Config, x: Event, r: Event)
    requires Sane(c) && Classify(c, x.kind) == Delete && !x.production
    requires Classify(c, r.kind) == Cascading && CascadeOf(c, r.kind) == Scalar
    requires r.ref == Text(x.kind) && r.production
    ensures !ProductionInScope(c, [x, r]) && r !in Wiped(c, [x, r])
  {
    var events := [x, r];
    assert x in events && r in events;
    TypesOfClass(c, events, Delete, x.kind);
    ListClasses(c, events, r.kind);
    hide Classify;
    WipedIsSurviving(c, events);
    SurvivingMeans(c, InList(DeleteTypes(c, events)), events, r);
  }

  // ---------------------------------------------------------------- the scope the script ships with

  const SHIPPED_PREFIXES: seq<string> := [
    "Fx", "Equity", "Bond", "Repo", "Ird", "Irs", "Order", "GatewayCheck", "SwitchTest", "Rfq", "Quote",
    "Deposit", "InterbankLoan", "Funding", "Credit", "Client", "KYC", "Edd", "Odp", "BestExecution", "PnL"]

  const TRADE_TYPES: seq<string> := [
    "SettlementConfirmed", "PrincipalPayment", "TradeMatured", "TradeExecuted", "TradeBooked", "TradePosted",
    "TradeCancelled", "TradeAmended", "TransactionPosted", "TradeUtiAllocated", "TradeReportSubmitted",
    "MtmRunCompleted"]

  const POSTING_TYPES: seq<string> := [
    "SubLedgerPostingEmitted", "SubLedgerPostingRemediationRecorded", "ManualJournalEntry",
    "JournalEntryPosted", "AccrualBooked", "LoanBooked", "AccountingPeriodOpened", "AccountingPeriodClosed",
    "PeriodClosed", "TrialBalanceSnapshotted", "BalanceSheetSubstantiationCompleted", "BalanceSheetProjected",
    "BAReturnGenerationTriggered", "SarbSubmissionAttempted", "BankAccountOpened", "BankAccountConfigured",
    "BankAccountClosed"]

  const VALUATION_TYPES: seq<string> := [
    "ValuationAdjustmentComputed", "PrudentValuationAvaAggregated", "Day1PnLDeferralRecorded",
    "RealisedPnlRecognised", "IpvExceptionRaised", "IfrsClassificationApplied", "DailyPnLReportGenerated",
    "FinancialPositionSnapshot", "PositionAdjusted", "CollateralUpdated", "CollateralInventorySnapshotted",
    "CollateralInventorySnapshot", "FXPositionBreach", "HedgeIneffective"]

  const RISK_TYPES: seq<string> := [
    "LCRComputed", "NSFRComputed", "LCRRatioProjection", "NSFRRatioProjection", "ALMRunCompleted",
    "IRRBBChecked", "IRRBBExcursion", "IntradayHQLAStressProjection", "ILAAPScenarioRun",
    "ILAAPSummaryCompleted", "ALCOPackGenerated", "CounterpartyExposureCalculated",
    "CcrReplacementCostComputed", "CcrEadComputed", "LexUtilisationComputed", "LexExceptionApproved",
    "RiskRunCompleted", "LiquiditySnapshot", "HQLACompositionDrift", "NostroFundingShortfall",
    "IcaapIlaapInputReady"]

  const CONDUCT_TYPES: seq<string> := [
    "InboundMessageReceived", "CalculationPerformed", "ConductObligationFlagged",
    "FaisClassificationSuitabilityChecked", "CounterpartyFaisClassified", "CounterpartyCategorised",
    "CounterpartyDeclined", "FatcaCrsClassified", "PopiaConsentRecorded", "LawfulProcessingRegistered",
    "PEPScreeningCompleted", "SanctionsClearancePassed", "RiskRatingAssigned", "BeneficialOwnerResolved",
    "BeneficialOwnerChainAsserted", "PartyClassified", "PartyRelationshipAsserted", "PartyRelationshipChanged",
    "PartyRelationshipRevoked", "PartyDeactivated", "ISDACSAAssessmentCompleted", "CrcLimitExceptionApproved",
    "SubInvestmentGradeCounterpartyApproved"]

  const SHIPPED_EXACT: seq<string> := TRADE_TYPES + POSTING_TYPES + VALUATION_TYPES + RISK_TYPES + CONDUCT_TYPES

  const SHIPPED: Config :=
    Config(SHIPPED_PREFIXES, SHIPPED_EXACT, {"PartyRegistered"},
           map["ProvenanceReclassified" := Scalar, "EntityReclassified" := Scalar, "BusDispatched" := Scalar,
               "LegacyFanoutShadowed" := Array])

  /** No prefix is empty or begins the word Decision. */
  lemma PrefixesSpareDecisions(i: nat)
    requires i < |SHIPPED_PREFIXES|
    ensures !(SHIPPED_PREFIXES[i] <= "") && !(SHIPPED_PREFIXES[i] <= "Decision")
  {
    var p := SHIPPED_PREFIXES[i];
    assert |p| > 0;
    assert p[0] != 'D' || p[2] != 'c';
  }

  predicate AllLong(kinds: seq<string>) {
    forall i | 0 <= i < |kinds| :: |kinds[i]| > 8
  }

  lemma TradingTypesAreLong()
    ensures AllLong(TRADE_TYPES) && AllLong(POSTING_TYPES) && AllLong(VALUATION_TYPES)
  {}

  lemma RiskTypesAreLong()
    ensures AllLong(RISK_TYPES)
  {}

  lemma ConductTypesAreLong()
    ensures AllLong(CONDUCT_TYPES)
  {}

  lemma ExactSparesDecisions()
    ensures "Decision" !in SHIPPED_EXACT && "" !in SHIPPED_EXACT
  {
    TradingTypesAreLong();
    RiskTypesAreLong();
    ConductTypesAreLong();
    assert AllLong(SHIPPED_EXACT);
  }

  lemma NoPrefixReaches()
    ensures forall i | 0 <= i < |SHIPPED_PREFIXES| ::
              !(SHIPPED_PREFIXES[i] <= "") && !(SHIPPED_PREFIXES[i] <= "Decision")
  {
    forall i | 0 <= i < |SHIPPED_PREFIXES|
      ensures !(SHIPPED_PREFIXES[i] <= "") && !(SHIPPED_PREFIXES[i] <= "Decision")
    {
      PrefixesSpareDecisions(i);
    }
  }

  lemma KeptByDefault(c: Config, kind: string)
    requires kind !in c.cascades && kind !in c.exact
    requires forall i | 0 <= i < |c.prefixes| :: !(c.prefixes[i] <= kind)
    ensures Classify(c, kind) == Keep
  {}

  lemma CascadesSpareDecisions()
    ensures "Decision" !in SHIPPED.cascades && "" !in SHIPPED.cascades
  {
    assert |"Decision"| == 8 && |""| == 0;
  }

  /** The theorems above apply to the shipped scope. */
  lemma ShippedIsSane()
    ensures Sane(SHIPPED)
  {
    hide Classify;
    NoPrefixReaches();
    ExactSparesDecisions();
    CascadesSpareDecisions();
    KeptByDefault(SHIPPED, "");
    KeptByDefault(SHIPPED, "Decision");
  }
}
