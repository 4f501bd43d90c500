/**
 Which events a reset removes, when it refuses and what it records, by the scope and the events alone.
 */
module ResetMeaning {
  import opened Wrappers
  import opened ResetEventStore

  /** A type to be deleted: listed, or of a listed family, and neither kept nor describing other events. */
  predicate Target(c: Config, kind: string) {
    && kind !in c.keep && kind !in c.cascades.Keys
    && (kind in c.exact || exists p <- c.prefixes :: |p| <= |kind| && kind[..|p|] == p)
  }

  predicate Describing(c: Config, kind: string) {
    kind !in c.keep && kind in c.cascades.Keys
  }

  lemma ClassMeans(c: Config, kind: string)
    ensures Classify(c, kind) == Delete <==> Target(c, kind)
    ensures Classify(c, kind) == Cascading <==> Describing(c, kind)
    ensures Classify(c, kind) == Keep <==> !Target(c, kind) && !Describing(c, kind)
  {
    if i :| 0 <= i < |c.prefixes| && c.prefixes[i] <= kind {
      assert c.prefixes[i] in c.prefixes;
    }
    if p :| p in c.prefixes && |p| <= |kind| && kind[..|p|] == p {
      var i :| 0 <= i < |c.prefixes| && c.prefixes[i] == p;
      assert c.prefixes[i] <= kind;
    }
  }

  /** A word the queries look types and references up in: a type present that is to be deleted or, when there is
      none, the empty word. */
  ghost predicate Listed(c: Config, events: seq<Event>, word: string) {
    || (Target(c, word) && exists e <- events :: e.kind == word)
    || (word == "" && forall e <- events :: !Target(c, e.kind))
  }

  /** A describing event whose reference is listed, or none of whose references is anything but listed or null. */
  ghost predicate Cites(c: Config, events: seq<Event>, e: Event) {
    Describing(c, e.kind) &&
    match c.cascades[e.kind]
    case Scalar => exists word :: e.ref == Text(word) && Listed(c, events, word)
    case Array => forall i | 0 <= i < |e.list| ::
      e.list[i] == Null || exists word :: e.list[i] == Text(word) && Listed(c, events, word)
  }

  ghost predicate Goes(c: Config, events: seq<Event>, e: Event) {
    Listed(c, events, e.kind) || Cites(c, events, e)
  }

  /** The events of `part` that stay, in order; what goes is decided on the whole store. */
  ghost function Staying(c: Config, store: seq<Event>, part: seq<Event>): seq<Event> {
    if part == [] then []
    else
      var n := |part| - 1;
      Staying(c, store, part[..n]) + (if Goes(c, store, part[n]) then [] else [part[n]])
  }

  lemma ListMeans(c: Config, events: seq<Event>, word: string)
    ensures word in InList(DeleteTypes(c, events)) <==> Listed(c, events, word)
  {
    hide Target, Classify;
    TypesOfClass(c, events, Delete, word);
    ClassMeans(c, word);
    var deletes := DeleteTypes(c, events);
    forall kind
      ensures kind in deletes <==> Target(c, kind) && exists e :: e in events && e.kind == kind
    {
      TypesOfClass(c, events, Delete, kind);
      ClassMeans(c, kind);
    }
    if deletes == [] {
      forall e <- events ensures !Target(c, e.kind) {
        assert e.kind !in deletes;
      }
    } else {
      assert deletes[0] in deletes;
      var e :| e in events && e.kind == deletes[0];
    }
  }

  lemma ReferenceMeans(c: Config, events: seq<Event>, e: Event)
    requires Describing(c, e.kind)
    ensures Refers(CascadeOf(c, e.kind), e, InList(DeleteTypes(c, events))) <==> Cites(c, events, e)
  {
    hide Listed, InList, DeleteTypes;
    var list := InList(DeleteTypes(c, events));
    forall word ensures word in list <==> Listed(c, events, word) {
      ListMeans(c, events, word);
    }
    match c.cascades[e.kind]
    case Scalar =>
    case Array =>
      if Refers(Array, e, list) {
        forall i | 0 <= i < |e.list|
          ensures e.list[i] == Null || exists word :: e.list[i] == Text(word) && Listed(c, events, word)
        {
          assert e.list[i] in e.list;
        }
      }
      if Cites(c, events, e) {
        forall x | x in e.list ensures x.Null? || (x.Text? && x.text in list) {
          var i :| 0 <= i < |e.list| && e.list[i] == x;
        }
      }
  }

  lemma DoomedMeans(c: Config, events: seq<Event>, e: Event)
    ensures Doomed(c, InList(DeleteTypes(c, events)), e) <==> Goes(c, events, e)
  {
    hide Listed, Cites, Refers, Classify, InList, DeleteTypes, Describing;
    ListMeans(c, events, e.kind);
    ClassMeans(c, e.kind);
    if Describing(c, e.kind) {
      ReferenceMeans(c, events, e);
    } else {
      NotCiting(c, events, e);
    }
  }

  lemma NotCiting(c: Config, events: seq<Event>, e: Event)
    requires !Describing(c, e.kind)
    ensures !Cites(c, events, e)
  {}

  lemma {:induction false} SurvivingOfOne(c: Config, list: seq<string>, part: seq<Event>, e: Event)
    ensures Surviving(c, list, part + [e]) == Surviving(c, list, part) + (if Doomed(c, list, e) then [] else [e])
  {
    hide Doomed;
    if part == [] {
      assert part + [e] == [e];
      assert [e][1..] == [];
    } else {
      SurvivingOfOne(c, list, part[1..], e);
      assert (part + [e])[1..] == part[1..] + [e];
    }
  }

  lemma {:induction false} SurvivingIsStaying(c: Config, store: seq<Event>, part: seq<Event>)
    ensures Surviving(c, InList(DeleteTypes(c, store)), part) == Staying(c, store, part)
  {
    hide Goes, Doomed, InList, DeleteTypes;
    if part != [] {
      var n := |part| - 1;
      SurvivingIsStaying(c, store, part[..n]);
      DoomedMeans(c, store, part[n]);
      SurvivingOfOne(c, InList(DeleteTypes(c, store)), part[..n], part[n]);
      assert part == part[..n] + [part[n]];
    }
  }

  /** How many events of `part` are of a type to be deleted or cite one. */
  ghost function Tally(c: Config, store: seq<Event>, part: seq<Event>): nat {
    if part == [] then 0
    else Tally(c, store, part[1..]) + if Target(c, part[0].kind) || Cites(c, store, part[0]) then 1 else 0
  }

  lemma {:induction false} CountsAreTally(c: Config, store: seq<Event>, part: seq<Event>)
    requires forall e <- part :: e in store
    ensures CountKinds(part, DeleteTypes(c, store)) +
            CascadeCount(c, part, CascadeTypes(c, store), InList(DeleteTypes(c, store))) == Tally(c, store, part)
  {
    hide Target, Classify, Cites, InList, DeleteTypes, CascadeTypes, CascadeCount, Refers, Describing;
    var deletes, cascades := DeleteTypes(c, store), CascadeTypes(c, store);
    if part == [] {
      NothingToCascade(c, cascades, InList(deletes));
    } else {
      var e, rest := part[0], part[1..];
      assert e in part && forall x <- rest :: x in part;
      assert part == [e] + rest;
      CountsAreTally(c, store, rest);
      TypesMean(c, store, e);
      CascadeCountOfOne(c, e, rest, cascades, InList(deletes));
    }
  }

  lemma TypesMean(c: Config, store: seq<Event>, e: Event)
    requires e in store
    ensures e.kind in DeleteTypes(c, store) <==> Target(c, e.kind)
    ensures var cascades := CascadeTypes(c, store);
            && (forall i, j | 0 <= i < j < |cascades| :: cascades[i] != cascades[j])
            && (e.kind in cascades && Refers(CascadeOf(c, e.kind), e, InList(DeleteTypes(c, store))) <==>
                Cites(c, store, e))
    ensures !(Target(c, e.kind) && Cites(c, store, e))
  {
    hide Target, Classify, Cites, InList, Refers;
    TypesOfClass(c, store, Delete, e.kind);
    TypesOfClass(c, store, Cascading, e.kind);
    ClassMeans(c, e.kind);
    if Describing(c, e.kind) {
      ReferenceMeans(c, store, e);
    } else {
      NotCiting(c, store, e);
    }
  }

  /** MAIN: the dry run counts the events of a type to be deleted and the events that cite one. */
  lemma DryRunReads(c: Config, events: seq<Event>)
    ensures Predicted(c, events) == Tally(c, events, events)
  {
    CountsAreTally(c, events, events);
  }

  /** The approved Decision of the reset is on record. */
  predicate Approved(events: seq<Event>) {
    exists e <- events :: e.kind == "Decision" && e.approval
  }

  lemma ApprovedMeans(events: seq<Event>)
    ensures HasApproval(events) <==> Approved(events)
  {
    if e :| e in events && e.kind == "Decision" && e.approval {
      var i :| 0 <= i < |events| && events[i] == e;
    }
  }

  lemma RefusedMeans(c: Config, events: seq<Event>)
    ensures ProductionInScope(c, events) <==> exists e <- events :: e.production && Listed(c, events, e.kind)
  {
    hide Listed, InList, DeleteTypes;
    forall word ensures word in InList(DeleteTypes(c, events)) <==> Listed(c, events, word) {
      ListMeans(c, events, word);
    }
    if e :| e in events && e.production && Listed(c, events, e.kind) {
      var i :| 0 <= i < |events| && events[i] == e;
    }
  }

  /** MAIN: the reset refuses exactly when a production event is of a listed type; otherwise the store holds the
      events that stay, in order, and an approved production Decision, added under the given id if none was
      left. */
  lemma ResetReads(c: Config, events: seq<Event>, id: string)
    ensures ProductionInScope(c, events) <==> exists e <- events :: e.production && Listed(c, events, e.kind)
    ensures Recorded(Wiped(c, events), id) ==
            var staying := Staying(c, events, events);
            staying + if Approved(staying) then [] else [Event(id, "Decision", true, Null, [], true)]
  {
    hide Wiped, Staying, Approved, HasApproval, ProductionInScope, Listed;
    RefusedMeans(c, events);
    WipedIsSurviving(c, events);
    SurvivingIsStaying(c, events, events);
    ApprovedMeans(Staying(c, events, events));
    assert Staying(c, events, events) + [] == Staying(c, events, events);
  }

  /** The describing types the script ships with: three that name one type, one that lists several. */
  lemma ShippedDescribes(kind: string)
    ensures Describing(SHIPPED, kind) <==>
            kind in {"ProvenanceReclassified", "EntityReclassified", "BusDispatched", "LegacyFanoutShadowed"}
    ensures Describing(SHIPPED, kind) ==>
            SHIPPED.cascades[kind] == if kind == "LegacyFanoutShadowed" then Array else Scalar
    ensures kind == "PartyRegistered" ==> Classify(SHIPPED, kind) == Keep
  {
    assert |"PartyRegistered"| == 15 && |"ProvenanceReclassified"| == 22 && |"EntityReclassified"| == 18;
    assert |"BusDispatched"| == 13 && |"LegacyFanoutShadowed"| == 20;
  }
}
