/**
 Provenance lenses.  A reader folds only the events whose provenance tag a filter admits.  Every event
 of a trade carries the tag its booking was made with, so a filter never splits a lifecycle; indeed
 what a filter shows of a run is itself a run of the desk, on the admitted bookings alone.
 */
module FxProvenance {
  import opened Wrappers
  import opened FxTradeBook
  import opened FxLifecycle
  import opened FxSafety

  function Restrict(log: seq<Event>, lens: Provenance -> bool): seq<Event> {
    if log == [] then []
    else if lens(log[0].prov) then [log[0]] + Restrict(log[1..], lens)
    else Restrict(log[1..], lens)
  }

  function TagOf(t: Ticket): Provenance {
    if t.simulated then SimBooking else DeskBooking
  }

  /** The commands, less the bookings made under a tag the lens does not admit. */
  function Admitted(commands: seq<Command>, lens: Provenance -> bool): seq<Command> {
    if commands == [] then []
    else
      var last := commands[|commands| - 1];
      var before := Admitted(commands[..|commands| - 1], lens);
      if last.Book? && !lens(TagOf(last.ticket)) then before else before + [last]
  }

  lemma {:induction false} RestrictOfConcat(a: seq<Event>, b: seq<Event>, lens: Provenance -> bool)
    ensures Restrict(a + b, lens) == Restrict(a, lens) + Restrict(b, lens)
  {
    if a == [] {
      assert a + b == b;
    } else {
      assert (a + b)[1..] == a[1..] + b;
      RestrictOfConcat(a[1..], b, lens);
    }
  }

  lemma {:induction false} ViewOfRestrict(log: seq<Event>, lens: Provenance -> bool, id: string)
    ensures View(Restrict(log, lens), id) == Restrict(View(log, id), lens)
  {
    if log != [] {
      ViewOfRestrict(log[1..], lens, id);
      ViewOfConcat([log[0]], Restrict(log[1..], lens), id);
      RestrictOfConcat([log[0]], View(log[1..], id), lens);
    }
  }

  lemma {:induction false} RestrictOfTagged(events: seq<Event>, prov: Provenance, lens: Provenance -> bool)
    requires forall e <- events :: e.prov == prov
    ensures Restrict(events, lens) == if lens(prov) then events else []
  {
    if events != [] {
      RestrictOfTagged(events[1..], prov, lens);
    }
  }

  /** Every event of a trade carries the tag of its booking. */
  lemma TraceIsTagged(id: string, life: Life)
    requires Proper(life) && !life.Absent?
    ensures forall e <- Trace(id, life) :: e.prov == life.deal.prov
  {
    var d := life.deal;
    forall e | e in Trace(id, life) ensures e.prov == d.prov {
      if e in Settlement(id, d) {
        SettlementStamps(id, d, e);
      } else {
        assert e in Opening(id, d) || e == Confirmation(id, d) ||
               (life.Realised? && e in Realisation(id, d, life.conversion));
      }
    }
  }

  /** What a command appends. */
  function Added(log: seq<Event>, c: Command): seq<Event> {
    if |log| <= |Step(log, c)| then Step(log, c)[|log|..] else []
  }

  lemma StepAdds(log: seq<Event>, c: Command)
    ensures Step(log, c) == log + Added(log, c)
    ensures Added(log, c) == Added(View(log, TradeOfCommand(c)), c)
  {
    hide Step;
    var id := TradeOfCommand(c);
    var view := View(log, id);
    StepExtends(log, c);
    StepExtends(view, c);
    StepIsLocal(log, c, id);
    ViewOfConcat(log, Added(log, c), id);
    ViewOfAllOf(Added(log, c), id);
    assert Step(log, c) == log + Added(log, c) && Step(view, c) == view + Added(view, c);
    assert (view + Added(log, c))[|view|..] == Added(log, c);
    assert (view + Added(view, c))[|view|..] == Added(view, c);
  }

  lemma NothingOnAbsent(c: Command)
    requires !c.Book?
    ensures Added([], c) == []
  {}

  /** A trade that the lens admits looks the same to its commands; of one it does not, nothing shows. */
  lemma AddedUnderLens(commands: seq<Command>, c: Command, lens: Provenance -> bool)
    requires Minted(commands + [c])
    ensures Restrict(Added(Run(commands), c), lens) ==
            if c.Book? && !lens(TagOf(c.ticket)) then [] else Added(Restrict(Run(commands), lens), c)
  {
    hide Step, Added;
    var id := TradeOfCommand(c);
    var log := Run(commands);
    var life := LifeAfter(commands, id);
    assert forall i | 0 <= i < |commands| :: (commands + [c])[i] == commands[i];
    DeskRefinesLifecycle(commands, id);
    StepAdds(log, c);
    StepAdds(Restrict(log, lens), c);
    ViewOfRestrict(log, lens, id);
    if c.Book? {
      assert (commands + [c])[|commands|] == c;
      UnbookedIsAbsent(commands, id);
    }
    StepFollowsMachine(id, life, c);
    StepAdds(Trace(id, life), c);
    if life.Absent? {
      if !c.Book? {
        NothingOnAbsent(c);
      } else {
        BookedUnderLens(id, c.ticket, lens);
      }
    } else {
      TraceIsTagged(id, life);
      TraceIsTagged(id, Next(life, c));
      var added := Added(Trace(id, life), c);
      assert forall e <- added :: e in Trace(id, Next(life, c));
      RestrictOfTagged(View(log, id), life.deal.prov, lens);
      RestrictOfTagged(added, life.deal.prov, lens);
      NothingOnAbsent(c);
    }
  }

  lemma BookedUnderLens(id: string, t: Ticket, lens: Provenance -> bool)
    ensures Restrict(Added([], Book(id, t)), lens) == if lens(TagOf(t)) then Added([], Book(id, t)) else []
  {
    if Acceptable(t) {
      BookOnAbsent(id, t);
      TraceIsTagged(id, Booked(DealOf(t)));
      RestrictOfTagged(Opening(id, DealOf(t)), TagOf(t), lens);
    }
  }

  /** What a provenance filter keeps of a run is the run of the bookings it admits. */
  lemma {:induction false} LensShowsARun(commands: seq<Command>, lens: Provenance -> bool)
    requires Minted(commands)
    ensures Restrict(Run(commands), lens) == Run(Admitted(commands, lens))
  {
    hide Step, Added;
    if commands != [] {
      var before, c := commands[..|commands| - 1], commands[|commands| - 1];
      assert commands == before + [c];
      LensShowsARun(before, lens);
      StepAdds(Run(before), c);
      StepAdds(Restrict(Run(before), lens), c);
      RestrictOfConcat(Run(before), Added(Run(before), c), lens);
      AddedUnderLens(before, c, lens);
      RunThen(Admitted(before, lens), c);
    }
  }

  /** A filter keeps the whole lifecycle of a trade, bookings to realisation, or none of it. */
  lemma WholeLifecycleOrNone(commands: seq<Command>, lens: Provenance -> bool, id: string)
    requires Minted(commands)
    ensures View(Restrict(Run(commands), lens), id) ==
            if LifeAfter(commands, id).Absent? || lens(LifeAfter(commands, id).deal.prov)
            then View(Run(commands), id) else []
  {
    ViewOfRestrict(Run(commands), lens, id);
    DeskRefinesLifecycle(commands, id);
    var life := LifeAfter(commands, id);
    if !life.Absent? {
      TraceIsTagged(id, life);
      RestrictOfTagged(View(Run(commands), id), life.deal.prov, lens);
    }
  }
}
