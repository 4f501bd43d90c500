/**
 The shared log as the gateway and the other parties write it, and reading it by event type.
 */
module GatewayLog {
  import opened Eligibility
  import Sequences

  datatype Kind = Identity | Sanctions | CounterpartyEligibility | Suitability | Documentation
                | CreditLimit | CapitalImpact | Funding

  datatype CreditBlock = CounterpartyNotApproved | LimitExpired | AnnualReviewStale | CreditLimitExhausted

  datatype Reason =
    | NeitherRecordNorKyc | NoPartyRecord | NoKyc | OnBlockedList | NotEligible | Unclassified
    | RetailClient | NoAgreement | NoHeadroom(block: CreditBlock) | NotRandQuoted | NoRiskWeight
    | CapitalCeiling | LiquidityFloor

  datatype Outcome = Approve | Reject(reason: Reason)

  /** An entry's event id is its position in the log. */
  datatype Entry =
    | Fact(record: Record)
    | Proposed(id: string, party: string, asOf: int)
    | Requested(id: string, kind: Kind, proposal: nat, asOf: int)
    | Completed(id: string, kind: Kind, outcome: Outcome, request: nat, asOf: int)
    | Approved(id: string, asOf: int)
    | Rejected(id: string, check: Kind, reason: Reason, asOf: int)

  predicate Of(e: Entry, id: string) {
    !e.Fact? && e.id == id
  }

  /** The facts other parties appended. */
  function Records(log: seq<Entry>): seq<Record> {
    if log == [] then []
    else (if log[0].Fact? then [log[0].record] else []) + Records(log[1..])
  }

  /** The store's replay: the entries asked for, in order. */
  function Replay(log: seq<Entry>, wanted: Record -> bool): seq<Record> {
    if log == [] then []
    else (if log[0].Fact? && wanted(log[0].record) then [log[0].record] else []) + Replay(log[1..], wanted)
  }

  function Among(records: seq<Record>, wanted: Record -> bool): seq<Record> {
    if records == [] then []
    else (if wanted(records[0]) then [records[0]] else []) + Among(records[1..], wanted)
  }

  /** A replay sees facts only. */
  lemma {:induction false} ReplayIsAmong(log: seq<Entry>, wanted: Record -> bool)
    ensures Replay(log, wanted) == Among(Records(log), wanted)
  {
    if log != [] {
      ReplayIsAmong(log[1..], wanted);
      if log[0].Fact? {
        assert ([log[0].record] + Records(log[1..]))[1..] == Records(log[1..]);
      } else {
        Sequences.Unit(Records(log[1..]));
        Sequences.Unit(Replay(log[1..], wanted));
      }
    }
  }

  lemma {:induction false} ReplayWanted(log: seq<Entry>, wanted: Record -> bool)
    ensures forall r <- Replay(log, wanted) :: wanted(r)
  {
    if log != [] {
      ReplayWanted(log[1..], wanted);
    }
  }

  lemma {:induction false} ReplayOfOne(log: seq<Entry>, e: Entry, wanted: Record -> bool)
    ensures Replay(log + [e], wanted) ==
            Replay(log, wanted) + if e.Fact? && wanted(e.record) then [e.record] else []
  {
    if log == [] {
      assert log + [e] == [e] && [e][1..] == [];
    } else {
      assert (log + [e])[1..] == log[1..] + [e];
      ReplayOfOne(log[1..], e, wanted);
    }
  }

  lemma RecordsFirst(e: Entry, rest: seq<Entry>)
    ensures Records([e] + rest) == (if e.Fact? then [e.record] else []) + Records(rest)
  {
    assert ([e] + rest)[1..] == rest;
  }

  lemma {:induction false} RecordsOfConcat(a: seq<Entry>, b: seq<Entry>)
    ensures Records(a + b) == Records(a) + Records(b)
  {
    if a == [] {
      assert Records([]) == [];
      hide *;
      Sequences.Unit(b);
      Sequences.Unit(Records(b));
    } else {
      hide *;
      RecordsOfConcat(a[1..], b);
      RecordsFirst(a[0], a[1..]);
      RecordsFirst(a[0], a[1..] + b);
      assert a == [a[0]] + a[1..];
      Sequences.Assoc([a[0]], a[1..], b);
      Sequences.Assoc(if a[0].Fact? then [a[0].record] else [], Records(a[1..]), Records(b));
    }
  }

  lemma {:induction false} NoFacts(entries: seq<Entry>)
    requires forall e <- entries :: !e.Fact?
    ensures Records(entries) == []
  {
    if entries != [] {
      assert entries[0] in entries;
      NoFacts(entries[1..]);
    }
  }

  /** The gateway's own entries are not facts. */
  lemma RecordsAfter(log: seq<Entry>, entries: seq<Entry>)
    requires forall e <- entries :: !e.Fact?
    ensures Records(log + entries) == Records(log)
  {
    RecordsOfConcat(log, entries);
    NoFacts(entries);
    assert Records(log) + [] == Records(log);
  }
}
