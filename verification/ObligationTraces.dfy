/**
 Why a section lists an obligation, by the spelling of the ids alone.
 */
module ObligationTraces {
  import opened Wrappers
  import opened ObligationIndex

  // ---------------------------------------------------------------- letters

  /** The small letter of a capital; any other character is its own. */
  predicate SmallOf(c: char, small: char) {
    if 'A' <= c <= 'Z' then small as int == c as int + 32 else small == c
  }

  predicate CapitalOf(c: char, capital: char) {
    if 'a' <= c <= 'z' then capital as int == c as int - 32 else capital == c
  }

  predicate Lowered(s: string, t: string) {
    |s| == |t| && forall i | 0 <= i < |s| :: SmallOf(s[i], t[i])
  }

  predicate Raised(s: string, t: string) {
    |s| == |t| && forall i | 0 <= i < |s| :: CapitalOf(s[i], t[i])
  }

  lemma LoweredIs(s: string, t: string)
    ensures Lowered(s, t) <==> t == ToLower(s)
  {
    assert forall c: char, d: char :: SmallOf(c, d) <==> d == Lower(c);
    hide SmallOf, Lower;
  }

  lemma RaisedIs(s: string, t: string)
    ensures Raised(s, t) <==> t == ToUpper(s)
  {
    assert forall c: char, d: char :: CapitalOf(c, d) <==> d == Upper(c);
    hide CapitalOf, Upper;
  }

  // ---------------------------------------------------------------- the slug in a graph id

  predicate SingleLine(s: string) {
    forall i | 0 <= i < |s| :: s[i] as int !in {10, 13, 8232, 8233}
  }

  predicate StatuteParts(id: string, head: string, name: string, mark: string, tail: string) {
    && id == head + name + "-" + mark + tail && Lowered(head, "prov-")
    && name != "" && SingleLine(name) && Lowered(mark, "s") && '-' !in tail
  }

  /** A provision of a statute: the mark, the slug, and a section introduced by the last dash. */
  ghost predicate StatuteId(id: string, slug: string) {
    exists head, name, mark, tail :: StatuteParts(id, head, name, mark, tail) && Lowered(name, slug)
  }

  predicate AllLetters(s: string) {
    forall i | 0 <= i < |s| :: 'a' <= s[i] <= 'z' || 'A' <= s[i] <= 'Z'
  }

  predicate BaselParts(id: string, head: string, chapter: string, tail: string) {
    && id == head + chapter + ":" + tail && Lowered(head, "urn:reg:bcbs:") && chapter != "" && AllLetters(chapter)
  }

  /** A paragraph of the Basel framework: the slug is made of the chapter. */
  ghost predicate BaselId(id: string, slug: string) {
    exists head, chapter, tail, name ::
      BaselParts(id, head, chapter, tail) && Lowered(chapter, name) && slug == "bcbs-" + name
  }

  lemma StatuteGrouped(a: string, b: string, c: string, d: string)
    requires |a| == 5 && |c| == 1
    ensures var id := a + b + "-" + c + d;
            && id[..5] == a && id[5..5 + |b|] == b && id[5 + |b|] == '-' && id[6 + |b|] == c[0]
            && (forall i | 5 + |b| < i < |id| :: id[i] == if i == 6 + |b| then c[0] else d[i - 7 - |b|])
            && (forall i | 5 <= i < 5 + |b| :: id[i] == b[i - 5])
  {
    var id := a + b + "-" + c + d;
    assert id == a + (b + ("-" + (c + d)));
    assert id[5..] == b + ("-" + (c + d));
  }

  lemma StatuteFrom(id: string, head: string, name: string, mark: string, tail: string)
    requires StatuteParts(id, head, name, mark, tail)
    ensures StatuteSlug(id) == Some(ToLower(name))
  {
    StatuteGrouped(head, name, mark, tail);
    LoweredIs(head, "prov-");
    LoweredIs(mark, "s");
    assert ToLower(mark)[0] == Lower(mark[0]) == 's';
    assert mark[0] != '-';
    LastDashIs(id, 5 + |name|);
    forall i | 5 <= i < 5 + |name| ensures !EndsLine(id[i]) {
      assert id[i] == name[i - 5];
    }
  }

  lemma StatuteCut(id: string, d: nat)
    requires 5 <= d && d + 1 < |id| && id[d] == '-'
    ensures id == id[..5] + id[5..d] + "-" + [id[d + 1]] + id[d + 2..]
  {}

  lemma PartsOfStatute(id: string)
    requires StatuteSlug(id).Some?
    ensures StatuteId(id, StatuteSlug(id).value)
  {
    var d := LastDash(id);
    StatuteCut(id, d);
    LoweredIs(id[..5], "prov-");
    LoweredIs([id[d + 1]], "s");
    assert ToLower([id[d + 1]]) == "s";
    LoweredIs(id[5..d], ToLower(id[5..d]));
    assert SingleLine(id[5..d]);
    assert '-' !in id[d + 2..];
    assert StatuteParts(id, id[..5], id[5..d], [id[d + 1]], id[d + 2..]);
  }

  lemma StatuteMeans(id: string)
    ensures forall slug :: StatuteSlug(id) == Some(slug) <==> StatuteId(id, slug)
  {
    hide StatuteSlug, StatuteParts, Lowered;
    if StatuteSlug(id).Some? { PartsOfStatute(id); }
    forall slug | StatuteId(id, slug) ensures StatuteSlug(id) == Some(slug) {
      var head, name, mark, tail :| StatuteParts(id, head, name, mark, tail) && Lowered(name, slug);
      StatuteFrom(id, head, name, mark, tail);
      LoweredIs(name, slug);
    }
  }

  lemma {:induction false} LettersUpTo(a: string, b: string)
    requires AllLetters(a) && b != "" && b[0] == ':'
    ensures Letters(a + b) == |a|
  {
    if a == "" {
      assert a + b == b;
    } else {
      assert (a + b)[1..] == a[1..] + b;
      LettersUpTo(a[1..], b);
    }
  }

  lemma {:induction false} LettersAre(s: string)
    ensures AllLetters(s[..Letters(s)])
  {
    if s != "" && 'a' <= Lower(s[0]) <= 'z' {
      LettersAre(s[1..]);
      assert s[..Letters(s)] == [s[0]] + s[1..][..Letters(s[1..])];
    }
  }

  lemma BaselFrom(id: string, head: string, chapter: string, tail: string)
    requires BaselParts(id, head, chapter, tail)
    ensures BaselSlug(id) == Some("bcbs-" + ToLower(chapter))
  {
    LoweredIs(head, "urn:reg:bcbs:");
    var rest := chapter + (":" + tail);
    assert id == head + rest && id[..13] == head && id[13..] == rest;
    LettersUpTo(chapter, ":" + tail);
    assert rest[..|chapter|] == chapter && rest[|chapter|] == ':';
  }

  lemma PartsOfBasel(id: string)
    requires BaselSlug(id).Some?
    ensures BaselId(id, BaselSlug(id).value)
  {
    var rest := id[13..];
    var n := Letters(rest);
    LettersAre(rest);
    LoweredIs(id[..13], "urn:reg:bcbs:");
    LoweredIs(rest[..n], ToLower(rest[..n]));
    assert id == id[..13] + rest && rest == rest[..n] + ":" + rest[n + 1..];
    assert BaselParts(id, id[..13], rest[..n], rest[n + 1..]);
  }

  lemma BaselMeans(id: string)
    ensures forall slug :: BaselSlug(id) == Some(slug) <==> BaselId(id, slug)
  {
    hide BaselSlug, BaselParts, Lowered;
    if BaselSlug(id).Some? { PartsOfBasel(id); }
    forall slug | BaselId(id, slug) ensures BaselSlug(id) == Some(slug) {
      var head, chapter, tail, name :|
        BaselParts(id, head, chapter, tail) && Lowered(chapter, name) && slug == "bcbs-" + name;
      BaselFrom(id, head, chapter, tail);
      LoweredIs(chapter, name);
    }
  }

  /** The slug of a graph id: a statute's, or else a Basel chapter's. */
  ghost predicate SlugIn(id: string, slug: string) {
    StatuteId(id, slug) || ((forall other :: !StatuteId(id, other)) && BaselId(id, slug))
  }

  lemma SlugMeans(id: string)
    ensures forall slug :: GraphSlug(id) == Some(slug) <==> SlugIn(id, slug)
  {
    StatuteMeans(id);
    BaselMeans(id);
    hide StatuteSlug, BaselSlug, StatuteId, BaselId;
    if StatuteSlug(id).Some? {
      assert StatuteId(id, StatuteSlug(id).value);
    }
  }

  // ---------------------------------------------------------------- why an obligation traces

  /** The node of an obligation; a mark in small letters is taken for a part of the id. */
  predicate NodeOf(target: string, id: string) {
    || target == "OBL-" + id
    || (target == id && |id| >= 4 && Lowered(id[..4], "obl-") && id[..4] != "OBL-")
  }

  lemma NodeMeans(target: string, id: string)
    ensures IsObligationNode(target) && BareId(target) == id <==> NodeOf(target, id)
  {
    if |target| >= 4 {
      LoweredIs(target[..4], "obl-");
      assert target == target[..4] + target[4..];
      assert "OBL-" <= target <==> target[..4] == "OBL-";
    }
    assert Lowered("OBL-", "obl-");
    assert ("OBL-" + id)[..4] == "OBL-" && ("OBL-" + id)[4..] == id;
  }

  /** An obligation traces to a provision of a regulation by an edge from a provision of it, or as one of its stated
      sources: under the cited document, or else under the regulation the source's own id names. */
  ghost predicate TracesTo(o: Obligation, edges: seq<Edge>, docs: set<string>, slug: string, prov: string) {
    && slug != ""
    && (|| (SlugIn(prov, slug) && exists e <- edges :: e.prov == prov && NodeOf(e.target, o.id))
        || (prov in o.derivesFrom &&
            if o.citation != "" && o.citation in docs then slug == o.citation else SlugIn(prov, slug)))
  }

  lemma TracesMeans(o: Obligation, edges: seq<Edge>, docs: set<string>, slug: string, prov: string)
    ensures Traces(o, edges, docs, slug, prov) <==> TracesTo(o, edges, docs, slug, prov)
  {
    SlugMeans(prov);
    hide GraphSlug, SlugIn, IsObligationNode, BareId, NodeOf;
    forall e | e in edges ensures IsObligationNode(e.target) && BareId(e.target) == o.id <==> NodeOf(e.target, o.id) {
      NodeMeans(e.target, o.id);
    }
  }

  // ---------------------------------------------------------------- the ids of a section

  /** The ids a section goes by: its number under the regulation's slug in capitals, its own id, and those of its
      subsections. */
  ghost predicate GoesBy(slug: string, section: Section, p: string) {
    || (exists capitals, number ::
          Raised(slug, capitals) && section.number == Some(number) && number != "" &&
          p == "PROV-" + capitals + "-s" + number)
    || (p != "" && (p == section.id || p in section.subsections))
  }

  lemma {:induction false} SubsectionsMean(ids: seq<string>, subs: seq<string>, p: string)
    requires forall i, j | 0 <= i < j < |ids| :: ids[i] != ids[j]
    ensures p in AddSubsections(ids, subs) <==> p in ids || (p != "" && p in subs)
    ensures var r := AddSubsections(ids, subs); forall i, j | 0 <= i < j < |r| :: r[i] != r[j]
  {
    if subs != [] {
      var n := |subs| - 1;
      SubsectionsMean(ids, subs[..n], p);
      assert p in subs <==> p in subs[..n] || p == subs[n];
    }
  }

  lemma CandidatesMean(slug: string, section: Section, p: string)
    ensures p in Candidates(slug, section) <==> GoesBy(slug, section, p)
    ensures var c := Candidates(slug, section); forall i, j | 0 <= i < j < |c| :: c[i] != c[j]
  {
    RaisedIs(slug, ToUpper(slug));
    forall capitals ensures Raised(slug, capitals) <==> capitals == ToUpper(slug) {
      RaisedIs(slug, capitals);
    }
    hide Raised, ToUpper;
    var numbered :=
      if section.number.Some? && section.number.value != "" then [SectionId(slug, section.number.value)] else [];
    SubsectionsMean(if section.id == "" then numbered else AddCandidate(numbered, section.id), section.subsections, p);
  }

  /** MAIN: a section lists an adopted obligation exactly when the obligation traces, under that regulation, to an id
      the section goes by. */
  lemma SectionLists(adopted: seq<Obligation>, edges: seq<Edge>, docs: set<string>, index: Index, slug: string,
                     section: Section, o: Obligation)
    requires UniqueIds(adopted) && o in adopted && ':' !in slug
    requires PlainSlugs(o, edges, docs)
    requires forall key :: Listed(index.byProvision, key) == IdsWithKey(adopted, edges, docs, key)
    ensures (exists p ::
               p in Candidates(slug, section) && o.id in Listed(index.byProvision, ProvisionKey(slug, p))) <==>
            (exists p :: GoesBy(slug, section, p) && TracesTo(o, edges, docs, slug, p))
  {
    hide Candidates, Listed, ProvisionKey, Traces, TracesTo, GoesBy, PlainSlugs, UniqueIds;
    forall p
      ensures p in Candidates(slug, section) <==> GoesBy(slug, section, p)
      ensures o.id in Listed(index.byProvision, ProvisionKey(slug, p)) <==> TracesTo(o, edges, docs, slug, p)
    {
      CandidatesMean(slug, section, p);
      ListedExactlyWhenTraced(adopted, edges, docs, o, slug, p);
      TracesMeans(o, edges, docs, slug, p);
      var ids := IdsWithKey(adopted, edges, docs, ProvisionKey(slug, p));
      assert o.id in multiset(ids) <==> o.id in ids;
    }
  }
}
