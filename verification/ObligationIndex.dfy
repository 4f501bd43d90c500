/**
 The reverse index between provisions and bank obligations, and the two reader views over it.
 */
module ObligationIndex {
  import opened Wrappers

  // ---------------------------------------------------------------- qualified keys

  /** Provision ids recur across regulations, so the index is keyed by slug and id together. */
  function ProvisionKey(slug: string, prov: string): string {
    slug + "::" + prov
  }

  lemma {:induction false} KeyIsInjective(s: string, p: string, t: string, q: string)
    requires ':' !in s && ':' !in t
    ensures ProvisionKey(s, p) == ProvisionKey(t, q) <==> s == t && p == q
  {
    var k, m := ProvisionKey(s, p), ProvisionKey(t, q);
    if k == m {
      assert forall i | 0 <= i < |s| :: k[i] == s[i] && k[i] in s;
      assert forall i | 0 <= i < |t| :: m[i] == t[i] && m[i] in t;
      assert k[|s|] == ':' && m[|t|] == ':';
      assert |s| == |t|;
      assert s == k[..|s|] && t == m[..|t|];
      assert p == k[|s| + 2..] && q == m[|t| + 2..];
    }
  }

  /** Two slugs can share a key exactly when one of them, closed by the two colons, begins the other closed
      likewise; with a colon in a slug this happens. */
  lemma KeysCollide(s: string, t: string)
    ensures (exists p, q :: ProvisionKey(s, p) == ProvisionKey(t, q)) <==> s + "::" <= t + "::" || t + "::" <= s + "::"
    ensures ProvisionKey("a:", "b") == ProvisionKey("a", ":b")
  {
    var x, y := s + "::", t + "::";
    forall p, q | ProvisionKey(s, p) == ProvisionKey(t, q) ensures x <= y || y <= x {
      PrefixesOfOne(x, p, y, q);
    }
    if x <= y {
      assert ProvisionKey(s, y[|x|..]) == ProvisionKey(t, "");
    }
    if y <= x {
      assert ProvisionKey(s, "") == ProvisionKey(t, x[|y|..]);
    }
  }

  lemma PrefixesOfOne(x: string, p: string, y: string, q: string)
    requires x + p == y + q
    ensures x <= y || y <= x
  {
    var k := x + p;
    assert x == k[..|x|] && y == k[..|y|];
  }

  // ---------------------------------------------------------------- slugs in graph ids

  /** Position of the last dash. */
  function LastDash(s: string): (d: int)
    ensures -1 <= d < |s|
    ensures d >= 0 ==> s[d] == '-'
    ensures forall i | d < i < |s| :: s[i] != '-'
  {
    if s == [] then -1
    else if s[|s| - 1] == '-' then |s| - 1
    else LastDash(s[..|s| - 1])
  }

  function Lower(c: char): char {
    if 'A' <= c <= 'Z' then ((c as int) + 32) as char else c
  }

  function Upper(c: char): char {
    if 'a' <= c <= 'z' then ((c as int) - 32) as char else c
  }

  function ToLower(s: string): (r: string)
    ensures |r| == |s| && forall i | 0 <= i < |s| :: r[i] == Lower(s[i])
  {
    seq(|s|, i requires 0 <= i < |s| => Lower(s[i]))
  }

  function ToUpper(s: string): (r: string)
    ensures |r| == |s| && forall i | 0 <= i < |s| :: r[i] == Upper(s[i])
  {
    seq(|s|, i requires 0 <= i < |s| => Upper(s[i]))
  }

  predicate EndsLine(c: char) {
    c == '\n' || c == '\r' || c == '\U{2028}' || c == '\U{2029}'
  }

  /** `PROV-<slug>-s<n>`: the part between the prefix and the last dash, which must introduce an s. */
  function StatuteSlug(id: string): Option<string> {
    var d := LastDash(id);
    if |id| >= 5 && ToLower(id[..5]) == "prov-" && d > 5 && d + 1 < |id| && Lower(id[d + 1]) == 's' &&
       (forall i | 5 <= i < d :: !EndsLine(id[i]))
    then Some(ToLower(id[5..d]))
    else None
  }

  /** Letters up to a colon. */
  function Letters(s: string): (n: nat)
    ensures n <= |s|
  {
    if s != [] && 'a' <= Lower(s[0]) <= 'z' then 1 + Letters(s[1..]) else 0
  }

  const BASEL := "urn:reg:bcbs:"

  /** `urn:reg:bcbs:<chapter>:...` */
  function BaselSlug(id: string): Option<string> {
    if |id| >= |BASEL| && ToLower(id[..|BASEL|]) == BASEL then
      var rest := id[|BASEL|..];
      var n := Letters(rest);
      if 1 <= n < |rest| && rest[n] == ':' then Some("bcbs-" + ToLower(rest[..n])) else None
    else None
  }

  function GraphSlug(id: string): Option<string> {
    var statute := StatuteSlug(id);
    if statute.Some? then statute else BaselSlug(id)
  }

  /** The id the reader composes for a section of a regulation. */
  function SectionId(slug: string, number: string): string {
    "PROV-" + ToUpper(slug) + "-s" + number
  }

  lemma LastDashIs(s: string, d: nat)
    requires d < |s| && s[d] == '-' && forall i | d < i < |s| :: s[i] != '-'
    ensures LastDash(s) == d
  {
    var e := LastDash(s);
    assert e >= 0 by { assert s[d] == '-'; }
    assert !(e < d) && !(d < e);
  }

  lemma SectionIdParts(slug: string, number: string)
    ensures var id, n := SectionId(slug, number), |slug|;
            && |id| == 7 + n + |number| && id[..5] == "PROV-"
            && (forall i | 0 <= i < n :: id[5 + i] == Upper(slug[i]))
            && id[5 + n] == '-' && id[6 + n] == 's'
            && (forall i | 0 <= i < |number| :: id[7 + n + i] == number[i])
  {
    var id, n := SectionId(slug, number), |slug|;
    assert id == "PROV-" + (ToUpper(slug) + ("-s" + number));
    assert id[5..] == ToUpper(slug) + ("-s" + number);
  }

  lemma DashFreeNumber(slug: string, number: string)
    requires slug != "" && ToLower(ToUpper(slug)) == slug && (forall c <- slug :: !EndsLine(c)) && '-' !in number
    ensures StatuteSlug(SectionId(slug, number)) == Some(slug)
  {
    var id, n := SectionId(slug, number), |slug|;
    SectionIdParts(slug, number);
    hide SectionId;
    forall i | 5 + n < i < |id| ensures id[i] != '-' {
      if i >= 7 + n {
        assert id[i] == number[i - 7 - n] && number[i - 7 - n] in number;
      }
    }
    LastDashIs(id, 5 + n);
    forall i | 5 <= i < 5 + n ensures !EndsLine(id[i]) {
      assert id[i] == Upper(slug[i - 5]) && slug[i - 5] in slug;
    }
    assert id[5..5 + n] == ToUpper(slug);
    assert ToLower(id[..5]) == "prov-";
  }

  lemma DashedNumber(slug: string, number: string)
    requires '-' in number
    ensures StatuteSlug(SectionId(slug, number)) != Some(slug)
  {
    var id, n := SectionId(slug, number), |slug|;
    SectionIdParts(slug, number);
    hide SectionId;
    var k :| 0 <= k < |number| && number[k] == '-';
    assert id[7 + n + k] == '-';
    assert LastDash(id) >= 7 + n + k;
    assert StatuteSlug(id).Some? ==> |StatuteSlug(id).value| == LastDash(id) - 5 > n;
  }

  /** The slug is read back from a section id exactly when the section number has no dash. */
  lemma SlugRoundTrip(slug: string, number: string)
    requires slug != "" && ToLower(ToUpper(slug)) == slug && forall c <- slug :: !EndsLine(c)
    ensures GraphSlug(SectionId(slug, number)) == Some(slug) <==> '-' !in number
  {
    SectionIdParts(slug, number);
    NotBasel(SectionId(slug, number));
    if '-' in number {
      DashedNumber(slug, number);
    } else {
      DashFreeNumber(slug, number);
    }
  }

  lemma NotBasel(id: string)
    requires |id| >= 5 && id[..5] == "PROV-"
    ensures BaselSlug(id).None?
  {
    if |id| >= |BASEL| {
      assert id[0] == id[..5][0] == 'P';
      assert ToLower(id[..|BASEL|])[0] == Lower(id[0]) == 'p';
      assert BASEL[0] == 'u';
    }
  }

  // ---------------------------------------------------------------- what an obligation owns

  datatype Obligation = Obligation(id: string, citation: string, derivesFrom: seq<string>)

  /** One EXPRESSES edge of the graph, from a provision to an obligation node. */
  datatype Edge = Edge(prov: string, target: string)

  datatype Owned = Owned(slug: string, prov: string)

  /** The SQL filter ignores case; the prefix is then removed only in capitals. */
  predicate IsObligationNode(target: string) {
    |target| >= 4 && ToLower(target[..4]) == "obl-"
  }

  function BareId(target: string): string {
    if "OBL-" <= target then target[4..] else target
  }

  /** The provisions with an edge to an obligation, each once, in edge order. */
  function EdgesTo(edges: seq<Edge>, id: string): (provs: seq<string>)
  {
    if edges == [] then []
    else
      var before, e := EdgesTo(edges[..|edges| - 1], id), edges[|edges| - 1];
      if IsObligationNode(e.target) && BareId(e.target) == id && e.prov !in before then before + [e.prov] else before
  }

  function Keys(owned: seq<Owned>): (keys: seq<string>)
    ensures |keys| == |owned| && forall i | 0 <= i < |owned| :: keys[i] == ProvisionKey(owned[i].slug, owned[i].prov)
  {
    seq(|owned|, i requires 0 <= i < |owned| => ProvisionKey(owned[i].slug, owned[i].prov))
  }

  /** The `add` closure: skips an empty slug and a key already seen. */
  function Add(owned: seq<Owned>, slug: Option<string>, prov: string): seq<Owned> {
    if slug.None? || slug.value == "" || ProvisionKey(slug.value, prov) in Keys(owned) then owned
    else owned + [Owned(slug.value, prov)]
  }

  function AddGraph(owned: seq<Owned>, provs: seq<string>): seq<Owned> {
    if provs == [] then owned
    else
      var p := provs[|provs| - 1];
      Add(AddGraph(owned, provs[..|provs| - 1]), GraphSlug(p), p)
  }

  /** `docs` are the slugs that resolve to a structured document. */
  function AnchorSlug(o: Obligation, docs: set<string>): Option<string> {
    if o.citation != "" && o.citation in docs then Some(o.citation) else None
  }

  function SourceSlug(anchor: Option<string>, p: string): Option<string> {
    if anchor.Some? then anchor else GraphSlug(p)
  }

  function AddSources(owned: seq<Owned>, anchor: Option<string>, sources: seq<string>): seq<Owned> {
    if sources == [] then owned
    else
      var p := sources[|sources| - 1];
      Add(AddSources(owned, anchor, sources[..|sources| - 1]), SourceSlug(anchor, p), p)
  }

  function OwnedBy(o: Obligation, edges: seq<Edge>, docs: set<string>): seq<Owned> {
    AddSources(AddGraph([], EdgesTo(edges, o.id)), AnchorSlug(o, docs), o.derivesFrom)
  }

  /** Why an obligation traces to a provision of a regulation. */
  ghost predicate Traces(o: Obligation, edges: seq<Edge>, docs: set<string>, slug: string, prov: string) {
    && slug != ""
    && (|| ((exists e :: e in edges && e.prov == prov && IsObligationNode(e.target) && BareId(e.target) == o.id) &&
            GraphSlug(prov) == Some(slug))
        || (prov in o.derivesFrom && SourceSlug(AnchorSlug(o, docs), prov) == Some(slug)))
  }

  lemma {:induction false} EdgesToMeans(edges: seq<Edge>, id: string, prov: string)
    ensures prov in EdgesTo(edges, id) <==>
            exists e :: e in edges && e.prov == prov && IsObligationNode(e.target) && BareId(e.target) == id
  {
    if edges != [] {
      EdgesToMeans(edges[..|edges| - 1], id, prov);
      assert forall e :: e in edges <==> e in edges[..|edges| - 1] || e == edges[|edges| - 1];
    }
  }

  ghost predicate ColonFree(owned: seq<Owned>) {
    forall o <- owned :: ':' !in o.slug
  }

  ghost predicate Once(owned: seq<Owned>) {
    forall i, j | 0 <= i < j < |owned| :: owned[i] != owned[j]
  }

  lemma AddMeans(owned: seq<Owned>, slug: Option<string>, prov: string, s: string, p: string)
    requires ColonFree(owned) && Once(owned) && (slug.Some? ==> ':' !in slug.value)
    ensures ColonFree(Add(owned, slug, prov)) && Once(Add(owned, slug, prov))
    ensures Owned(s, p) in Add(owned, slug, prov) <==>
            Owned(s, p) in owned || (s != "" && slug == Some(s) && prov == p)
  {
    if slug.Some? && slug.value != "" {
      var key := ProvisionKey(slug.value, prov);
      if key in Keys(owned) {
        var i :| 0 <= i < |owned| && Keys(owned)[i] == key;
        assert owned[i] in owned;
        KeyIsInjective(owned[i].slug, owned[i].prov, slug.value, prov);
      } else {
        forall i | 0 <= i < |owned| ensures owned[i] != Owned(slug.value, prov) {
          assert Keys(owned)[i] in Keys(owned);
        }
      }
    }
  }

  lemma {:induction false} AddGraphMeans(provs: seq<string>, s: string, p: string)
    requires forall q <- provs :: GraphSlug(q).Some? ==> ':' !in GraphSlug(q).value
    ensures ColonFree(AddGraph([], provs)) && Once(AddGraph([], provs))
    ensures Owned(s, p) in AddGraph([], provs) <==> s != "" && p in provs && GraphSlug(p) == Some(s)
  {
    hide GraphSlug, Add;
    if provs != [] {
      var n := |provs| - 1;
      AddGraphMeans(provs[..n], s, p);
      assert provs[n] in provs;
      AddMeans(AddGraph([], provs[..n]), GraphSlug(provs[n]), provs[n], s, p);
      assert p in provs <==> p in provs[..n] || p == provs[n];
    }
  }

  lemma {:induction false} AddSourcesMeans(owned: seq<Owned>, anchor: Option<string>, sources: seq<string>, s: string,
                                           p: string)
    requires ColonFree(owned) && Once(owned)
    requires forall q <- sources :: SourceSlug(anchor, q).Some? ==> ':' !in SourceSlug(anchor, q).value
    ensures ColonFree(AddSources(owned, anchor, sources)) && Once(AddSources(owned, anchor, sources))
    ensures Owned(s, p) in AddSources(owned, anchor, sources) <==>
            Owned(s, p) in owned || (s != "" && p in sources && SourceSlug(anchor, p) == Some(s))
  {
    hide SourceSlug, Add;
    if sources != [] {
      var n := |sources| - 1;
      AddSourcesMeans(owned, anchor, sources[..n], s, p);
      assert sources[n] in sources;
      AddMeans(AddSources(owned, anchor, sources[..n]), SourceSlug(anchor, sources[n]), sources[n], s, p);
      assert p in sources <==> p in sources[..n] || p == sources[n];
    }
  }

  /** Slugs have no colon: document slugs, and those read from the ids of this obligation. */
  ghost predicate PlainSlugs(o: Obligation, edges: seq<Edge>, docs: set<string>) {
    && (forall q :: q in EdgesTo(edges, o.id) && GraphSlug(q).Some? ==> ':' !in GraphSlug(q).value)
    && (forall q :: q in o.derivesFrom && SourceSlug(AnchorSlug(o, docs), q).Some? ==>
                    ':' !in SourceSlug(AnchorSlug(o, docs), q).value)
  }

  /** The list built by the two loops holds exactly the provisions the obligation traces to, each once. */
  lemma OwnedIsTraced(o: Obligation, edges: seq<Edge>, docs: set<string>, s: string, p: string)
    requires PlainSlugs(o, edges, docs)
    ensures Owned(s, p) in OwnedBy(o, edges, docs) <==> Traces(o, edges, docs, s, p)
    ensures ColonFree(OwnedBy(o, edges, docs)) && Once(OwnedBy(o, edges, docs))
  {
    hide GraphSlug, SourceSlug, Add, AnchorSlug;
    AddGraphMeans(EdgesTo(edges, o.id), s, p);
    AddSourcesMeans(AddGraph([], EdgesTo(edges, o.id)), AnchorSlug(o, docs), o.derivesFrom, s, p);
    EdgesToMeans(edges, o.id, p);
  }

  // ---------------------------------------------------------------- the index

  datatype Index = Index(byProvision: map<string, seq<string>>, provisionsFor: map<string, seq<Owned>>)

  /** The ids of the obligations owning a key, in the order of adoption. */
  function IdsWithKey(adopted: seq<Obligation>, edges: seq<Edge>, docs: set<string>, key: string): seq<string> {
    if adopted == [] then []
    else
      var o := adopted[|adopted| - 1];
      IdsWithKey(adopted[..|adopted| - 1], edges, docs, key) +
      (if key in Keys(OwnedBy(o, edges, docs)) then [o.id] else [])
  }

  function Listed(table: map<string, seq<string>>, key: string): seq<string> {
    if key in table then table[key] else []
  }

  /** The projection keys obligations table id. */
  predicate UniqueIds(adopted: seq<Obligation>) {
    forall i, j | 0 <= i < j < |adopted| :: adopted[i].id != adopted[j].id
  }

  method OwnedProvisions(o: Obligation, edges: seq<Edge>, docs: set<string>) returns (owned: seq<Owned>)
    ensures owned == OwnedBy(o, edges, docs)
  {
    hide Add, GraphSlug;
    var provs := EdgesTo(edges, o.id);
    owned := [];
    for i := 0 to |provs|
      invariant owned == AddGraph([], provs[..i])
    {
      assert provs[..i + 1][..i] == provs[..i];
      owned := Add(owned, GraphSlug(provs[i]), provs[i]);
    }
    assert provs[..|provs|] == provs;
    var anchor := AnchorSlug(o, docs);
    ghost var fromGraph := owned;
    for i := 0 to |o.derivesFrom|
      invariant owned == AddSources(fromGraph, anchor, o.derivesFrom[..i])
    {
      assert o.derivesFrom[..i + 1][..i] == o.derivesFrom[..i];
      owned := Add(owned, SourceSlug(anchor, o.derivesFrom[i]), o.derivesFrom[i]);
    }
    assert o.derivesFrom[..|o.derivesFrom|] == o.derivesFrom;
  }

  /** An obligation's own keys are distinct, whatever its slugs. */
  lemma AddKeepsKeysDistinct(owned: seq<Owned>, slug: Option<string>, prov: string)
    requires DistinctKeys(owned)
    ensures DistinctKeys(Add(owned, slug, prov))
  {
    var more := Add(owned, slug, prov);
    if more != owned {
      assert forall i | 0 <= i < |owned| :: Keys(owned)[i] in Keys(owned);
    }
  }

  ghost predicate DistinctKeys(owned: seq<Owned>) {
    forall i, j | 0 <= i < j < |owned| :: Keys(owned)[i] != Keys(owned)[j]
  }

  lemma {:induction false} GraphKeysDistinct(provs: seq<string>)
    ensures DistinctKeys(AddGraph([], provs))
  {
    hide Add;
    if provs != [] {
      GraphKeysDistinct(provs[..|provs| - 1]);
      AddKeepsKeysDistinct(AddGraph([], provs[..|provs| - 1]), GraphSlug(provs[|provs| - 1]), provs[|provs| - 1]);
    }
  }

  lemma {:induction false} SourceKeysDistinct(owned: seq<Owned>, anchor: Option<string>, sources: seq<string>)
    requires DistinctKeys(owned)
    ensures DistinctKeys(AddSources(owned, anchor, sources))
  {
    hide Add;
    if sources != [] {
      var n := |sources| - 1;
      SourceKeysDistinct(owned, anchor, sources[..n]);
      AddKeepsKeysDistinct(AddSources(owned, anchor, sources[..n]), SourceSlug(anchor, sources[n]), sources[n]);
    }
  }

  /** Adds one obligation's id under each of its keys. */
  method ListUnder(before: map<string, seq<string>>, owned: seq<Owned>, id: string)
    returns (table: map<string, seq<string>>)
    requires DistinctKeys(owned)
    ensures forall key :: Listed(table, key) == Listed(before, key) + if key in Keys(owned) then [id] else []
  {
    table := before;
    for i := 0 to |owned|
      invariant forall key :: Listed(table, key) == Listed(before, key) + if key in Keys(owned)[..i] then [id] else []
    {
      var key := ProvisionKey(owned[i].slug, owned[i].prov);
      KeyIsNew(owned, i);
      ListedAfter(table, key, id);
      table := table[key := Listed(table, key) + [id]];
    }
    assert Keys(owned)[..|owned|] == Keys(owned);
  }

  lemma KeyIsNew(owned: seq<Owned>, i: nat)
    requires DistinctKeys(owned) && i < |owned|
    ensures var key := ProvisionKey(owned[i].slug, owned[i].prov);
            && key !in Keys(owned)[..i]
            && forall k :: k in Keys(owned)[..i + 1] <==> k in Keys(owned)[..i] || k == key
  {
    assert Keys(owned)[..i + 1] == Keys(owned)[..i] + [Keys(owned)[i]];
  }

  lemma ListedAfter(table: map<string, seq<string>>, key: string, id: string)
    ensures forall k :: Listed(table[key := Listed(table, key) + [id]], k) ==
                        Listed(table, k) + if k == key then [id] else []
  {}

  lemma OneMoreAdopted(adopted: seq<Obligation>, i: nat, edges: seq<Edge>, docs: set<string>)
    requires i < |adopted|
    ensures forall key :: IdsWithKey(adopted[..i + 1], edges, docs, key) ==
                          IdsWithKey(adopted[..i], edges, docs, key) +
                          if key in Keys(OwnedBy(adopted[i], edges, docs)) then [adopted[i].id] else []
  {
    hide OwnedBy;
    assert adopted[..i + 1][..i] == adopted[..i];
  }

  lemma NothingAdopted(edges: seq<Edge>, docs: set<string>)
    ensures forall key :: Listed(map[], key) == IdsWithKey([], edges, docs, key)
  {}

  /** One pass over the adopted obligations. */
  method BuildIndex(adopted: seq<Obligation>, edges: seq<Edge>, docs: set<string>) returns (index: Index)
    requires UniqueIds(adopted)
    ensures forall key :: Listed(index.byProvision, key) == IdsWithKey(adopted, edges, docs, key)
    ensures forall o <- adopted :: o.id in index.provisionsFor && index.provisionsFor[o.id] == OwnedBy(o, edges, docs)
  {
    hide OwnedBy, IdsWithKey, Listed;
    var table: map<string, seq<string>>, provisions: map<string, seq<Owned>> := map[], map[];
    NothingAdopted(edges, docs);
    assert adopted[..0] == [];
    for i := 0 to |adopted|
      invariant forall key :: Listed(table, key) == IdsWithKey(adopted[..i], edges, docs, key)
      invariant forall j | 0 <= j < i ::
                  adopted[j].id in provisions && provisions[adopted[j].id] == OwnedBy(adopted[j], edges, docs)
    {
      var o := adopted[i];
      var owned := OwnedProvisions(o, edges, docs);
      KeysAreDistinct(o, edges, docs);
      provisions := provisions[o.id := owned];
      table := ListUnder(table, owned, o.id);
      OneMoreAdopted(adopted, i, edges, docs);
    }
    assert adopted[..|adopted|] == adopted;
    index := Index(table, provisions);
  }

  lemma KeysAreDistinct(o: Obligation, edges: seq<Edge>, docs: set<string>)
    ensures DistinctKeys(OwnedBy(o, edges, docs))
  {
    GraphKeysDistinct(EdgesTo(edges, o.id));
    SourceKeysDistinct(AddGraph([], EdgesTo(edges, o.id)), AnchorSlug(o, docs), o.derivesFrom);
  }

  // ---------------------------------------------------------------- what the index says

  lemma {:induction false} IdsWithKeyMeans(adopted: seq<Obligation>, edges: seq<Edge>, docs: set<string>, key: string,
                                           id: string)
    requires UniqueIds(adopted)
    ensures id in IdsWithKey(adopted, edges, docs, key) <==>
            exists o :: o in adopted && o.id == id && key in Keys(OwnedBy(o, edges, docs))
    ensures multiset(IdsWithKey(adopted, edges, docs, key))[id] <= 1
  {
    hide OwnedBy;
    if adopted != [] {
      var n := |adopted| - 1;
      var before := IdsWithKey(adopted[..n], edges, docs, key);
      IdsWithKeyMeans(adopted[..n], edges, docs, key, id);
      assert forall o :: o in adopted <==> o in adopted[..n] || o == adopted[n];
      if adopted[n].id == id {
        assert id !in before;
      }
    }
  }

  /** An obligation is listed under the key of a provision exactly when it traces to that provision, and
      then once. */
  lemma ListedExactlyWhenTraced(adopted: seq<Obligation>, edges: seq<Edge>, docs: set<string>, o: Obligation,
                                slug: string, prov: string)
    requires UniqueIds(adopted) && o in adopted && ':' !in slug
    requires PlainSlugs(o, edges, docs)
    ensures multiset(IdsWithKey(adopted, edges, docs, ProvisionKey(slug, prov)))[o.id] ==
            if Traces(o, edges, docs, slug, prov) then 1 else 0
  {
    hide OwnedBy;
    var key := ProvisionKey(slug, prov);
    var owned := OwnedBy(o, edges, docs);
    IdsWithKeyMeans(adopted, edges, docs, key, o.id);
    OwnedIsTraced(o, edges, docs, slug, prov);
    assert forall x | x in adopted && x.id == o.id :: x == o;
    KeyInKeys(owned, slug, prov);
    assert o.id in multiset(IdsWithKey(adopted, edges, docs, key)) <==> o.id in IdsWithKey(adopted, edges, docs, key);
  }

  lemma KeyInKeys(owned: seq<Owned>, slug: string, prov: string)
    requires ColonFree(owned) && ':' !in slug
    ensures ProvisionKey(slug, prov) in Keys(owned) <==> Owned(slug, prov) in owned
  {
    var key := ProvisionKey(slug, prov);
    if key in Keys(owned) {
      var i :| 0 <= i < |owned| && Keys(owned)[i] == key;
      assert owned[i] in owned;
      KeyIsInjective(owned[i].slug, owned[i].prov, slug, prov);
    }
    if Owned(slug, prov) in owned {
      var i :| 0 <= i < |owned| && owned[i] == Owned(slug, prov);
      assert Keys(owned)[i] in Keys(owned);
    }
  }

  // ---------------------------------------------------------------- the reader's two views

  /** A section: its normalised number if it has one, its own id, and its subsections' ids. */
  datatype Section = Section(number: Option<string>, id: string, subsections: seq<string>)

  function AddCandidate(ids: seq<string>, id: string): seq<string> {
    if id in ids then ids else ids + [id]
  }

  function AddSubsections(ids: seq<string>, subs: seq<string>): seq<string> {
    if subs == [] then ids
    else
      var before := AddSubsections(ids, subs[..|subs| - 1]);
      if subs[|subs| - 1] == "" then before else AddCandidate(before, subs[|subs| - 1])
  }

  function Candidates(slug: string, section: Section): seq<string> {
    var numbered :=
      if section.number.Some? && section.number.value != "" then [SectionId(slug, section.number.value)] else [];
    AddSubsections(if section.id == "" then numbered else AddCandidate(numbered, section.id), section.subsections)
  }

  /** `derivedObligationsForSection`: one listing per obligation, whichever of the section's ids it came by. */
  method DerivedObligations(slug: string, section: Section, index: Index) returns (ids: seq<string>)
    ensures forall id :: id in ids <==>
              exists p :: p in Candidates(slug, section) && id in Listed(index.byProvision, ProvisionKey(slug, p))
    ensures forall i, j | 0 <= i < j < |ids| :: ids[i] != ids[j]
  {
    var provs := Candidates(slug, section);
    hide Candidates, ProvisionKey, Listed;
    ids := [];
    for i := 0 to |provs|
      invariant forall id :: id in ids <==>
                  exists p :: p in provs[..i] && id in Listed(index.byProvision, ProvisionKey(slug, p))
      invariant forall i, j | 0 <= i < j < |ids| :: ids[i] != ids[j]
    {
      var list := Listed(index.byProvision, ProvisionKey(slug, provs[i]));
      ghost var start := ids;
      for k := 0 to |list|
        invariant forall id :: id in ids <==> id in start || id in list[..k]
        invariant forall i, j | 0 <= i < j < |ids| :: ids[i] != ids[j]
      {
        if list[k] !in ids {
          ids := ids + [list[k]];
        }
      }
      assert list[..|list|] == list;
      assert forall p :: p in provs[..i + 1] <==> p in provs[..i] || p == provs[i];
    }
    assert provs[..|provs|] == provs;
  }

  /** The provisions of one obligation under one slug. */
  function SourceIds(owned: seq<Owned>, slug: string): seq<string> {
    if owned == [] then []
    else
      var last := owned[|owned| - 1];
      SourceIds(owned[..|owned| - 1], slug) + (if last.slug == slug then [last.prov] else [])
  }

  /** `sourceLinksForObligation`: the obligation's provisions grouped by slug. */
  method SourceLinks(owned: seq<Owned>) returns (links: map<string, seq<string>>)
    ensures forall slug :: slug in links <==> SourceIds(owned, slug) != []
    ensures forall slug | slug in links :: links[slug] == SourceIds(owned, slug)
  {
    links := map[];
    for i := 0 to |owned|
      invariant forall slug :: slug in links <==> SourceIds(owned[..i], slug) != []
      invariant forall slug | slug in links :: links[slug] == SourceIds(owned[..i], slug)
    {
      var o := owned[i];
      assert owned[..i + 1][..i] == owned[..i];
      links := links[o.slug := (if o.slug in links then links[o.slug] else []) + [o.prov]];
    }
    assert owned[..|owned|] == owned;
  }

  lemma {:induction false} SourceIdsMeans(owned: seq<Owned>, slug: string, prov: string)
    ensures prov in SourceIds(owned, slug) <==> Owned(slug, prov) in owned
  {
    if owned != [] {
      SourceIdsMeans(owned[..|owned| - 1], slug, prov);
      assert forall x :: x in owned <==> x in owned[..|owned| - 1] || x == owned[|owned| - 1];
    }
  }

  /** The two views are inverse: a section lists an obligation exactly when the obligation links back, under
      that regulation, to one of the section's ids. */
  lemma ViewsAreInverse(adopted: seq<Obligation>, edges: seq<Edge>, docs: set<string>, index: Index, slug: string,
                        section: Section, o: Obligation)
    requires UniqueIds(adopted) && o in adopted && ':' !in slug
    requires PlainSlugs(o, edges, docs)
    requires forall key :: Listed(index.byProvision, key) == IdsWithKey(adopted, edges, docs, key)
    ensures (exists p ::
               p in Candidates(slug, section) && o.id in Listed(index.byProvision, ProvisionKey(slug, p))) <==>
            (exists p :: p in Candidates(slug, section) && p in SourceIds(OwnedBy(o, edges, docs), slug))
  {
    hide Candidates, OwnedBy, Listed, ProvisionKey;
    forall p
      ensures o.id in Listed(index.byProvision, ProvisionKey(slug, p)) <==>
              p in SourceIds(OwnedBy(o, edges, docs), slug)
    {
      ListedExactlyWhenTraced(adopted, edges, docs, o, slug, p);
      OwnedIsTraced(o, edges, docs, slug, p);
      SourceIdsMeans(OwnedBy(o, edges, docs), slug, p);
      var ids := IdsWithKey(adopted, edges, docs, ProvisionKey(slug, p));
      assert o.id in multiset(ids) <==> o.id in ids;
    }
  }
}
