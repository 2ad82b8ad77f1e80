/** Organization export and import (internal/export/export.go): the manifest of an organization, its
    import into an empty one, and what a second export then says. */
module Export {
  import opened Ports
  import opened Sorting
  import opened EdgeLedger
  import opened Relationships
  import opened AuthzOutbox
  import opened AuthzWorker
  import Mapping

  const FORMAT_VERSION := "context-fabric.export/v1"

  datatype Revision = Revision(revisionID: string, resourceID: string, orgID: string, contentHash: string, evidenceRef: string,
                               sequence: int, state: string, attributes: Attributes, observedAt: int, createdAt: int)

  /** details stands for the registration fields that are copied unread. */
  datatype Source = Source(sourceID: string, orgID: string, signingSecret: string, details: string, attributes: Attributes, createdAt: int, updatedAt: int)

  datatype Tombstone = Tombstone(resourceID: string, revisionID: string, state: string, at: int)

  datatype TupleEntry = TupleEntry(operation: Operation, tuple: Tuple, edgeID: string)

  datatype EvidenceRef = EvidenceRef(key: string, resourceID: string, revisionID: string, contentHash: string)

  /** Everything the manifest hash covers. */
  datatype Payload = Payload(formatVersion: string, orgID: string, records: seq<Record>, revisions: seq<Revision>, sources: seq<Source>,
                             tombstones: seq<Tombstone>, edges: seq<GraphEdge>, tuples: seq<TupleEntry>, evidence: seq<EvidenceRef>)

  datatype Manifest = Manifest(payload: Payload, checksum: string)

  /* ---------- ordered lists of a collection ---------- */

  /** The list is the collection in order, each member once. */
  ghost predicate Lists<T(!new)>(list: seq<T>, all: set<T>, le: (T, T) -> bool) {
    && Distinct(list) && SortedBy(le, list)
    && forall x :: x in list <==> x in all
  }

  ghost predicate Separates<T(!new)>(le: (T, T) -> bool, all: set<T>) {
    TotalOrder(le) && forall x, y :: x in all && y in all && le(x, y) && le(y, x) ==> x == y
  }

  /** So it does not depend on the order in which a map was walked. */
  lemma OneList<T(!new)>(a: seq<T>, b: seq<T>, all: set<T>, le: (T, T) -> bool)
    requires Lists(a, all, le) && Lists(b, all, le) && Separates(le, all)
    ensures a == b
  {
    SortedListsAgree(le, a, b);
  }

  lemma SortLists<T(!new)>(s: seq<T>, all: set<T>, le: (T, T) -> bool)
    requires Distinct(s) && TotalOrder(le) && forall x :: x in s <==> x in all
    ensures Lists(Sort(le, s), all, le)
  {
    SortKeeps(le, s);
    SortSorts(le, s);
  }

  function Map<T, U>(s: seq<T>, f: T -> U): (r: seq<U>)
    ensures |r| == |s| && forall i :: 0 <= i < |r| ==> r[i] == f(s[i])
  {
    if s == [] then [] else Map(s[..|s| - 1], f) + [f(s[|s| - 1])]
  }

  /** A change that keeps the order keys carries lists to lists. */
  lemma MapLists<T(!new), U(!new)>(list: seq<T>, all: set<T>, le: (T, T) -> bool, f: T -> U, all': set<U>, le': (U, U) -> bool)
    requires Lists(list, all, le)
    requires forall x, y :: x in all && y in all && le(x, y) ==> le'(f(x), f(y))
    requires forall x, y :: x in all && y in all && f(x) == f(y) ==> x == y
    requires all' == set x | x in all :: f(x)
    ensures Lists(Map(list, f), all', le')
  {
    var r := Map(list, f);
    forall i, j | 0 <= i < j < |r| ensures r[i] != r[j] && le'(r[i], r[j]) {
      assert list[i] in all && list[j] in all;
    }
    forall y ensures y in r <==> y in all' {
      if y in r {
        var i :| 0 <= i < |r| && r[i] == y;
        assert list[i] in all;
      }
      if y in all' {
        var x :| x in all && f(x) == y;
        var i :| 0 <= i < |list| && list[i] == x;
        assert r[i] == y;
      }
    }
  }

  function By<T>(key: T -> string): (T, T) -> bool {
    (x: T, y: T) => StrLe(key(x), key(y))
  }

  lemma KeyOrder<T(!new)>(key: T -> string)
    ensures TotalOrder(By(key))
    ensures forall x, y :: By(key)(x, y) && By(key)(y, x) ==> key(x) == key(y)
  {
    StrLeIsTotalOrder();
    forall x, y | By(key)(x, y) && By(key)(y, x) ensures key(x) == key(y) {
      StrLeTotal(key(x), key(y));
    }
  }

  /** The values of a map whose keys are part of them. */
  ghost predicate KeyedBy<T>(m: map<string, T>, key: T -> string) {
    forall k :: k in m ==> key(m[k]) == k
  }

  lemma KeysSeparate<T(!new)>(m: map<string, T>, key: T -> string)
    requires KeyedBy(m, key)
    ensures Separates(By(key), m.Values)
  {
    KeyOrder(key);
  }

  /** Walks a map in any order. */
  method ValuesOf<T(==)>(m: map<string, T>, ghost key: T -> string) returns (out: seq<T>)
    requires KeyedBy(m, key)
    ensures Distinct(out) && forall x :: x in out <==> x in m.Values
  {
    out := [];
    var ids := m.Keys;
    while ids != {}
      invariant ids <= m.Keys && Distinct(out)
      invariant forall x :: x in out ==> x in m.Values && key(x) !in ids
      invariant forall k :: k in m && k !in ids ==> m[k] in out
    {
      var k :| k in ids;
      ids := ids - {k};
      assert m[k] !in out;
      out := out + [m[k]];
    }
  }

  /** Writes a list's members, changed by f, into a map under their keys. */
  function Stored<T, U>(base: map<string, U>, list: seq<T>, key: T -> string, f: T -> U): map<string, U> {
    if list == [] then base else Stored(base, list[..|list| - 1], key, f)[key(list[|list| - 1]) := f(list[|list| - 1])]
  }

  ghost predicate DistinctKeys<T>(list: seq<T>, key: T -> string) {
    forall i, j :: 0 <= i < j < |list| ==> key(list[i]) != key(list[j])
  }

  lemma {:induction false} StoredIs<T(!new), U>(list: seq<T>, key: T -> string, f: T -> U)
    requires DistinctKeys(list, key)
    ensures forall k :: k in Stored(map[], list, key, f) <==> exists i :: 0 <= i < |list| && key(list[i]) == k
    ensures forall i :: 0 <= i < |list| ==> key(list[i]) in Stored(map[], list, key, f) && Stored(map[], list, key, f)[key(list[i])] == f(list[i])
  {
    if list != [] {
      var n := |list| - 1;
      StoredIs(list[..n], key, f);
      forall i | 0 <= i < |list|
        ensures key(list[i]) in Stored(map[], list, key, f) && Stored(map[], list, key, f)[key(list[i])] == f(list[i])
      {
        assert i < n ==> list[..n][i] == list[i];
      }
    }
    forall k | k in Stored(map[], list, key, f) ensures exists i :: 0 <= i < |list| && key(list[i]) == k {
      var i := StoredIndex(list, key, f, k);
    }
  }

  lemma {:induction false} StoredIndex<T(!new), U>(list: seq<T>, key: T -> string, f: T -> U, k: string) returns (i: nat)
    requires k in Stored(map[], list, key, f)
    ensures i < |list| && key(list[i]) == k
  {
    i := |list| - 1;
    if key(list[i]) != k {
      i := StoredIndex(list[..i], key, f, k);
    }
  }

  /** f keeps keys and order. */
  ghost predicate Carries<T(!new), U(!new)>(all: set<T>, key: T -> string, le: (T, T) -> bool, f: T -> U, key': U -> string, le': (U, U) -> bool) {
    && (forall x, y :: x in all && y in all && key(x) == key(y) ==> x == y)
    && (forall x :: x in all ==> key'(f(x)) == key(x))
    && (forall x, y :: x in all && y in all && le(x, y) ==> le'(f(x), f(y)))
  }

  /** Storing an exported list and listing it again: the same list, changed by f. */
  lemma StoredLists<T(!new), U(!new)>(list: seq<T>, all: set<T>, key: T -> string, le: (T, T) -> bool, f: T -> U, key': U -> string, le': (U, U) -> bool)
    requires Lists(list, all, le) && Carries(all, key, le, f, key', le')
    ensures KeyedBy(Stored(map[], list, key, f), key') && Lists(Map(list, f), Stored(map[], list, key, f).Values, le')
  {
    forall i, j | 0 <= i < j < |list| ensures key(list[i]) != key(list[j]) {
      assert list[i] in all && list[j] in all;
    }
    StoredIs(list, key, f);
    var m' := Stored(map[], list, key, f);
    forall y ensures y in m'.Values <==> exists x :: x in all && f(x) == y {
      if y in m'.Values {
        var k :| k in m' && m'[k] == y;
        var i :| 0 <= i < |list| && key(list[i]) == k;
        assert list[i] in all;
      }
      if exists x :: x in all && f(x) == y {
        var x :| x in all && f(x) == y;
        var i :| 0 <= i < |list| && list[i] == x;
        assert m'[key(list[i])] == y;
      }
    }
    var image := set x | x in all :: f(x);
    assert image == m'.Values;
    MapLists(list, all, le, f, image, le');
    forall k | k in m' ensures key'(m'[k]) == k {
      var i :| 0 <= i < |list| && key(list[i]) == k;
      assert list[i] in all;
    }
  }

  /* ---------- what is exported ---------- */

  predicate IsSecret(key: string) {
    key in {"secret", "token", "api_key", "password", "authorization", "bearer", "client_secret", "signing_secret"}
  }

  function ScrubSecrets(attributes: Attributes): Attributes {
    map k | k in attributes && !IsSecret(k) :: attributes[k]
  }

  lemma ScrubbingTwice(attributes: Attributes)
    ensures ScrubSecrets(ScrubSecrets(attributes)) == ScrubSecrets(attributes)
  {
  }

  function RecordKey(r: Record): string { r.resourceID }

  function RevisionKey(r: Revision): string { r.revisionID }

  function SourceKey(s: Source): string { s.sourceID }

  function EdgeKey(e: GraphEdge): string { e.edgeID }

  function RefKey(r: EvidenceRef): string { r.key }

  function ScrubRecord(r: Record): Record {
    r.(attributes := ScrubSecrets(r.attributes))
  }

  function ScrubSource(s: Source): Source {
    s.(attributes := ScrubSecrets(s.attributes))
  }

  /** Revisions are grouped by resource. */
  predicate RevisionLe(a: Revision, b: Revision) {
    if a.resourceID != b.resourceID then StrLe(a.resourceID, b.resourceID) else StrLe(a.revisionID, b.revisionID)
  }

  lemma RevisionOrder()
    ensures TotalOrder(RevisionLe)
    ensures forall a, b :: RevisionLe(a, b) && RevisionLe(b, a) ==> a.revisionID == b.revisionID
  {
    StrLeIsTotalOrder();
    forall a, b ensures StrLe(a, b) && StrLe(b, a) ==> a == b {
      StrLeTotal(a, b);
    }
  }

  /** Revisions of exported records. */
  function Reachable(revisions: map<string, Revision>, records: map<string, Record>): set<Revision> {
    set k | k in revisions && revisions[k].resourceID in records :: revisions[k]
  }

  function TombstonesOf(records: seq<Record>): seq<Tombstone> {
    if records == [] then []
    else
      var r := records[|records| - 1];
      TombstonesOf(records[..|records| - 1]) +
      if IsTombstoned(r.state) then [Tombstone(r.resourceID, r.currentRevID, r.state, r.updatedAt)] else []
  }

  predicate LiveSynchronized(e: GraphEdge) {
    e.state == ACTIVE && NeedsSynchronization(e)
  }

  function TuplesOf(edges: seq<GraphEdge>): seq<TupleEntry> {
    if edges == [] then []
    else
      var e := edges[|edges| - 1];
      TuplesOf(edges[..|edges| - 1]) +
      if LiveSynchronized(e) then [TupleEntry(Write, InheritanceTuple(e), e.edgeID)] else []
  }

  predicate TupleLe(a: TupleEntry, b: TupleEntry) {
    if a.tuple.obj != b.tuple.obj then StrLe(a.tuple.obj, b.tuple.obj) else StrLe(a.tuple.subject, b.tuple.subject)
  }

  /** One reference per distinct evidence object, from the first revision that names it. */
  function CollectRefs(revisions: seq<Revision>): seq<EvidenceRef> {
    if revisions == [] then []
    else
      var r, before := revisions[|revisions| - 1], CollectRefs(revisions[..|revisions| - 1]);
      var ref := Mapping.TrimSpace(r.evidenceRef);
      if ref == "" || (exists x :: x in before && x.key == ref) then before
      else before + [EvidenceRef(ref, r.resourceID, r.revisionID, r.contentHash)]
  }

  /** The collections of an organization. */
  datatype Collections = Collections(records: map<string, Record>, revisions: map<string, Revision>, sources: map<string, Source>, edges: EdgeMap)
  {
    ghost predicate Valid() {
      && KeyedBy(records, RecordKey) && KeyedBy(revisions, RevisionKey) && KeyedBy(sources, SourceKey) && KeyedBy(edges, EdgeKey)
      && "" !in records && "" !in edges && forall id :: id in edges ==> edges[id].state != ""
    }
  }

  function ScrubbedRecords(c: Collections): set<Record> {
    set r | r in c.records.Values :: ScrubRecord(r)
  }

  function ScrubbedSources(c: Collections): set<Source> {
    set s | s in c.sources.Values :: ScrubSource(s)
  }

  /** The payload says exactly what the organization holds, of its revisions those chosen. */
  ghost predicate Tells(c: Collections, orgID: string, p: Payload, chosen: set<Revision>) {
    && p.formatVersion == FORMAT_VERSION && p.orgID == orgID
    && Lists(p.records, ScrubbedRecords(c), By(RecordKey))
    && Lists(p.revisions, chosen, RevisionLe)
    && Lists(p.sources, ScrubbedSources(c), By(SourceKey))
    && Lists(p.edges, c.edges.Values, By(EdgeKey))
    && p.tombstones == TombstonesOf(p.records)
    && p.tuples == Sort(TupleLe, TuplesOf(p.edges))
    && p.evidence == Sort(By(RefKey), CollectRefs(p.revisions))
  }

  /** The payload says exactly what the organization holds. */
  ghost predicate Describes(c: Collections, orgID: string, p: Payload) {
    Tells(c, orgID, p, Reachable(c.revisions, c.records))
  }

  /** An organization and the revisions taken along have one description. */
  lemma OneDescription(c: Collections, orgID: string, p: Payload, q: Payload, chosen: set<Revision>)
    requires c.Valid() && chosen <= Reachable(c.revisions, c.records)
    requires Tells(c, orgID, p, chosen) && Tells(c, orgID, q, chosen)
    ensures p == q
  {
    KeyOrder(RecordKey);
    KeyOrder(SourceKey);
    KeyOrder(EdgeKey);
    RevisionOrder();
    OneList(p.records, q.records, ScrubbedRecords(c), By(RecordKey));
    OneList(p.revisions, q.revisions, chosen, RevisionLe);
    OneList(p.sources, q.sources, ScrubbedSources(c), By(SourceKey));
    OneList(p.edges, q.edges, c.edges.Values, By(EdgeKey));
  }

  /* ---------- secrets ---------- */

  predicate HoldsSecret(attributes: Attributes) {
    exists k :: k in attributes && IsSecret(k)
  }

  /** Secrets that a payload spells out: a signing secret, or a secret-named attribute. */
  predicate CarriesSecret(p: Payload) {
    || (exists r :: r in p.records && HoldsSecret(r.attributes))
    || (exists v :: v in p.revisions && HoldsSecret(v.attributes))
    || (exists s :: s in p.sources && (s.signingSecret != "" || HoldsSecret(s.attributes)))
    || (exists e :: e in p.edges && HoldsSecret(e.attributes))
  }

  /** The secrets of an organization that scrubbing does not reach. */
  ghost predicate ExposesSecret(c: Collections, chosen: set<Revision>) {
    || (exists k :: k in c.sources && c.sources[k].signingSecret != "")
    || (exists v :: v in chosen && HoldsSecret(v.attributes))
    || (exists k :: k in c.edges && HoldsSecret(c.edges[k].attributes))
  }

  /** No secret-named attribute of a record or a source is exported, yet a manifest has no secret
      exactly when no source has a signing secret and no exported revision or edge such an attribute. */
  lemma ManifestsCarrySecretsIff(c: Collections, orgID: string, p: Payload, chosen: set<Revision>)
    requires Tells(c, orgID, p, chosen)
    ensures forall r :: r in p.records ==> !HoldsSecret(r.attributes)
    ensures forall s :: s in p.sources ==> !HoldsSecret(s.attributes)
    ensures CarriesSecret(p) <==> ExposesSecret(c, chosen)
  {
    forall r | r in p.records ensures !HoldsSecret(r.attributes) {
      assert r in ScrubbedRecords(c);
    }
    forall s | s in p.sources ensures !HoldsSecret(s.attributes) {
      assert s in ScrubbedSources(c);
    }
    SigningSecretsStay(c, p.sources);
    assert forall v :: v in chosen <==> v in p.revisions;
    forall k | k in c.edges ensures c.edges[k] in p.edges {
      assert c.edges[k] in c.edges.Values;
    }
    if e :| e in p.edges && HoldsSecret(e.attributes) {
      assert e in c.edges.Values;
    }
  }

  lemma SigningSecretsStay(c: Collections, list: seq<Source>)
    requires Lists(list, ScrubbedSources(c), By(SourceKey))
    ensures (exists s :: s in list && s.signingSecret != "") <==> exists k :: k in c.sources && c.sources[k].signingSecret != ""
  {
    if s :| s in list && s.signingSecret != "" {
      var x :| x in c.sources.Values && ScrubSource(x) == s;
      var k :| k in c.sources && c.sources[k] == x;
    }
    if k :| k in c.sources && c.sources[k].signingSecret != "" {
      assert c.sources[k] in c.sources.Values && ScrubSource(c.sources[k]) in ScrubbedSources(c);
      assert ScrubSource(c.sources[k]) in list;
    }
  }

  /** One registered source with a signing secret is enough. */
  lemma SigningSecretIsExported(secret: string) returns (c: Collections, p: Payload)
    requires secret != ""
    ensures c.Valid() && c.sources.Keys == {"src"} && c.sources["src"].attributes == map[]
    ensures Describes(c, "org", p) && CarriesSecret(p) && p.sources != [] && p.sources[0].signingSecret == secret
  {
    var src := Source("src", "org", secret, "", map[], 1, 1);
    c := Collections(map[], map[], map["src" := src], map[]);
    p := Payload(FORMAT_VERSION, "org", [], [], [src], [], [], [], []);
    assert c.sources["src"] == src;
    OneSourceListed(c, src);
    NothingListed(ScrubbedRecords(c), By(RecordKey));
    NothingListed(Reachable(c.revisions, c.records), RevisionLe);
    NothingListed(c.edges.Values, By(EdgeKey));
    assert p.sources[0] == src && src in p.sources;
  }

  lemma OneSourceListed(c: Collections, src: Source)
    requires c.sources == map[src.sourceID := src] && src.attributes == map[]
    ensures Lists([src], ScrubbedSources(c), By(SourceKey))
  {
    assert c.sources.Values == {src} by {
      assert c.sources[src.sourceID] == src;
    }
    assert ScrubSecrets(src.attributes) == map[] && ScrubSource(src) == src;
    assert ScrubbedSources(c) == {src} && [src][0] == src;
  }

  lemma NothingListed<T(!new)>(all: set<T>, le: (T, T) -> bool)
    requires all == {}
    ensures Lists([], all, le)
  {
  }

  /* ---------- what an import stores ---------- */

  function Since(createdAt: int, now: int): int {
    if createdAt == 0 then now else createdAt
  }

  function ImportRecord(orgID: string, now: int): Record -> Record {
    (r: Record) => r.(orgID := orgID, attributes := ScrubSecrets(r.attributes), createdAt := Since(r.createdAt, now), updatedAt := now)
  }

  function ImportRevision(orgID: string, now: int): Revision -> Revision {
    (r: Revision) => r.(orgID := orgID, createdAt := Since(r.createdAt, now))
  }

  function ImportSource(orgID: string, now: int): Source -> Source {
    (s: Source) => s.(orgID := orgID, attributes := ScrubSecrets(s.attributes), createdAt := Since(s.createdAt, now), updatedAt := now)
  }

  function ImportEdge(orgID: string, now: int): GraphEdge -> GraphEdge {
    (e: GraphEdge) => Stamped(e.(orgID := orgID), "", now)
  }

  /** The ledger draws an id for an edge that comes without one. */
  function Identified(e: GraphEdge, freshID: string): GraphEdge {
    if e.edgeID == "" then e.(edgeID := freshID) else e
  }

  /** Edges go through the ledger's upsert one by one; drawn holds the ids drawn on the way. */
  ghost function UpsertAll(base: EdgeMap, edges: seq<GraphEdge>, orgID: string, now: int, drawn: nat -> string): EdgeMap {
    if edges == [] then base
    else
      var n := |edges| - 1;
      Upserted(UpsertAll(base, edges[..n], orgID, now, drawn), ImportEdge(orgID, now)(Identified(edges[n], drawn(n))), now)
  }

  /** What replaying one tombstone writes. */
  function Buried(records: map<string, Record>, t: Tombstone, orgID: string, now: int): Record {
    var r := if t.resourceID in records then records[t.resourceID]
             else Record(t.resourceID, orgID, "resource", t.resourceID, "internal", [], "", "", "", "", map[], 0, 0);
    r.(state := if t.state == "" then TOMBSTONED else t.state, currentRevID := if t.revisionID != "" then t.revisionID else r.currentRevID,
       createdAt := Since(r.createdAt, now), updatedAt := now)
  }

  function Replayed(records: map<string, Record>, tombstones: seq<Tombstone>, orgID: string, now: int): map<string, Record> {
    if tombstones == [] then records
    else
      var before, t := Replayed(records, tombstones[..|tombstones| - 1], orgID, now), tombstones[|tombstones| - 1];
      before[t.resourceID := Buried(before, t, orgID, now)]
  }

  /** The organization after importing a payload. */
  ghost function Imported(c: Collections, p: Payload, orgID: string, now: int, drawn: nat -> string): Collections {
    Collections(
      Replayed(Stored(c.records, p.records, RecordKey, ImportRecord(orgID, now)), p.tombstones, orgID, now),
      Stored(c.revisions, p.revisions, RevisionKey, ImportRevision(orgID, now)),
      Stored(c.sources, p.sources, SourceKey, ImportSource(orgID, now)),
      UpsertAll(c.edges, p.edges, orgID, now, drawn))
  }

  const EMPTY := Collections(map[], map[], map[], map[])

  /* ---------- edges: exactly when they survive ---------- */

  /** Some live edge comes before another edge of the same triple, which its upsert then absorbs. */
  ghost predicate Shadowed(edges: seq<GraphEdge>) {
    exists i, j :: 0 <= i < j < |edges| && edges[i].state == ACTIVE && TripleOf(edges[i]) == TripleOf(edges[j])
  }

  ghost predicate Settled(edges: seq<GraphEdge>) {
    DistinctKeys(edges, EdgeKey) && forall i :: 0 <= i < |edges| ==> edges[i].state != "" && edges[i].edgeID != ""
  }

  lemma {:induction false} UnshadowedAreStored(edges: seq<GraphEdge>, orgID: string, now: int, drawn: nat -> string)
    requires Settled(edges) && !Shadowed(edges)
    ensures UpsertAll(map[], edges, orgID, now, drawn) == Stored(map[], edges, EdgeKey, ImportEdge(orgID, now))
  {
    if edges != [] {
      var n := |edges| - 1;
      FewerUnshadowed(edges, n);
      UnshadowedAreStored(edges[..n], orgID, now, drawn);
      NotYetLive(edges, n, orgID, now);
    }
  }

  lemma FewerUnshadowed(edges: seq<GraphEdge>, n: nat)
    requires Settled(edges) && !Shadowed(edges) && n <= |edges|
    ensures Settled(edges[..n]) && !Shadowed(edges[..n])
  {
    var init := edges[..n];
    forall i, j | 0 <= i < j < n && init[i].state == ACTIVE ensures TripleOf(init[i]) != TripleOf(init[j]) {
      assert init[i] == edges[i] && init[j] == edges[j];
    }
  }

  lemma NotYetLive(edges: seq<GraphEdge>, n: nat, orgID: string, now: int)
    requires Settled(edges) && !Shadowed(edges) && n < |edges|
    ensures !HasActive(Stored(map[], edges[..n], EdgeKey, ImportEdge(orgID, now)), TripleOf(edges[n]))
  {
    var init, m := edges[..n], Stored(map[], edges[..n], EdgeKey, ImportEdge(orgID, now));
    assert forall i :: 0 <= i < n ==> init[i] == edges[i];
    StoredIs(init, EdgeKey, ImportEdge(orgID, now));
    forall k | k in m && m[k].state == ACTIVE ensures TripleOf(m[k]) != TripleOf(edges[n]) {
      var i :| 0 <= i < |init| && EdgeKey(init[i]) == k;
      assert m[k] == ImportEdge(orgID, now)(edges[i]);
    }
  }

  /** A live edge keeps its triple live to the end of the import. */
  lemma {:induction false} LiveTripleStays(edges: seq<GraphEdge>, i: nat, orgID: string, now: int, drawn: nat -> string)
    requires Settled(edges) && i < |edges| && edges[i].state == ACTIVE
    ensures HasActive(UpsertAll(map[], edges, orgID, now, drawn), TripleOf(edges[i]))
  {
    var n := |edges| - 1;
    var init := edges[..n];
    assert forall j :: 0 <= j < n ==> init[j] == edges[j];
    var m, e := UpsertAll(map[], init, orgID, now, drawn), ImportEdge(orgID, now)(edges[n]);
    if i < n {
      LiveTripleStays(init, i, orgID, now, drawn);
      assert forall j :: 0 <= j < n ==> EdgeKey(edges[j]) != EdgeKey(edges[n]);
      if edges[n].edgeID in m {
        KeysAreImported(init, orgID, now, drawn, edges[n].edgeID);
        assert false;
      }
      UpsertKeepsLive(m, e, now, TripleOf(edges[i]));
    } else {
      UpsertMakesLive(m, e, now);
    }
  }

  lemma {:induction false} KeysAreImported(edges: seq<GraphEdge>, orgID: string, now: int, drawn: nat -> string, k: string)
    requires forall i :: 0 <= i < |edges| ==> edges[i].edgeID != ""
    requires k in UpsertAll(map[], edges, orgID, now, drawn)
    ensures exists i :: 0 <= i < |edges| && edges[i].edgeID == k
  {
    var n := |edges| - 1;
    var m := UpsertAll(map[], edges[..n], orgID, now, drawn);
    UpsertAddsOne(m, ImportEdge(orgID, now)(Identified(edges[n], drawn(n))), now);
    if k in m {
      KeysAreImported(edges[..n], orgID, now, drawn, k);
      var i :| 0 <= i < n && edges[..n][i].edgeID == k;
      assert edges[i].edgeID == k;
    } else {
      assert edges[n].edgeID == k;
    }
  }

  lemma {:induction false} NoMoreThanImported(edges: seq<GraphEdge>, orgID: string, now: int, drawn: nat -> string)
    ensures |UpsertAll(map[], edges, orgID, now, drawn)| <= |edges|
  {
    if edges != [] {
      var n := |edges| - 1;
      NoMoreThanImported(edges[..n], orgID, now, drawn);
      UpsertAddsOne(UpsertAll(map[], edges[..n], orgID, now, drawn), ImportEdge(orgID, now)(Identified(edges[n], drawn(n))), now);
    }
  }

  lemma UpsertAddsOne(m: EdgeMap, e: GraphEdge, now: int)
    ensures Upserted(m, e, now).Keys <= m.Keys + {e.edgeID}
    ensures |Upserted(m, e, now)| <= |m| + if HasActive(m, TripleOf(e)) then 0 else 1
  {
    if HasActive(m, TripleOf(e)) {
      var id :| id in m && Upserted(m, e, now) == m[id := Refreshed(m[id], e, now)];
      StoringOne(m, id, Refreshed(m[id], e, now));
    } else {
      StoringOne(m, e.edgeID, e);
    }
  }

  lemma StoringOne<T>(m: map<string, T>, id: string, x: T)
    ensures m[id := x].Keys == m.Keys + {id}
    ensures |m[id := x]| == |m| + if id in m then 0 else 1
  {
    assert m[id := x].Keys == m.Keys + {id};
    assert |m[id := x]| == |m[id := x].Keys| && |m| == |m.Keys|;
    assert id in m ==> m.Keys + {id} == m.Keys;
  }

  lemma UpsertMakesLive(m: EdgeMap, e: GraphEdge, now: int)
    requires e.state == ACTIVE
    ensures HasActive(Upserted(m, e, now), TripleOf(e))
  {
    var m' := Upserted(m, e, now);
    if HasActive(m, TripleOf(e)) {
      var id :| id in m && m[id].state == ACTIVE && TripleOf(m[id]) == TripleOf(e) && m' == m[id := Refreshed(m[id], e, now)];
      assert m'[id].state == ACTIVE && TripleOf(m'[id]) == TripleOf(e);
    } else {
      assert e.edgeID in m';
    }
  }

  lemma UpsertKeepsLive(m: EdgeMap, e: GraphEdge, now: int, t: Triple)
    requires HasActive(m, t) && e.edgeID !in m
    ensures HasActive(Upserted(m, e, now), t)
  {
    var m' := Upserted(m, e, now);
    var k :| k in m && m[k].state == ACTIVE && TripleOf(m[k]) == t;
    assert k in m' && m'[k].state == ACTIVE && TripleOf(m'[k]) == t;
  }

  lemma LastUpsertAddsOne(edges: seq<GraphEdge>, orgID: string, now: int, drawn: nat -> string)
    requires Settled(edges) && edges != []
    ensures var n := |edges| - 1;
            var m := UpsertAll(map[], edges[..n], orgID, now, drawn);
            |m| <= n && |UpsertAll(map[], edges, orgID, now, drawn)| <= |m| + if HasActive(m, TripleOf(edges[n])) then 0 else 1
    ensures Settled(edges[..|edges| - 1])
  {
    var n := |edges| - 1;
    assert forall j :: 0 <= j < n ==> edges[..n][j] == edges[j];
    NoMoreThanImported(edges[..n], orgID, now, drawn);
    UpsertAddsOne(UpsertAll(map[], edges[..n], orgID, now, drawn), ImportEdge(orgID, now)(edges[n]), now);
  }

  /** A shadowed edge leaves no edge of its own. */
  lemma {:induction false} ShadowedAreLost(edges: seq<GraphEdge>, orgID: string, now: int, drawn: nat -> string)
    requires Settled(edges) && Shadowed(edges)
    ensures |UpsertAll(map[], edges, orgID, now, drawn)| < |edges|
  {
    LastUpsertAddsOne(edges, orgID, now, drawn);
    var init := edges[..|edges| - 1];
    if Shadowed(init) {
      ShadowedAreLost(init, orgID, now, drawn);
    } else {
      var i := LastIsShadowed(edges);
      assert init[i] == edges[i];
      LiveTripleStays(init, i, orgID, now, drawn);
    }
  }

  lemma LastIsShadowed(edges: seq<GraphEdge>) returns (i: nat)
    requires Shadowed(edges) && !Shadowed(edges[..|edges| - 1])
    ensures i < |edges| - 1 && edges[i].state == ACTIVE && TripleOf(edges[i]) == TripleOf(edges[|edges| - 1])
  {
    var n := |edges| - 1;
    var init := edges[..n];
    forall a, b | 0 <= a < b < n && edges[a].state == ACTIVE ensures TripleOf(edges[a]) != TripleOf(edges[b]) {
      assert init[a] == edges[a] && init[b] == edges[b];
    }
    var k, j :| 0 <= k < j < |edges| && edges[k].state == ACTIVE && TripleOf(edges[k]) == TripleOf(edges[j]);
    i := k;
  }

  /* ---------- the round trip ---------- */

  lemma {:induction false} TombstonesCarry(records: seq<Record>, orgID: string, now: int)
    ensures TombstonesOf(Map(records, ImportRecord(orgID, now))) == Map(TombstonesOf(records), (t: Tombstone) => t.(at := now))
  {
    if records != [] {
      var n := |records| - 1;
      var f, mapped := ImportRecord(orgID, now), Map(records, ImportRecord(orgID, now));
      TombstonesCarry(records[..n], orgID, now);
      assert mapped[..n] == Map(records[..n], f);
      var all := TombstonesOf(records);
      if IsTombstoned(records[n].state) {
        assert all[..|all| - 1] == TombstonesOf(records[..n]);
      } else {
        assert all == TombstonesOf(records[..n]);
      }
    }
  }

  lemma {:induction false} TuplesCarry(edges: seq<GraphEdge>, orgID: string, now: int)
    requires forall i :: 0 <= i < |edges| ==> edges[i].state != ""
    ensures TuplesOf(Map(edges, ImportEdge(orgID, now))) == TuplesOf(edges)
  {
    if edges != [] {
      var n := |edges| - 1;
      var mapped := Map(edges, ImportEdge(orgID, now));
      TuplesCarry(edges[..n], orgID, now);
      assert mapped[..n] == Map(edges[..n], ImportEdge(orgID, now));
    }
  }

  lemma {:induction false} RefsCarry(revisions: seq<Revision>, orgID: string, now: int)
    ensures CollectRefs(Map(revisions, ImportRevision(orgID, now))) == CollectRefs(revisions)
  {
    if revisions != [] {
      var n := |revisions| - 1;
      var mapped := Map(revisions, ImportRevision(orgID, now));
      RefsCarry(revisions[..n], orgID, now);
      assert mapped[..n] == Map(revisions[..n], ImportRevision(orgID, now));
    }
  }

  lemma {:induction false} TombstonesComeFromRecords(records: seq<Record>, t: Tombstone) returns (r: Record)
    requires t in TombstonesOf(records)
    ensures r in records && IsTombstoned(r.state) && t == Tombstone(r.resourceID, r.currentRevID, r.state, r.updatedAt)
  {
    var n := |records| - 1;
    if t in TombstonesOf(records[..n]) {
      r := TombstonesComeFromRecords(records[..n], t);
    } else {
      r := records[n];
    }
  }

  lemma {:induction false} ReplayChangesNothing(records: map<string, Record>, tombstones: seq<Tombstone>, orgID: string, now: int)
    requires forall t :: t in tombstones ==> t.resourceID in records && Buried(records, t, orgID, now) == records[t.resourceID]
    ensures Replayed(records, tombstones, orgID, now) == records
  {
    if tombstones != [] {
      var n := |tombstones| - 1;
      ReplayChangesNothing(records, tombstones[..n], orgID, now);
      assert tombstones[n] in tombstones;
      assert records[tombstones[n].resourceID := records[tombstones[n].resourceID]] == records;
    }
  }

  /** Replaying a manifest's own tombstones over its own records changes nothing. */
  lemma OwnTombstonesChangeNothing(list: seq<Record>, all: set<Record>, orgID: string, now: int)
    requires Lists(list, all, By(RecordKey)) && DistinctKeys(list, RecordKey)
    ensures var m := Stored(map[], list, RecordKey, ImportRecord(orgID, now));
            Replayed(m, TombstonesOf(list), orgID, now) == m
  {
    var m := Stored(map[], list, RecordKey, ImportRecord(orgID, now));
    StoredIs(list, RecordKey, ImportRecord(orgID, now));
    forall t | t in TombstonesOf(list) ensures t.resourceID in m && Buried(m, t, orgID, now) == m[t.resourceID] {
      var r := TombstonesComeFromRecords(list, t);
      var i :| 0 <= i < |list| && list[i] == r;
      assert m[RecordKey(list[i])] == ImportRecord(orgID, now)(r);
    }
    ReplayChangesNothing(m, TombstonesOf(list), orgID, now);
  }

  lemma ListedKeysDiffer<T(!new)>(list: seq<T>, all: set<T>, le: (T, T) -> bool, key: T -> string)
    requires Lists(list, all, le) && forall x, y :: x in all && y in all && key(x) == key(y) ==> x == y
    ensures DistinctKeys(list, key)
  {
    forall i, j | 0 <= i < j < |list| ensures key(list[i]) != key(list[j]) {
      assert list[i] in all && list[j] in all;
    }
  }

  lemma RecordsCarry(c: Collections, orgID: string, now: int)
    requires c.Valid()
    ensures Carries(ScrubbedRecords(c), RecordKey, By(RecordKey), ImportRecord(orgID, now), RecordKey, By(RecordKey))
  {
  }

  lemma RecordKeysComeBack(c: Collections, list: seq<Record>, orgID: string, now: int)
    requires c.Valid() && Lists(list, ScrubbedRecords(c), By(RecordKey)) && DistinctKeys(list, RecordKey)
    ensures Stored(map[], list, RecordKey, ImportRecord(orgID, now)).Keys == c.records.Keys
  {
    var back := Stored(map[], list, RecordKey, ImportRecord(orgID, now));
    StoredIs(list, RecordKey, ImportRecord(orgID, now));
    forall k ensures k in back <==> k in c.records {
      if k in c.records {
        assert ScrubRecord(c.records[k]) in ScrubbedRecords(c);
        var i :| 0 <= i < |list| && list[i] == ScrubRecord(c.records[k]);
        assert RecordKey(list[i]) == k;
      }
      if k in back {
        var i :| 0 <= i < |list| && RecordKey(list[i]) == k;
        assert list[i] in ScrubbedRecords(c);
      }
    }
  }

  /** Importing exported records into an empty organization, and exporting them again. */
  lemma RecordsComeBack(c: Collections, list: seq<Record>, target: string, now: int)
    requires c.Valid() && Lists(list, ScrubbedRecords(c), By(RecordKey))
    ensures var back := Replayed(Stored(map[], list, RecordKey, ImportRecord(target, now)), TombstonesOf(list), target, now);
            && KeyedBy(back, RecordKey) && back.Keys == c.records.Keys
            && Lists(Map(list, ImportRecord(target, now)), (set r | r in back.Values :: ScrubRecord(r)), By(RecordKey))
  {
    RecordsCarry(c, target, now);
    StoredLists(list, ScrubbedRecords(c), RecordKey, By(RecordKey), ImportRecord(target, now), RecordKey, By(RecordKey));
    ListedKeysDiffer(list, ScrubbedRecords(c), By(RecordKey), RecordKey);
    OwnTombstonesChangeNothing(list, ScrubbedRecords(c), target, now);
    RecordKeysComeBack(c, list, target, now);
    ScrubbedStay(list, target, now);
    ScrubbedSet(Stored(map[], list, RecordKey, ImportRecord(target, now)).Values, Map(list, ImportRecord(target, now)));
  }

  lemma ScrubbedSet(values: set<Record>, list: seq<Record>)
    requires forall r :: r in list <==> r in values
    requires forall r :: r in list ==> ScrubRecord(r) == r
    ensures (set r | r in values :: ScrubRecord(r)) == values
  {
  }

  lemma ScrubbedStay(list: seq<Record>, orgID: string, now: int)
    ensures forall r :: r in Map(list, ImportRecord(orgID, now)) ==> ScrubRecord(r) == r
  {
    forall r | r in Map(list, ImportRecord(orgID, now)) ensures ScrubRecord(r) == r {
      var i :| 0 <= i < |list| && Map(list, ImportRecord(orgID, now))[i] == r;
      ScrubbingTwice(list[i].attributes);
    }
  }

  lemma SourcesComeBack(c: Collections, list: seq<Source>, target: string, now: int)
    requires c.Valid() && Lists(list, ScrubbedSources(c), By(SourceKey))
    ensures var back := Stored(map[], list, SourceKey, ImportSource(target, now));
            && KeyedBy(back, SourceKey)
            && Lists(Map(list, ImportSource(target, now)), (set s | s in back.Values :: ScrubSource(s)), By(SourceKey))
  {
    assert Carries(ScrubbedSources(c), SourceKey, By(SourceKey), ImportSource(target, now), SourceKey, By(SourceKey));
    StoredLists(list, ScrubbedSources(c), SourceKey, By(SourceKey), ImportSource(target, now), SourceKey, By(SourceKey));
    var back := Stored(map[], list, SourceKey, ImportSource(target, now));
    forall s | s in back.Values ensures ScrubSource(s) == s {
      assert s in Map(list, ImportSource(target, now));
      var i :| 0 <= i < |list| && Map(list, ImportSource(target, now))[i] == s;
      ScrubbingTwice(list[i].attributes);
    }
    assert (set s | s in back.Values :: ScrubSource(s)) == back.Values;
  }

  lemma RevisionsCarry(c: Collections, chosen: set<Revision>, target: string, now: int)
    requires c.Valid() && chosen <= Reachable(c.revisions, c.records)
    ensures Carries(chosen, RevisionKey, RevisionLe, ImportRevision(target, now), RevisionKey, RevisionLe)
  {
  }

  lemma RevisionsComeBack(c: Collections, list: seq<Revision>, chosen: set<Revision>, records: map<string, Record>, target: string, now: int)
    requires c.Valid() && chosen <= Reachable(c.revisions, c.records) && Lists(list, chosen, RevisionLe) && records.Keys == c.records.Keys
    ensures var back := Stored(map[], list, RevisionKey, ImportRevision(target, now));
            KeyedBy(back, RevisionKey) && Lists(Map(list, ImportRevision(target, now)), Reachable(back, records), RevisionLe)
  {
    var back := Stored(map[], list, RevisionKey, ImportRevision(target, now));
    RevisionsCarry(c, chosen, target, now);
    StoredLists(list, chosen, RevisionKey, RevisionLe, ImportRevision(target, now), RevisionKey, RevisionLe);
    forall r | r in back.Values ensures r.resourceID in records {
      assert r in Map(list, ImportRevision(target, now));
      var i :| 0 <= i < |list| && Map(list, ImportRevision(target, now))[i] == r;
      assert list[i] in chosen;
    }
    assert Reachable(back, records) == back.Values;
  }

  /** The listed edges as they come back -- if none is shadowed -- or fewer of them. */
  lemma EdgesComeBackIff(c: Collections, list: seq<GraphEdge>, again: seq<GraphEdge>, target: string, now: int, drawn: nat -> string)
    requires c.Valid() && Lists(list, c.edges.Values, By(EdgeKey))
    requires Lists(again, UpsertAll(map[], list, target, now, drawn).Values, By(EdgeKey))
    ensures again == Map(list, ImportEdge(target, now)) <==> !Shadowed(list)
    ensures Shadowed(list) ==> |again| < |list|
    ensures !Shadowed(list) ==> KeyedBy(UpsertAll(map[], list, target, now, drawn), EdgeKey)
  {
    ListedEdgesSettle(c, list);
    if Shadowed(list) {
      ShadowedAreLost(list, target, now, drawn);
      var back := UpsertAll(map[], list, target, now, drawn);
      DistinctCount(again, back.Values);
      FewValues(back);
    } else {
      UnshadowedAreStored(list, target, now, drawn);
      StoredEdgesComeBack(c, list, again, target, now);
    }
  }

  lemma ListedEdgesSettle(c: Collections, list: seq<GraphEdge>)
    requires c.Valid() && Lists(list, c.edges.Values, By(EdgeKey))
    ensures Settled(list)
  {
    ListedKeysDiffer(list, c.edges.Values, By(EdgeKey), EdgeKey);
    forall i | 0 <= i < |list| ensures list[i].state != "" && list[i].edgeID != "" {
      assert list[i] in c.edges.Values;
    }
  }

  lemma StoredEdgesComeBack(c: Collections, list: seq<GraphEdge>, again: seq<GraphEdge>, target: string, now: int)
    requires c.Valid() && Lists(list, c.edges.Values, By(EdgeKey)) && Settled(list)
    requires Lists(again, Stored(map[], list, EdgeKey, ImportEdge(target, now)).Values, By(EdgeKey))
    ensures again == Map(list, ImportEdge(target, now))
    ensures KeyedBy(Stored(map[], list, EdgeKey, ImportEdge(target, now)), EdgeKey)
  {
    var back := Stored(map[], list, EdgeKey, ImportEdge(target, now));
    assert Carries(c.edges.Values, EdgeKey, By(EdgeKey), ImportEdge(target, now), EdgeKey, By(EdgeKey));
    StoredLists(list, c.edges.Values, EdgeKey, By(EdgeKey), ImportEdge(target, now), EdgeKey, By(EdgeKey));
    KeysSeparate(back, EdgeKey);
    OneList(again, Map(list, ImportEdge(target, now)), back.Values, By(EdgeKey));
  }

  lemma {:induction false} FewValues(m: EdgeMap)
    ensures |m.Values| <= |m|
    decreases |m|
  {
    if m != map[] {
      var k :| k in m;
      FewValues(m - {k});
      var rest := m - {k};
      forall v | v in m.Values ensures v in rest.Values + {m[k]} {
        var j :| j in m && m[j] == v;
        assert j != k ==> j in rest && rest[j] == v;
      }
      Subset(m.Values, rest.Values + {m[k]});
    } else {
      assert m.Values == {};
    }
  }

  /** The second payload is the first with the new organization id and import times, evidence and tuples
      unchanged -- edges exactly when no live edge shadows a later one of its triple. */
  ghost predicate ComesBack(p: Payload, q: Payload, target: string, now: int) {
    && q.records == Map(p.records, ImportRecord(target, now))
    && q.revisions == Map(p.revisions, ImportRevision(target, now))
    && q.sources == Map(p.sources, ImportSource(target, now))
    && q.tombstones == Map(p.tombstones, (t: Tombstone) => t.(at := now))
    && q.evidence == p.evidence
    && (q.edges == Map(p.edges, ImportEdge(target, now)) <==> !Shadowed(p.edges))
    && (!Shadowed(p.edges) ==> q.tuples == p.tuples)
  }

  /** An organization exported, imported into an empty one and exported again. */
  lemma RoundTrip(c: Collections, orgID: string, p: Payload, chosen: set<Revision>, target: string, now: int, drawn: nat -> string, q: Payload)
    requires c.Valid() && Tells(c, orgID, p, chosen) && chosen <= Reachable(c.revisions, c.records)
    requires Describes(Imported(EMPTY, p, target, now, drawn), target, q)
    ensures ComesBack(p, q, target, now)
  {
    var d := Imported(EMPTY, p, target, now, drawn);
    RecordsAgain(c, p.records, q.records, target, now);
    TombstonesCarry(p.records, target, now);
    RecordsComeBack(c, p.records, target, now);
    RevisionsAgain(c, p.revisions, q.revisions, chosen, d.records, target, now);
    RefsCarry(p.revisions, target, now);
    SourcesAgain(c, p.sources, q.sources, target, now);
    EdgesComeBackIff(c, p.edges, q.edges, target, now, drawn);
    forall i | 0 <= i < |p.edges| ensures p.edges[i].state != "" {
      assert p.edges[i] in c.edges.Values;
    }
    TuplesCarry(p.edges, target, now);
  }

  lemma RecordsAgain(c: Collections, list: seq<Record>, again: seq<Record>, target: string, now: int)
    requires c.Valid() && Lists(list, ScrubbedRecords(c), By(RecordKey))
    requires var back := Replayed(Stored(map[], list, RecordKey, ImportRecord(target, now)), TombstonesOf(list), target, now);
             Lists(again, (set r | r in back.Values :: ScrubRecord(r)), By(RecordKey))
    ensures again == Map(list, ImportRecord(target, now))
  {
    RecordsComeBack(c, list, target, now);
    KeyOrder(RecordKey);
    var back := Replayed(Stored(map[], list, RecordKey, ImportRecord(target, now)), TombstonesOf(list), target, now);
    OneList(again, Map(list, ImportRecord(target, now)), (set r | r in back.Values :: ScrubRecord(r)), By(RecordKey));
  }

  lemma RevisionsAgain(c: Collections, list: seq<Revision>, again: seq<Revision>, chosen: set<Revision>, records: map<string, Record>,
                       target: string, now: int)
    requires c.Valid() && chosen <= Reachable(c.revisions, c.records) && Lists(list, chosen, RevisionLe) && records.Keys == c.records.Keys
    requires Lists(again, Reachable(Stored(map[], list, RevisionKey, ImportRevision(target, now)), records), RevisionLe)
    ensures again == Map(list, ImportRevision(target, now))
  {
    RevisionsComeBack(c, list, chosen, records, target, now);
    RevisionOrder();
    var back := Reachable(Stored(map[], list, RevisionKey, ImportRevision(target, now)), records);
    OneList(again, Map(list, ImportRevision(target, now)), back, RevisionLe);
  }

  lemma SourcesAgain(c: Collections, list: seq<Source>, again: seq<Source>, target: string, now: int)
    requires c.Valid() && Lists(list, ScrubbedSources(c), By(SourceKey))
    requires Lists(again, (set s | s in Stored(map[], list, SourceKey, ImportSource(target, now)).Values :: ScrubSource(s)), By(SourceKey))
    ensures again == Map(list, ImportSource(target, now))
  {
    SourcesComeBack(c, list, target, now);
    KeyOrder(SourceKey);
    OneList(again, Map(list, ImportSource(target, now)),
            (set s | s in Stored(map[], list, SourceKey, ImportSource(target, now)).Values :: ScrubSource(s)), By(SourceKey));
  }

  /** Edges under deterministic ids are never shadowed, so what intakes alone wrote survives. */
  lemma DeterministicEdgesSurvive(c: Collections, list: seq<GraphEdge>, idOf: Triple -> string)
    requires c.Valid() && DeterministicIDs(c.edges, idOf) && Lists(list, c.edges.Values, By(EdgeKey))
    ensures !Shadowed(list)
  {
    forall i, j | 0 <= i < j < |list| ensures TripleOf(list[i]) != TripleOf(list[j]) {
      assert list[i] in c.edges.Values && list[j] in c.edges.Values;
      assert list[i] != list[j];
    }
  }

  /* ---------- the export service ---------- */

  class Organization {
    const orgID: string
    var records: map<string, Record>
    var revisions: map<string, Revision>
    var sources: map<string, Source>
    const graph: EdgeStore
    const outbox: AuthzLedger

    constructor (orgID: string, graph: EdgeStore, outbox: AuthzLedger)
      ensures this.orgID == orgID && this.graph == graph && this.outbox == outbox
      ensures records == map[] && revisions == map[] && sources == map[]
    {
      this.orgID, this.graph, this.outbox := orgID, graph, outbox;
      records, revisions, sources := map[], map[], map[];
    }

    function Contents(): Collections
      reads this, graph
    {
      Collections(records, revisions, sources, graph.Of(orgID))
    }

    ghost predicate Valid()
      reads this, graph, outbox
    {
      graph.Valid() && outbox.Valid() && Contents().Valid()
    }

    /** The oldest records first, up to the limit. */
    method ListRecords(limit: nat) returns (out: seq<Record>)
      requires Valid()
      ensures Distinct(out) && forall r :: r in out ==> r in records.Values
      ensures |out| == if |records.Values| > limit then limit else |records.Values|
    {
      var all := ValuesOf(records, RecordKey);
      DistinctCount(all, records.Values);
      SortKeeps(CreatedLe, all);
      out := Cut(Sort(CreatedLe, all), limit);
    }

    /** Some revisions of a resource, in any order: all of them when they fit the limit. */
    method ListRevisions(id: string, limit: nat) returns (out: seq<Revision>)
      requires Valid() && limit > 0
      ensures Distinct(out) && forall r :: r in out ==> r in RevisionsAt(revisions, id)
      ensures |out| == if |RevisionsAt(revisions, id)| > limit then limit else |RevisionsAt(revisions, id)|
    {
      out := [];
      var ids := revisions.Keys;
      while ids != {}
        invariant ids <= revisions.Keys && Distinct(out) && |out| < limit
        invariant forall r :: r in out ==> r in RevisionsAt(revisions, id) && r.revisionID !in ids
        invariant forall r :: r in RevisionsAt(revisions, id) && r.revisionID !in ids ==> r in out
      {
        var k :| k in ids;
        ids := ids - {k};
        if revisions[k].resourceID == id {
          out := out + [revisions[k]];
          if |out| >= limit {
            PartOfList(out, RevisionsAt(revisions, id));
            return;
          }
        }
      }
      PartOfList(out, RevisionsAt(revisions, id));
      DistinctCount(out, RevisionsAt(revisions, id));
    }
  }

  predicate CreatedLe(a: Record, b: Record) {
    if a.createdAt != b.createdAt then a.createdAt < b.createdAt else StrLe(a.resourceID, b.resourceID)
  }

  function RevisionsAt(revisions: map<string, Revision>, id: string): set<Revision> {
    set k | k in revisions && revisions[k].resourceID == id :: revisions[k]
  }

  lemma PartOfList<T>(list: seq<T>, all: set<T>)
    requires Distinct(list) && forall x :: x in list ==> x in all
    ensures |list| <= |all| && (|list| == |all| ==> forall x :: x in all ==> x in list)
  {
    var some := set x | x in list;
    DistinctCount(list, some);
    Subset(some, all);
    FullList(list, all, |list|);
  }

  function CapOr(cap: int, otherwise: nat): (n: nat)
    ensures n > 0 || otherwise == 0
  {
    if cap <= 0 then otherwise else cap
  }

  const LISTING_CAP := 10000

  /** No resource has more revisions than one listing returns. */
  ghost predicate RevisionsFit(c: Collections) {
    forall id :: |RevisionsAt(c.revisions, id)| <= LISTING_CAP
  }

  /** Of a set of revisions, those of one resource. */
  function Share(chosen: set<Revision>, id: string): set<Revision> {
    set v | v in chosen && v.resourceID == id
  }

  /** As many of a resource's revisions as one listing returns. */
  ghost predicate Filled(revisions: map<string, Revision>, chosen: set<Revision>, id: string) {
    |Share(chosen, id)| == if |RevisionsAt(revisions, id)| > LISTING_CAP then LISTING_CAP else |RevisionsAt(revisions, id)|
  }

  /** What an export takes along: revisions of its records only, for each record as many as one listing returns. */
  ghost predicate Picks(c: Collections, chosen: set<Revision>) {
    && chosen <= Reachable(c.revisions, c.records)
    && forall id :: id in c.records ==> Filled(c.revisions, chosen, id)
  }

  /** Revisions that fit are all taken along. */
  lemma PicksAll(c: Collections, chosen: set<Revision>, id: string)
    requires Picks(c, chosen) && id in c.records && |RevisionsAt(c.revisions, id)| <= LISTING_CAP
    ensures RevisionsAt(c.revisions, id) <= chosen
  {
    forall v | v in Share(chosen, id) ensures v in RevisionsAt(c.revisions, id) {
      assert v in Reachable(c.revisions, c.records);
    }
    SameSize(Share(chosen, id), RevisionsAt(c.revisions, id));
  }

  lemma SameSize<T>(some: set<T>, all: set<T>)
    requires some <= all && |some| == |all|
    ensures some == all
  {
    assert all == some + (all - some);
    assert |all - some| == 0;
  }

  lemma FittingPicks(c: Collections, chosen: set<Revision>)
    requires Picks(c, chosen) && RevisionsFit(c)
    ensures chosen == Reachable(c.revisions, c.records)
  {
    forall v | v in Reachable(c.revisions, c.records) ensures v in chosen {
      PicksAll(c, chosen, v.resourceID);
      assert v in RevisionsAt(c.revisions, v.resourceID);
    }
  }

  /** The revisions of a payload. */
  function Chosen(p: Payload): set<Revision> {
    set v | v in p.revisions
  }

  ghost predicate Exceeds(c: Collections, recordCap: nat, edgeCap: nat) {
    |c.records.Values| > recordCap || |c.edges.Values| > edgeCap
  }

  /** Exports an organization, unless it has more records or edges than the caps allow: all it holds,
      but of a resource with more revisions than one listing returns, as many as that. */
  method Build(org: Organization, recordCap: int, edgeCap: int, hash: Payload -> string) returns (m: Option<Manifest>)
    requires org.Valid()
    ensures m.None? <==> org.orgID == "" || Exceeds(org.Contents(), CapOr(recordCap, 10000), CapOr(edgeCap, 50000))
    ensures m.Some? ==> m.value.checksum == hash(m.value.payload)
    ensures m.Some? ==> Tells(org.Contents(), org.orgID, m.value.payload, Chosen(m.value.payload))
    ensures m.Some? ==> Picks(org.Contents(), Chosen(m.value.payload))
    ensures m.Some? && RevisionsFit(org.Contents()) ==> Describes(org.Contents(), org.orgID, m.value.payload)
    ensures m.Some? ==> |m.value.payload.records| <= CapOr(recordCap, 10000) && |m.value.payload.edges| <= CapOr(edgeCap, 50000)
  {
    if org.orgID == "" {
      return None;
    }
    var listed := org.ListRecords(CapOr(recordCap, 10000) + 1);
    if |listed| > CapOr(recordCap, 10000) {
      return None;
    }
    var records := SortRecords(org, listed);
    var revisions, chosen := CollectRevisions(org, records);
    var sources := ListSources(org);
    var edges := org.graph.ListEdges(org.orgID, ListOptions([], [], true, CapOr(edgeCap, 50000) + 1));
    AllEdgesListed(org.graph.Of(org.orgID), CapOr(edgeCap, 50000), edges);
    if |edges| > CapOr(edgeCap, 50000) {
      return None;
    }
    SortEdges(org.Contents(), edges);
    edges := Sort(By(EdgeKey), edges);
    var scrubbed := ScrubAll(org, records);
    var payload := Assembled(org.orgID, scrubbed, revisions, sources, edges);
    AssembledTells(org.Contents(), org.orgID, scrubbed, revisions, chosen, sources, edges);
    m := Some(Manifest(payload, hash(payload)));
  }

  function Assembled(orgID: string, records: seq<Record>, revisions: seq<Revision>, sources: seq<Source>, edges: seq<GraphEdge>): Payload {
    Payload(FORMAT_VERSION, orgID, records, revisions, sources, TombstonesOf(records), edges,
            Sort(TupleLe, TuplesOf(edges)), Sort(By(RefKey), CollectRefs(revisions)))
  }

  lemma AssembledTells(c: Collections, orgID: string, records: seq<Record>, revisions: seq<Revision>, chosen: set<Revision>,
                       sources: seq<Source>, edges: seq<GraphEdge>)
    requires Lists(records, ScrubbedRecords(c), By(RecordKey)) && Lists(sources, ScrubbedSources(c), By(SourceKey))
    requires Lists(edges, c.edges.Values, By(EdgeKey)) && Lists(revisions, chosen, RevisionLe) && Picks(c, chosen)
    ensures var p := Assembled(orgID, records, revisions, sources, edges);
            Tells(c, orgID, p, Chosen(p)) && Picks(c, Chosen(p)) && (RevisionsFit(c) ==> Describes(c, orgID, p))
  {
    assert chosen == Chosen(Assembled(orgID, records, revisions, sources, edges));
    if RevisionsFit(c) {
      FittingPicks(c, chosen);
    }
  }

  lemma SortEdges(c: Collections, edges: seq<GraphEdge>)
    requires Distinct(edges) && forall e :: e in edges <==> e in c.edges.Values
    ensures Lists(Sort(By(EdgeKey), edges), c.edges.Values, By(EdgeKey)) && |Sort(By(EdgeKey), edges)| == |edges|
  {
    KeyOrder(EdgeKey);
    SortKeeps(By(EdgeKey), edges);
    SortLists(edges, c.edges.Values, By(EdgeKey));
  }

  lemma AllEdgesListed(m: EdgeMap, cap: nat, listed: seq<GraphEdge>)
    requires Listing(m, ListOptions([], [], true, cap + 1), listed)
    ensures |listed| > cap <==> |m.Values| > cap
    ensures |listed| <= cap ==> forall e :: e in listed <==> e in m.Values
  {
    var some := set e | e in listed;
    DistinctCount(listed, some);
    Subset(some, m.Values);
    if |listed| <= cap {
      forall e | e in m.Values ensures e in listed {
        assert Wanted(e, ListOptions([], [], true, cap + 1));
      }
      assert some == m.Values;
    }
  }

  method SortRecords(org: Organization, listed: seq<Record>) returns (out: seq<Record>)
    requires org.Valid() && Distinct(listed) && |listed| == |org.records.Values|
    requires forall r :: r in listed ==> r in org.records.Values
    ensures Lists(out, org.records.Values, By(RecordKey)) && |out| == |listed|
  {
    SortKeeps(By(RecordKey), listed);
    FullList(listed, org.records.Values, |listed|);
    KeyOrder(RecordKey);
    SortLists(listed, org.records.Values, By(RecordKey));
    out := Sort(By(RecordKey), listed);
  }

  lemma ScrubbedLists(c: Collections, list: seq<Record>)
    requires KeyedBy(c.records, RecordKey) && Lists(list, c.records.Values, By(RecordKey))
    ensures Lists(Map(list, ScrubRecord), ScrubbedRecords(c), By(RecordKey))
  {
    forall x, y | x in c.records.Values && y in c.records.Values && By(RecordKey)(x, y)
      ensures By(RecordKey)(ScrubRecord(x), ScrubRecord(y))
    {
      assert RecordKey(ScrubRecord(x)) == RecordKey(x) && RecordKey(ScrubRecord(y)) == RecordKey(y);
    }
    forall x, y | x in c.records.Values && y in c.records.Values && ScrubRecord(x) == ScrubRecord(y) ensures x == y {
      assert RecordKey(ScrubRecord(x)) == RecordKey(x) && RecordKey(ScrubRecord(y)) == RecordKey(y);
    }
    MapLists(list, c.records.Values, By(RecordKey), ScrubRecord, ScrubbedRecords(c), By(RecordKey));
  }

  lemma ScrubbedSourceLists(c: Collections, list: seq<Source>)
    requires KeyedBy(c.sources, SourceKey) && Lists(list, c.sources.Values, By(SourceKey))
    ensures Lists(Map(list, ScrubSource), ScrubbedSources(c), By(SourceKey))
  {
    forall x, y | x in c.sources.Values && y in c.sources.Values && By(SourceKey)(x, y)
      ensures By(SourceKey)(ScrubSource(x), ScrubSource(y))
    {
      assert SourceKey(ScrubSource(x)) == SourceKey(x) && SourceKey(ScrubSource(y)) == SourceKey(y);
    }
    forall x, y | x in c.sources.Values && y in c.sources.Values && ScrubSource(x) == ScrubSource(y) ensures x == y {
      assert SourceKey(ScrubSource(x)) == SourceKey(x) && SourceKey(ScrubSource(y)) == SourceKey(y);
    }
    MapLists(list, c.sources.Values, By(SourceKey), ScrubSource, ScrubbedSources(c), By(SourceKey));
  }

  method ScrubAll(org: Organization, records: seq<Record>) returns (out: seq<Record>)
    requires org.Valid() && Lists(records, org.records.Values, By(RecordKey))
    ensures Lists(out, ScrubbedRecords(org.Contents()), By(RecordKey)) && |out| == |records|
  {
    ScrubbedLists(org.Contents(), records);
    out := [];
    for i := 0 to |records|
      invariant out == Map(records[..i], ScrubRecord)
    {
      assert records[..i + 1][..i] == records[..i];
      out := out + [ScrubRecord(records[i])];
    }
    assert records[..|records|] == records;
  }

  method ListSources(org: Organization) returns (out: seq<Source>)
    requires org.Valid()
    ensures Lists(out, ScrubbedSources(org.Contents()), By(SourceKey))
  {
    var all := ValuesOf(org.sources, SourceKey);
    KeyOrder(SourceKey);
    SortLists(all, org.sources.Values, By(SourceKey));
    var sorted := Sort(By(SourceKey), all);
    ScrubbedSourceLists(org.Contents(), sorted);
    out := Map(sorted, ScrubSource);
  }

  /** Revisions of the listed records. */
  function Among(revisions: map<string, Revision>, list: seq<Record>): set<Revision> {
    set k | k in revisions && (exists r :: r in list && r.resourceID == revisions[k].resourceID) :: revisions[k]
  }

  lemma EarlierIDs(records: map<string, Record>, list: seq<Record>, i: nat, id: string)
    requires KeyedBy(records, RecordKey) && Lists(list, records.Values, By(RecordKey)) && i < |list|
    requires exists x :: x in list[..i] && x.resourceID == id
    ensures id != list[i].resourceID && StrLe(id, list[i].resourceID)
  {
    var x :| x in list[..i] && x.resourceID == id;
    var j :| 0 <= j < i && list[j] == x;
    assert list[j] in records.Values && list[i] in records.Values && By(RecordKey)(list[j], list[i]);
  }

  lemma NextGroup(records: map<string, Record>, revisions: map<string, Revision>, list: seq<Record>, i: nat,
                  out: seq<Revision>, chosen: set<Revision>, group: seq<Revision>, part: set<Revision>)
    requires KeyedBy(records, RecordKey) && KeyedBy(revisions, RevisionKey)
    requires Lists(list, records.Values, By(RecordKey)) && i < |list|
    requires Lists(out, chosen, RevisionLe) && chosen <= Among(revisions, list[..i])
    requires Lists(group, part, By(RevisionKey)) && part <= RevisionsAt(revisions, list[i].resourceID)
    ensures Lists(out + group, chosen + part, RevisionLe) && chosen + part <= Among(revisions, list[..i + 1])
  {
    var id := list[i].resourceID;
    forall r | r in out ensures r.resourceID != id && StrLe(r.resourceID, id) {
      assert r in Among(revisions, list[..i]);
      EarlierIDs(records, list, i, r.resourceID);
    }
    forall k | 0 <= k < |group| ensures group[k].resourceID == id {
      assert group[k] in part;
    }
    var both := out + group;
    forall k, l | 0 <= k < l < |both| ensures both[k] != both[l] && RevisionLe(both[k], both[l]) {
      if k >= |out| {
        assert By(RevisionKey)(group[k - |out|], group[l - |out|]);
        assert StrLe(RevisionKey(both[k]), RevisionKey(both[l]));
      } else if l >= |out| {
        assert both[k] in out;
      }
    }
    AmongNext(revisions, list, i);
  }

  lemma AmongNext(revisions: map<string, Revision>, list: seq<Record>, i: nat)
    requires i < |list|
    ensures Among(revisions, list[..i + 1]) == Among(revisions, list[..i]) + RevisionsAt(revisions, list[i].resourceID)
  {
    assert list[..i + 1] == list[..i] + [list[i]];
  }

  lemma AmongAll(records: map<string, Record>, revisions: map<string, Revision>, list: seq<Record>)
    requires KeyedBy(records, RecordKey) && Lists(list, records.Values, By(RecordKey))
    ensures Among(revisions, list) == Reachable(revisions, records)
  {
    forall k | k in revisions
      ensures (exists r :: r in list && r.resourceID == revisions[k].resourceID) <==> revisions[k].resourceID in records
    {
      if revisions[k].resourceID in records {
        assert records[revisions[k].resourceID] in list;
      }
    }
  }

  /** One more resource's share leaves the others as they are. */
  lemma NextShare(records: map<string, Record>, revisions: map<string, Revision>, list: seq<Record>, i: nat, chosen: set<Revision>, part: set<Revision>)
    requires KeyedBy(records, RecordKey) && Lists(list, records.Values, By(RecordKey)) && i < |list|
    requires chosen <= Among(revisions, list[..i]) && part <= RevisionsAt(revisions, list[i].resourceID)
    requires forall j :: 0 <= j < i ==> Filled(revisions, chosen, list[j].resourceID)
    requires |part| == if |RevisionsAt(revisions, list[i].resourceID)| > LISTING_CAP then LISTING_CAP else |RevisionsAt(revisions, list[i].resourceID)|
    ensures forall j :: 0 <= j <= i ==> Filled(revisions, chosen + part, list[j].resourceID)
  {
    var id := list[i].resourceID;
    forall v | v in chosen ensures v.resourceID != id {
      assert v in Among(revisions, list[..i]);
      EarlierIDs(records, list, i, v.resourceID);
    }
    assert Share(chosen + part, id) == part;
    forall j | 0 <= j < i ensures Filled(revisions, chosen + part, list[j].resourceID) {
      assert list[..i][j] == list[j];
      EarlierIDs(records, list, i, list[j].resourceID);
      assert Share(chosen + part, list[j].resourceID) == Share(chosen, list[j].resourceID);
    }
  }

  /** Revisions of the records, resource by resource. */
  method CollectRevisions(org: Organization, records: seq<Record>) returns (out: seq<Revision>, ghost chosen: set<Revision>)
    requires org.Valid() && Lists(records, org.records.Values, By(RecordKey))
    ensures Lists(out, chosen, RevisionLe) && Picks(org.Contents(), chosen)
  {
    out, chosen := [], {};
    KeyOrder(RevisionKey);
    for i := 0 to |records|
      invariant Lists(out, chosen, RevisionLe) && chosen <= Among(org.revisions, records[..i])
      invariant forall j :: 0 <= j < i ==> Filled(org.revisions, chosen, records[j].resourceID)
    {
      var group := org.ListRevisions(records[i].resourceID, LISTING_CAP);
      ghost var part := set v | v in group;
      DistinctCount(group, part);
      SortLists(group, part, By(RevisionKey));
      NextGroup(org.records, org.revisions, records, i, out, chosen, Sort(By(RevisionKey), group), part);
      NextShare(org.records, org.revisions, records, i, chosen, part);
      out, chosen := out + Sort(By(RevisionKey), group), chosen + part;
    }
    assert records[..|records|] == records;
    AmongAll(org.records, org.revisions, records);
    AllFilled(org.Contents(), records, chosen);
  }

  lemma AllFilled(c: Collections, list: seq<Record>, chosen: set<Revision>)
    requires KeyedBy(c.records, RecordKey) && Lists(list, c.records.Values, By(RecordKey))
    requires forall j :: 0 <= j < |list| ==> Filled(c.revisions, chosen, list[j].resourceID)
    ensures forall id :: id in c.records ==> Filled(c.revisions, chosen, id)
  {
    forall id | id in c.records ensures Filled(c.revisions, chosen, id) {
      assert c.records[id] in list && RecordKey(c.records[id]) == id;
      var j :| 0 <= j < |list| && list[j] == c.records[id];
    }
  }

  /* ---------- import ---------- */

  function EdgeLog(edges: seq<GraphEdge>): seq<(Operation, Tuple)> {
    if edges == [] then [] else EdgeLog(edges[..|edges| - 1]) + EdgeWork(edges[|edges| - 1])
  }

  function EdgeWork(e: GraphEdge): seq<(Operation, Tuple)> {
    if LiveSynchronized(e) then [(Write, InheritanceTuple(e))] else []
  }

  /** Tuples of the manifest that its live edges do not bring along. */
  function StandaloneLog(tuples: seq<TupleEntry>, seen: set<Tuple>): seq<(Operation, Tuple)> {
    if tuples == [] then []
    else
      var t := tuples[|tuples| - 1];
      StandaloneLog(tuples[..|tuples| - 1], seen) + if t.tuple in seen then [] else [(t.operation, t.tuple)]
  }

  function ImportLog(p: Payload): seq<(Operation, Tuple)> {
    EdgeLog(p.edges) + StandaloneLog(p.tuples, Requested(EdgeLog(p.edges)))
  }

  /** Every row of the manifest passes the ledger's own checks; otherwise the transaction rolls back. */
  predicate Importable(p: Payload) {
    && (forall r :: r in p.records ==> r.resourceID != "")
    && (forall e :: e in p.edges ==> e.fromID != "" && e.toID != "" && e.predicate_ != "" && e.fromID != e.toID)
    && (forall t :: t in p.tombstones ==> t.resourceID != "")
    && (forall t :: t in p.tuples ==> t.tuple.obj != "" && t.tuple.relation != "" && t.tuple.subject != "")
  }

  method ImportRecords(base: map<string, Record>, list: seq<Record>, orgID: string, now: int) returns (out: map<string, Record>)
    ensures out == Stored(base, list, RecordKey, ImportRecord(orgID, now))
  {
    out := base;
    for i := 0 to |list|
      invariant out == Stored(base, list[..i], RecordKey, ImportRecord(orgID, now))
    {
      assert list[..i + 1][..i] == list[..i];
      out := out[list[i].resourceID := ImportRecord(orgID, now)(list[i])];
    }
    assert list[..|list|] == list;
  }

  method ImportRevisions(base: map<string, Revision>, list: seq<Revision>, orgID: string, now: int) returns (out: map<string, Revision>)
    ensures out == Stored(base, list, RevisionKey, ImportRevision(orgID, now))
  {
    out := base;
    for i := 0 to |list|
      invariant out == Stored(base, list[..i], RevisionKey, ImportRevision(orgID, now))
    {
      assert list[..i + 1][..i] == list[..i];
      out := out[list[i].revisionID := ImportRevision(orgID, now)(list[i])];
    }
    assert list[..|list|] == list;
  }

  method ImportSources(base: map<string, Source>, list: seq<Source>, orgID: string, now: int) returns (out: map<string, Source>)
    ensures out == Stored(base, list, SourceKey, ImportSource(orgID, now))
  {
    out := base;
    for i := 0 to |list|
      invariant out == Stored(base, list[..i], SourceKey, ImportSource(orgID, now))
    {
      assert list[..i + 1][..i] == list[..i];
      out := out[list[i].sourceID := ImportSource(orgID, now)(list[i])];
    }
    assert list[..|list|] == list;
  }

  method ReplayTombstones(base: map<string, Record>, tombstones: seq<Tombstone>, orgID: string, now: int) returns (out: map<string, Record>)
    ensures out == Replayed(base, tombstones, orgID, now)
  {
    out := base;
    for i := 0 to |tombstones|
      invariant out == Replayed(base, tombstones[..i], orgID, now)
    {
      assert tombstones[..i + 1][..i] == tombstones[..i];
      out := out[tombstones[i].resourceID := Buried(out, tombstones[i], orgID, now)];
    }
    assert tombstones[..|tombstones|] == tombstones;
  }

  function EdgeTuples(e: GraphEdge): set<Tuple> {
    if LiveSynchronized(e) then {InheritanceTuple(e)} else {}
  }

  lemma SeenGrows(log: seq<(Operation, Tuple)>, e: GraphEdge)
    ensures Requested(log + EdgeWork(e)) == Requested(log) + EdgeTuples(e)
  {
    assert Requested(log + EdgeWork(e)) == Requested(log) + Requested(EdgeWork(e));
    assert EdgeWork(e) == [] || EdgeWork(e) == [(Write, InheritanceTuple(e))];
  }

  /** Upserts the edges and enqueues the inheritance of the live ones. */
  method ImportEdges(graph: EdgeStore, outbox: AuthzLedger, edges: seq<GraphEdge>, orgID: string, now: int, drawn: nat -> string,
                     ghost max: int, ghost run0: Run)
    returns (seen: set<Tuple>, ghost run: Run)
    requires graph.Valid() && LedBy(max, run0, outbox) && orgID != ""
    requires forall i :: 0 <= i < |edges| ==> Acceptable(edges[i].(orgID := orgID))
    modifies graph, outbox`rows, outbox`nextID, outbox`log
    ensures graph.Valid() && LedBy(max, run, outbox) && Continues(max, orgID, run0, run, outbox.rows, outbox.log)
    ensures seen == Requested(EdgeLog(edges)) && outbox.log == old(outbox.log) + EdgeLog(edges)
    ensures graph.Of(orgID) == UpsertAll(old(graph.Of(orgID)), edges, orgID, now, drawn)
    ensures graph.edges - {orgID} == old(graph.edges) - {orgID}
  {
    seen, run := {}, run0;
    ghost var m, log := graph.Of(orgID), outbox.log;
    assert Requested(EdgeLog([])) == {};
    for i := 0 to |edges|
      invariant ImportedSoFar(graph, outbox, edges[..i], orgID, now, drawn, max, run0, run, seen, m, log)
      invariant graph.edges - {orgID} == old(graph.edges) - {orgID}
    {
      assert edges[..i + 1] == edges[..i] + [edges[i]];
      seen, run := ImportNext(graph, outbox, edges[..i], edges[i], orgID, now, drawn, drawn(i), max, run0, run, seen, m, log);
    }
    assert edges[..|edges|] == edges;
  }

  /** What has been written when a prefix of the edges is through. */
  ghost predicate ImportedSoFar(graph: EdgeStore, outbox: AuthzLedger, done: seq<GraphEdge>, orgID: string, now: int, drawn: nat -> string,
                                max: int, run0: Run, run: Run, seen: set<Tuple>, m: EdgeMap, log: seq<(Operation, Tuple)>)
    reads graph, outbox
  {
    && graph.Valid() && LedBy(max, run, outbox) && Continues(max, orgID, run0, run, outbox.rows, outbox.log)
    && Written(graph.Of(orgID), outbox.log, done, orgID, now, drawn, seen, m, log)
  }

  ghost predicate Written(m': EdgeMap, log': seq<(Operation, Tuple)>, done: seq<GraphEdge>, orgID: string, now: int,
                          drawn: nat -> string, seen: set<Tuple>, m: EdgeMap, log: seq<(Operation, Tuple)>)
  {
    seen == Requested(EdgeLog(done)) && m' == UpsertAll(m, done, orgID, now, drawn) && log' == log + EdgeLog(done)
  }

  lemma OneMoreWritten(m': EdgeMap, log': seq<(Operation, Tuple)>, done: seq<GraphEdge>, e: GraphEdge, orgID: string, now: int,
                       drawn: nat -> string, seen: set<Tuple>, m: EdgeMap, log: seq<(Operation, Tuple)>)
    requires Written(m', log', done, orgID, now, drawn, seen, m, log)
    ensures Written(Upserted(m', ImportEdge(orgID, now)(Identified(e, drawn(|done|))), now), log' + EdgeWork(e),
                    done + [e], orgID, now, drawn, seen + EdgeTuples(e), m, log)
  {
    SeenGrows(EdgeLog(done), e);
    assert (done + [e])[..|done|] == done;
    assert log + EdgeLog(done) + EdgeWork(e) == log + (EdgeLog(done) + EdgeWork(e));
  }

  method ImportNext(graph: EdgeStore, outbox: AuthzLedger, ghost done: seq<GraphEdge>, e: GraphEdge, orgID: string, now: int,
                    ghost drawn: nat -> string, freshID: string, ghost max: int, ghost run0: Run, ghost run1: Run,
                    seen0: set<Tuple>, ghost m: EdgeMap, ghost log: seq<(Operation, Tuple)>)
    returns (seen: set<Tuple>, ghost run: Run)
    requires ImportedSoFar(graph, outbox, done, orgID, now, drawn, max, run0, run1, seen0, m, log) && freshID == drawn(|done|)
    requires orgID != "" && Acceptable(e.(orgID := orgID))
    modifies graph, outbox`rows, outbox`nextID, outbox`log
    ensures ImportedSoFar(graph, outbox, done + [e], orgID, now, drawn, max, run0, run, seen, m, log)
    ensures graph.edges - {orgID} == old(graph.edges) - {orgID}
  {
    ghost var rows1, log1 := outbox.rows, outbox.log;
    OneMoreWritten(graph.Of(orgID), log1, done, e, orgID, now, drawn, seen0, m, log);
    run := ImportEdgeRow(graph, outbox, e, orgID, now, freshID, max, run1);
    ContinuesFurther(max, orgID, run0, run1, rows1, log1, run, outbox.rows, outbox.log);
    seen := seen0 + EdgeTuples(e);
  }

  lemma StampedAsImported(e: GraphEdge, orgID: string, now: int, freshID: string)
    ensures ImportEdge(orgID, now)(Identified(e, freshID)) == Stamped(e.(orgID := orgID), freshID, now)
    ensures EdgeWork(e.(orgID := orgID)) == EdgeWork(e)
  {
  }

  method ImportEdgeRow(graph: EdgeStore, outbox: AuthzLedger, e: GraphEdge, orgID: string, now: int, freshID: string, ghost max: int, ghost run0: Run)
    returns (ghost run: Run)
    requires graph.Valid() && LedBy(max, run0, outbox) && orgID != "" && Acceptable(e.(orgID := orgID))
    modifies graph, outbox`rows, outbox`nextID, outbox`log
    ensures graph.Valid() && LedBy(max, run, outbox) && Continues(max, orgID, run0, run, outbox.rows, outbox.log)
    ensures graph.Of(orgID) == Upserted(old(graph.Of(orgID)), ImportEdge(orgID, now)(Identified(e, freshID)), now)
    ensures graph.edges - {orgID} == old(graph.edges) - {orgID}
    ensures outbox.log == old(outbox.log) + EdgeWork(e)
  {
    StampedAsImported(e, orgID, now, freshID);
    var ok := graph.UpsertEdge(e.(orgID := orgID), freshID, now);
    run := EnqueueLive(outbox, e.(orgID := orgID), max, run0);
  }

  /** Inheritance is asked for live edges only. */
  method EnqueueLive(outbox: AuthzLedger, e: GraphEdge, ghost max: int, ghost run0: Run) returns (ghost run: Run)
    requires LedBy(max, run0, outbox) && e.orgID != ""
    modifies outbox`rows, outbox`nextID, outbox`log
    ensures LedBy(max, run, outbox) && Continues(max, e.orgID, run0, run, outbox.rows, outbox.log)
    ensures outbox.log == old(outbox.log) + EdgeWork(e)
  {
    run := run0;
    if e.state == ACTIVE {
      run := EnqueueEdgeWork(outbox, e, Write, max, run0);
    }
  }

  method ImportTuples(outbox: AuthzLedger, tuples: seq<TupleEntry>, seen: set<Tuple>, orgID: string, ghost max: int, ghost run0: Run)
    returns (ghost run: Run)
    requires LedBy(max, run0, outbox) && orgID != ""
    requires forall t :: t in tuples ==> t.tuple.obj != "" && t.tuple.relation != "" && t.tuple.subject != ""
    modifies outbox`rows, outbox`nextID, outbox`log
    ensures LedBy(max, run, outbox) && Continues(max, orgID, run0, run, outbox.rows, outbox.log)
    ensures outbox.log == old(outbox.log) + StandaloneLog(tuples, seen)
  {
    run := run0;
    ghost var log := StandaloneLog([], seen);
    for i := 0 to |tuples|
      invariant LedBy(max, run, outbox) && Continues(max, orgID, run0, run, outbox.rows, outbox.log)
      invariant log == StandaloneLog(tuples[..i], seen) && outbox.log == old(outbox.log) + log
    {
      var t := tuples[i];
      assert tuples[..i + 1][..i] == tuples[..i];
      if t.tuple !in seen {
        ghost var run1, rows1, log1 := run, outbox.rows, outbox.log;
        run := EnqueueWork(outbox, orgID, t.operation, t.tuple, t.edgeID, max, run1);
        ContinuesFurther(max, orgID, run0, run1, rows1, log1, run, outbox.rows, outbox.log);
        log := log + [(t.operation, t.tuple)];
      }
    }
    assert tuples[..|tuples|] == tuples;
  }

  /** The checks before anything is written. */
  predicate Accepted(orgID: string, m: Manifest, hash: Payload -> string) {
    && orgID != "" && m.payload.formatVersion == FORMAT_VERSION
    && m.checksum != "" && m.checksum == hash(m.payload)
    && Importable(m.payload)
  }

  /* ---------- imports keep organizations valid ---------- */

  lemma {:induction false} StoredStaysKeyed<T(!new), U>(base: map<string, U>, list: seq<T>, key: T -> string, f: T -> U, key': U -> string)
    requires KeyedBy(base, key') && forall x :: x in list ==> key'(f(x)) == key(x)
    ensures KeyedBy(Stored(base, list, key, f), key')
    ensures forall id :: id in Stored(base, list, key, f) ==> id in base || exists x :: x in list && key(x) == id
  {
    if list != [] {
      StoredStaysKeyed(base, list[..|list| - 1], key, f, key');
    }
  }

  lemma {:induction false} ReplayedStaysKeyed(records: map<string, Record>, tombstones: seq<Tombstone>, orgID: string, now: int)
    requires KeyedBy(records, RecordKey) && "" !in records && forall t :: t in tombstones ==> t.resourceID != ""
    ensures KeyedBy(Replayed(records, tombstones, orgID, now), RecordKey) && "" !in Replayed(records, tombstones, orgID, now)
  {
    if tombstones != [] {
      ReplayedStaysKeyed(records, tombstones[..|tombstones| - 1], orgID, now);
    }
  }

  ghost predicate Stateful(m: EdgeMap) {
    KeyedBy(m, EdgeKey) && "" !in m && forall id :: id in m ==> m[id].state != ""
  }

  lemma UpsertStaysStateful(m: EdgeMap, e: GraphEdge, now: int)
    requires Stateful(m) && e.edgeID != "" && e.state != ""
    ensures Stateful(Upserted(m, e, now))
  {
  }

  lemma {:induction false} UpsertAllStaysStateful(base: EdgeMap, edges: seq<GraphEdge>, orgID: string, now: int, drawn: nat -> string)
    requires Stateful(base) && forall i :: drawn(i) != ""
    ensures Stateful(UpsertAll(base, edges, orgID, now, drawn))
  {
    if edges != [] {
      var n := |edges| - 1;
      UpsertAllStaysStateful(base, edges[..n], orgID, now, drawn);
      UpsertStaysStateful(UpsertAll(base, edges[..n], orgID, now, drawn), ImportEdge(orgID, now)(Identified(edges[n], drawn(n))), now);
    }
  }

  /** Whatever an acceptable manifest says, the organization is fit for an export afterwards. */
  lemma ImportedStaysValid(c: Collections, p: Payload, orgID: string, now: int, drawn: nat -> string)
    requires c.Valid() && Importable(p) && forall i :: drawn(i) != ""
    ensures Imported(c, p, orgID, now, drawn).Valid()
  {
    StoredStaysKeyed(c.records, p.records, RecordKey, ImportRecord(orgID, now), RecordKey);
    ReplayedStaysKeyed(Stored(c.records, p.records, RecordKey, ImportRecord(orgID, now)), p.tombstones, orgID, now);
    StoredStaysKeyed(c.revisions, p.revisions, RevisionKey, ImportRevision(orgID, now), RevisionKey);
    StoredStaysKeyed(c.sources, p.sources, SourceKey, ImportSource(orgID, now), SourceKey);
    UpsertAllStaysStateful(c.edges, p.edges, orgID, now, drawn);
  }

  /** Loads a manifest into an organization, after checking its format and its hash; drawn holds
      the ids that the ledger draws. */
  method ImportInto(org: Organization, m: Manifest, now: int, hash: Payload -> string, drawn: nat -> string, ghost max: int, ghost run0: Run)
    returns (ok: bool, ghost run: Run)
    requires org.graph.Valid() && LedBy(max, run0, org.outbox)
    modifies org, org.graph, org.outbox`rows, org.outbox`nextID, org.outbox`log
    ensures org.graph.Valid() && (ok <==> Accepted(org.orgID, m, hash))
    ensures LedBy(max, run, org.outbox) && Continues(max, org.orgID, run0, run, org.outbox.rows, org.outbox.log)
    ensures org.graph.edges - {org.orgID} == old(org.graph.edges) - {org.orgID}
    ensures !ok ==> org.Contents() == old(org.Contents()) && org.outbox.rows == old(org.outbox.rows)
    ensures ok ==> org.Contents() == Imported(old(org.Contents()), m.payload, org.orgID, now, drawn)
    ensures old(org.Contents()).Valid() && (forall i :: drawn(i) != "") ==> org.Valid()
    ensures ok ==> Queued(org.orgID, old(org.outbox.rows), old(org.outbox.log), org.outbox.rows, org.outbox.log, ImportLog(m.payload))
  {
    ok, run := Accepted(org.orgID, m, hash), run0;
    if ok {
      ImportCollections(org, m.payload, now);
      run := ImportWork(org, m.payload, now, drawn, max, run0);
      if old(org.Contents()).Valid() && forall i :: drawn(i) != "" {
        ImportedStaysValid(old(org.Contents()), m.payload, org.orgID, now, drawn);
      }
    }
  }

  method ImportCollections(org: Organization, p: Payload, now: int)
    modifies org
    ensures org.records == Replayed(Stored(old(org.records), p.records, RecordKey, ImportRecord(org.orgID, now)), p.tombstones, org.orgID, now)
    ensures org.revisions == Stored(old(org.revisions), p.revisions, RevisionKey, ImportRevision(org.orgID, now))
    ensures org.sources == Stored(old(org.sources), p.sources, SourceKey, ImportSource(org.orgID, now))
  {
    var records := ImportRecords(org.records, p.records, org.orgID, now);
    var revisions := ImportRevisions(org.revisions, p.revisions, org.orgID, now);
    var sources := ImportSources(org.sources, p.sources, org.orgID, now);
    records := ReplayTombstones(records, p.tombstones, org.orgID, now);
    org.records, org.revisions, org.sources := records, revisions, sources;
  }

  lemma ImportLogInParts(log: seq<(Operation, Tuple)>, p: Payload, seen: set<Tuple>)
    requires seen == Requested(EdgeLog(p.edges))
    ensures log + EdgeLog(p.edges) + StandaloneLog(p.tuples, seen) == log + ImportLog(p)
  {
  }

  method ImportWork(org: Organization, p: Payload, now: int, drawn: nat -> string, ghost max: int, ghost run0: Run) returns (ghost run: Run)
    requires org.graph.Valid() && LedBy(max, run0, org.outbox) && org.orgID != "" && Importable(p)
    modifies org.graph, org.outbox`rows, org.outbox`nextID, org.outbox`log
    ensures org.graph.Valid() && LedBy(max, run, org.outbox) && Continues(max, org.orgID, run0, run, org.outbox.rows, org.outbox.log)
    ensures org.graph.Of(org.orgID) == UpsertAll(old(org.graph.Of(org.orgID)), p.edges, org.orgID, now, drawn)
    ensures org.graph.edges - {org.orgID} == old(org.graph.edges) - {org.orgID}
    ensures Queued(org.orgID, old(org.outbox.rows), old(org.outbox.log), org.outbox.rows, org.outbox.log, ImportLog(p))
  {
    ghost var rows, log := org.outbox.rows, org.outbox.log;
    var seen;
    ghost var run1;
    seen, run1 := ImportEdges(org.graph, org.outbox, p.edges, org.orgID, now, drawn, max, run0);
    ghost var rows1, log1 := org.outbox.rows, org.outbox.log;
    run := ImportTuples(org.outbox, p.tuples, seen, org.orgID, max, run1);
    ContinuesFurther(max, org.orgID, run0, run1, rows1, log1, run, org.outbox.rows, org.outbox.log);
    ImportLogInParts(log, p, seen);
    StretchQueues(max, org.orgID, run0, run, rows, log, org.outbox.rows, org.outbox.log, ImportLog(p));
  }

  /** A manifest's own tuples all come with its live edges, so the import enqueues exactly those. */
  lemma OwnTuplesComeWithEdges(p: Payload)
    requires p.tuples == Sort(TupleLe, TuplesOf(p.edges))
    ensures StandaloneLog(p.tuples, Requested(EdgeLog(p.edges))) == []
    ensures Requested(ImportLog(p)) == set t | t in p.tuples :: t.tuple
  {
    SortKeepsMembers(TuplesOf(p.edges));
    TuplesAreLogged(p.edges);
    AllSeen(p.tuples, Requested(EdgeLog(p.edges)));
    assert ImportLog(p) == EdgeLog(p.edges);
  }

  lemma SortKeepsMembers(s: seq<TupleEntry>)
    ensures forall x :: x in Sort(TupleLe, s) <==> x in s
  {
    SortPermutes(TupleLe, s);
    forall x ensures x in Sort(TupleLe, s) <==> x in s {
      assert x in s <==> x in multiset(s);
      assert x in Sort(TupleLe, s) <==> x in multiset(Sort(TupleLe, s));
    }
  }

  lemma {:induction false} TuplesAreLogged(edges: seq<GraphEdge>)
    ensures (set t | t in TuplesOf(edges) :: t.tuple) == Requested(EdgeLog(edges))
  {
    if edges != [] {
      var n := |edges| - 1;
      var e := edges[n];
      TuplesAreLogged(edges[..n]);
      var more := if LiveSynchronized(e) then [TupleEntry(Write, InheritanceTuple(e), e.edgeID)] else [];
      assert TuplesOf(edges) == TuplesOf(edges[..n]) + more;
      assert (set t | t in TuplesOf(edges[..n]) + more :: t.tuple)
          == (set t | t in TuplesOf(edges[..n]) :: t.tuple) + (set t | t in more :: t.tuple);
      assert Requested(EdgeLog(edges[..n]) + EdgeWork(e)) == Requested(EdgeLog(edges[..n])) + Requested(EdgeWork(e));
      assert (set t | t in more :: t.tuple) == Requested(EdgeWork(e));
    }
  }

  lemma {:induction false} AllSeen(tuples: seq<TupleEntry>, seen: set<Tuple>)
    requires forall t :: t in tuples ==> t.tuple in seen
    ensures StandaloneLog(tuples, seen) == []
  {
    if tuples != [] {
      assert tuples[|tuples| - 1] in tuples;
      AllSeen(tuples[..|tuples| - 1], seen);
    }
  }

  /** What a ledger exports, an import can take. */
  lemma ExportsAreImportable(c: Collections, orgID: string, p: Payload, chosen: set<Revision>)
    requires c.Valid() && Tells(c, orgID, p, chosen)
    requires WellFormed(c.edges)
    ensures Importable(p)
  {
    forall r | r in p.records ensures r.resourceID != "" {
      var x :| x in c.records.Values && r == ScrubRecord(x);
      assert x.resourceID in c.records by {
        var k :| k in c.records && c.records[k] == x;
        assert RecordKey(x) == k;
      }
    }
    forall e | e in p.edges ensures e.fromID != "" && e.toID != "" && e.predicate_ != "" && e.fromID != e.toID {
      assert e in c.edges.Values;
    }
    forall t | t in p.tombstones ensures t.resourceID != "" {
      var r := TombstonesComeFromRecords(p.records, t);
    }
    SortKeepsMembers(TuplesOf(p.edges));
    TuplesAreComplete(p.edges);
  }

  lemma {:induction false} TuplesAreComplete(edges: seq<GraphEdge>)
    ensures forall t :: t in TuplesOf(edges) ==> t.tuple.obj != "" && t.tuple.relation != "" && t.tuple.subject != ""
  {
    if edges != [] {
      TuplesAreComplete(edges[..|edges| - 1]);
    }
  }

  /* ---------- export, import, export ---------- */

  lemma {:induction false} ImageSize<T(!new), U>(s: set<T>, f: T -> U, image: set<U>)
    requires forall y :: y in image ==> exists x :: x in s && f(x) == y
    ensures |image| <= |s|
  {
    if image != {} {
      var y :| y in image;
      var x :| x in s && f(x) == y;
      ImageSize(s - {x}, f, image - {y});
    }
  }

  /** What was exported fits one listing per resource. */
  lemma ImportedRevisionsFit(c: Collections, p: Payload, target: string, now: int, drawn: nat -> string)
    requires c.Valid() && Tells(c, p.orgID, p, Chosen(p)) && Picks(c, Chosen(p))
    ensures RevisionsFit(Imported(EMPTY, p, target, now, drawn))
  {
    var f := ImportRevision(target, now);
    var back := Stored(map[], p.revisions, RevisionKey, f);
    RevisionsCarry(c, Chosen(p), target, now);
    StoredLists(p.revisions, Chosen(p), RevisionKey, RevisionLe, f, RevisionKey, RevisionLe);
    forall id ensures |RevisionsAt(back, id)| <= LISTING_CAP {
      ShareIsSmall(c, Chosen(p), id);
      ImportedShare(p.revisions, Chosen(p), back, target, now, id);
    }
  }

  lemma ImportedShare(list: seq<Revision>, chosen: set<Revision>, back: map<string, Revision>, target: string, now: int, id: string)
    requires forall v :: v in list ==> v in chosen
    requires forall r :: r in back.Values ==> r in Map(list, ImportRevision(target, now))
    ensures |RevisionsAt(back, id)| <= |Share(chosen, id)|
  {
    var f := ImportRevision(target, now);
    forall r | r in RevisionsAt(back, id) ensures exists v :: v in Share(chosen, id) && f(v) == r {
      assert r in Map(list, f);
      var i :| 0 <= i < |list| && Map(list, f)[i] == r;
      assert list[i] in Share(chosen, id);
    }
    ImageSize(Share(chosen, id), f, RevisionsAt(back, id));
  }

  lemma ShareIsSmall(c: Collections, chosen: set<Revision>, id: string)
    requires Picks(c, chosen)
    ensures |Share(chosen, id)| <= LISTING_CAP
  {
    if id !in c.records {
      assert Share(chosen, id) == {};
    } else {
      assert Filled(c.revisions, chosen, id);
    }
  }

  /** An imported organization has no more records and edges than its manifest. */
  lemma ImportedIsNoLarger(c: Collections, p: Payload, target: string, now: int, drawn: nat -> string)
    requires c.Valid() && Tells(c, p.orgID, p, Chosen(p))
    ensures var d := Imported(EMPTY, p, target, now, drawn);
            |d.records.Values| <= |p.records| && |d.edges.Values| <= |p.edges|
  {
    var d := Imported(EMPTY, p, target, now, drawn);
    RecordsComeBack(c, p.records, target, now);
    ListedKeysDiffer(p.records, ScrubbedRecords(c), By(RecordKey), RecordKey);
    OwnTombstonesChangeNothing(p.records, ScrubbedRecords(c), target, now);
    RecordsCarry(c, target, now);
    StoredLists(p.records, ScrubbedRecords(c), RecordKey, By(RecordKey), ImportRecord(target, now), RecordKey, By(RecordKey));
    DistinctCount(Map(p.records, ImportRecord(target, now)), d.records.Values);
    NoMoreThanImported(p.edges, target, now, drawn);
    FewValues(d.edges);
  }

  /** The second half: into the empty organization, and out again. */
  method ImportAndBuild(target: Organization, m: Manifest, recordCap: int, edgeCap: int, now: int, hash: Payload -> string, drawn: nat -> string,
                        ghost max: int, ghost run0: Run)
    returns (again: Option<Manifest>, ghost run: Run)
    requires target.graph.Valid() && LedBy(max, run0, target.outbox) && target.Contents() == EMPTY
    requires Accepted(target.orgID, m, hash) && forall i :: drawn(i) != ""
    requires RevisionsFit(Imported(EMPTY, m.payload, target.orgID, now, drawn))
    requires !Exceeds(Imported(EMPTY, m.payload, target.orgID, now, drawn), CapOr(recordCap, 10000), CapOr(edgeCap, 50000))
    modifies target, target.graph, target.outbox`rows, target.outbox`nextID, target.outbox`log
    ensures target.Contents() == Imported(EMPTY, m.payload, target.orgID, now, drawn)
    ensures LedBy(max, run, target.outbox) && Continues(max, target.orgID, run0, run, target.outbox.rows, target.outbox.log)
    ensures again.Some? && Describes(target.Contents(), target.orgID, again.value.payload)
  {
    var ok;
    assert EMPTY.Valid();
    ok, run := ImportInto(target, m, now, hash, drawn, max, run0);
    again := Build(target, recordCap, edgeCap, hash);
  }

  /** What an export of a valid organization hands to the import. */
  lemma ExportsMove(c: Collections, p: Payload, target: string, now: int, drawn: nat -> string)
    requires c.Valid() && WellFormed(c.edges) && Tells(c, p.orgID, p, Chosen(p)) && Picks(c, Chosen(p))
    ensures Importable(p) && RevisionsFit(Imported(EMPTY, p, target, now, drawn))
    ensures forall recordCap, edgeCap | |p.records| <= recordCap && |p.edges| <= edgeCap ::
              !Exceeds(Imported(EMPTY, p, target, now, drawn), recordCap, edgeCap)
  {
    ExportsAreImportable(c, p.orgID, p, Chosen(p));
    ImportedRevisionsFit(c, p, target, now, drawn);
    ImportedIsNoLarger(c, p, target, now, drawn);
  }

  /** Exports an organization, imports the manifest into an empty one and exports that again: under caps
      that admit the first export the second one succeeds too, and says the same. */
  method Move(org: Organization, target: Organization, recordCap: int, edgeCap: int, now: int, hash: Payload -> string, drawn: nat -> string,
              ghost max: int, ghost run0: Run)
    returns (first: Option<Manifest>, second: Option<Manifest>, ghost run: Run)
    requires org.Valid() && target.graph.Valid() && LedBy(max, run0, target.outbox)
    requires target.orgID != "" && target.Contents() == EMPTY
    requires (forall p :: hash(p) != "") && forall i :: drawn(i) != ""
    modifies target, target.graph, target.outbox`rows, target.outbox`nextID, target.outbox`log
    ensures first.None? <==> org.orgID == "" || Exceeds(old(org.Contents()), CapOr(recordCap, 10000), CapOr(edgeCap, 50000))
    ensures second.Some? <==> first.Some?
    ensures LedBy(max, run, target.outbox) && Continues(max, target.orgID, run0, run, target.outbox.rows, target.outbox.log)
    ensures first.Some? ==> ComesBack(first.value.payload, second.value.payload, target.orgID, now)
    ensures first.Some? ==> Tells(old(org.Contents()), org.orgID, first.value.payload, Chosen(first.value.payload))
    ensures first.Some? ==> Picks(old(org.Contents()), Chosen(first.value.payload))
    ensures first.Some? ==> Describes(target.Contents(), target.orgID, second.value.payload)
  {
    second, run := None, run0;
    first := Build(org, recordCap, edgeCap, hash);
    if first.Some? {
      ghost var c, p := org.Contents(), first.value.payload;
      ExportsMove(c, p, target.orgID, now, drawn);
      second, run := ImportAndBuild(target, first.value, recordCap, edgeCap, now, hash, drawn, max, run0);
      RoundTrip(c, org.orgID, p, Chosen(p), target.orgID, now, drawn, second.value.payload);
    }
  }
}
