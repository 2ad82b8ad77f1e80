/** The graph edges of internal/adapters/memory/ledger.go: in-place upserts and tombstones,
    and the filtered, ordered and limited listing every graph query starts from. */
module EdgeLedger {
  import opened Ports
  import opened Sorting

  type EdgeMap = map<string, GraphEdge>

  function TripleOf(e: GraphEdge): Triple {
    Triple(e.fromID, e.predicate_, e.toID)
  }

  datatype ListOptions = ListOptions(resourceIDs: seq<string>, predicates: seq<string>, includeDead: bool, limit: int)

  predicate Wanted(e: GraphEdge, opts: ListOptions) {
    && (opts.includeDead || e.state != TOMBSTONED)
    && (opts.resourceIDs == [] || e.fromID in opts.resourceIDs || e.toID in opts.resourceIDs)
    && (opts.predicates == [] || e.predicate_ in opts.predicates)
  }

  function EffectiveLimit(limit: int): (n: int)
    ensures n > 0
  {
    if limit <= 0 then 200 else limit
  }

  /** Source order of listings: from, predicate, to, creation time, id. */
  predicate EdgeLe(a: GraphEdge, b: GraphEdge) {
    if a.fromID != b.fromID then StrLe(a.fromID, b.fromID)
    else if a.predicate_ != b.predicate_ then StrLe(a.predicate_, b.predicate_)
    else if a.toID != b.toID then StrLe(a.toID, b.toID)
    else if a.createdAt != b.createdAt then a.createdAt < b.createdAt
    else StrLe(a.edgeID, b.edgeID)
  }

  lemma EdgeLeIsTotalOrder()
    ensures TotalOrder(EdgeLe)
    ensures forall a, b :: EdgeLe(a, b) && EdgeLe(b, a) ==> a.edgeID == b.edgeID
  {
    StrLeIsTotalOrder();
    forall a, b ensures StrLe(a, b) && StrLe(b, a) ==> a == b {
      StrLeTotal(a, b);
    }
    forall a, b, c | EdgeLe(a, b) && EdgeLe(b, c) ensures EdgeLe(a, c) {
      EdgeLeTransitive(a, b, c);
    }
  }

  lemma EdgeLeTransitive(a: GraphEdge, b: GraphEdge, c: GraphEdge)
    requires EdgeLe(a, b) && EdgeLe(b, c)
    requires forall x, y :: StrLe(x, y) && StrLe(y, x) ==> x == y
    requires forall x, y, z :: StrLe(x, y) && StrLe(y, z) ==> StrLe(x, z)
    ensures EdgeLe(a, c)
  {
  }

  /** r is the sorted prefix, of at most the limit, of the wanted edges of m. */
  ghost predicate Listing(m: EdgeMap, opts: ListOptions, r: seq<GraphEdge>) {
    && Distinct(r) && SortedBy(EdgeLe, r) && |r| <= EffectiveLimit(opts.limit)
    && (forall e :: e in r ==> e in m.Values && Wanted(e, opts))
    && (forall e :: e in m.Values && Wanted(e, opts) && e !in r ==>
          |r| == EffectiveLimit(opts.limit) && forall x :: x in r ==> EdgeLe(x, e))
  }

  /** Ids identify edges. */
  ghost predicate Keyed(m: EdgeMap) {
    forall id :: id in m ==> m[id].edgeID == id
  }

  lemma KeyedIds(m: EdgeMap)
    requires Keyed(m)
    ensures forall a, b :: a in m.Values && b in m.Values && a.edgeID == b.edgeID ==> a == b
  {
  }

  /** The contract leaves one answer: listings do not depend on map iteration order. */
  lemma ListingIsUnique(m: EdgeMap, opts: ListOptions, r: seq<GraphEdge>, s: seq<GraphEdge>)
    requires Keyed(m) && Listing(m, opts, r) && Listing(m, opts, s)
    ensures r == s
  {
    EdgeLeIsTotalOrder();
    KeyedIds(m);
    if exists e :: e in s && e !in r {
      ListingsCannotDiffer(m, opts, r, s);
    } else if exists e :: e in r && e !in s {
      ListingsCannotDiffer(m, opts, s, r);
    }
    SortedListsAgree(EdgeLe, r, s);
  }

  lemma ListingsCannotDiffer(m: EdgeMap, opts: ListOptions, r: seq<GraphEdge>, s: seq<GraphEdge>)
    requires Keyed(m) && Listing(m, opts, r) && Listing(m, opts, s)
    ensures forall e :: e in s ==> e in r
  {
    EdgeLeIsTotalOrder();
    KeyedIds(m);
    forall e | e in s ensures e in r {
      if e !in r {
        assert |r| >= |s|;
        var x := MemberOutside(r, s, e);
        assert false;
      }
    }
  }

  /** A list at least as long as another that misses one of the other's members has a member
      the other lacks. */
  lemma MemberOutside<T>(r: seq<T>, s: seq<T>, e: T) returns (x: T)
    requires Distinct(r) && Distinct(s) && |r| >= |s| && e in s && e !in r
    ensures x in r && x !in s
  {
    var rs, ss := set y | y in r, set y | y in s;
    DistinctCount(r, rs);
    DistinctCount(s, ss);
    if rs <= ss {
      Subset(rs, ss - {e});
    }
    x :| x in rs && x !in ss;
  }

  /** A duplicate-free list as long as the limit leaves out nothing of a set that fits the limit. */
  lemma FullList<T>(s: seq<T>, all: set<T>, limit: nat)
    requires Distinct(s) && |s| >= limit && forall x :: x in s ==> x in all
    ensures |all| <= limit ==> forall x :: x in all ==> x in s
  {
    var members := set x | x in s;
    DistinctCount(s, members);
    var missing := all - members;
    assert all == members + missing;
    assert |all| == |members| + |missing|;
  }

  lemma Subset<T>(a: set<T>, b: set<T>)
    requires a <= b
    ensures |a| <= |b|
  {
    assert b == a + (b - a);
  }

  lemma {:induction false} DistinctCount<T>(s: seq<T>, members: set<T>)
    requires Distinct(s)
    requires forall x :: x in s <==> x in members
    ensures |members| == |s|
  {
    if s == [] {
      assert members == {};
    } else {
      var rest := s[1..];
      assert s[0] !in rest;
      assert forall x :: x in rest <==> x in members - {s[0]};
      DistinctCount(rest, members - {s[0]});
    }
  }

  /** No two live copies of one fact. */
  ghost predicate OneActivePerTriple(m: EdgeMap) {
    forall i, j | i in m && j in m && m[i].state == ACTIVE && m[j].state == ACTIVE ::
      TripleOf(m[i]) == TripleOf(m[j]) ==> i == j
  }

  ghost predicate WellFormed(m: EdgeMap) {
    && Keyed(m) && OneActivePerTriple(m)
    && forall id :: id in m ==> m[id].fromID != "" && m[id].toID != "" && m[id].predicate_ != "" && m[id].fromID != m[id].toID
  }

  predicate Acceptable(e: GraphEdge) {
    e.orgID != "" && e.fromID != "" && e.toID != "" && e.predicate_ != "" && e.fromID != e.toID
  }

  ghost predicate Owned(m: EdgeMap, org: string) {
    forall id :: id in m ==> m[id].orgID == org
  }

  lemma UpsertKeepsOwned(m: EdgeMap, e: GraphEdge, now: int)
    requires Owned(m, e.orgID)
    ensures Owned(Upserted(m, e, now), e.orgID)
  {
  }

  /** The fields an upsert copies onto a live edge with the same triple. */
  function Refreshed(existing: GraphEdge, e: GraphEdge, now: int): GraphEdge {
    existing.(confidence := e.confidence, syncAuthz := e.syncAuthz, attributes := e.attributes, updatedAt := now)
  }

  function Stamped(e: GraphEdge, freshID: string, now: int): GraphEdge {
    e.(edgeID := if e.edgeID == "" then freshID else e.edgeID,
       createdAt := if e.createdAt == 0 then now else e.createdAt,
       updatedAt := now,
       state := if e.state == "" then ACTIVE else e.state)
  }

  ghost predicate HasActive(m: EdgeMap, t: Triple) {
    exists id :: id in m && m[id].state == ACTIVE && TripleOf(m[id]) == t
  }

  /** The map after an accepted upsert: refresh the live edge of the triple, else store the edge. */
  ghost function Upserted(m: EdgeMap, e: GraphEdge, now: int): EdgeMap
  {
    if HasActive(m, TripleOf(e)) then
      var id :| id in m && m[id].state == ACTIVE && TripleOf(m[id]) == TripleOf(e);
      m[id := Refreshed(m[id], e, now)]
    else
      m[e.edgeID := e]
  }

  /** The live edge of a triple is unique, so whichever is found first is the one that is refreshed. */
  lemma RefreshingIsUpserting(m: EdgeMap, id: string, e: GraphEdge, now: int)
    requires OneActivePerTriple(m) && id in m && m[id].state == ACTIVE && TripleOf(m[id]) == TripleOf(e)
    ensures Upserted(m, e, now) == m[id := Refreshed(m[id], e, now)]
  {
  }

  lemma UpsertKeepsWellFormed(m: EdgeMap, e: GraphEdge, now: int)
    requires WellFormed(m) && Acceptable(e)
    ensures WellFormed(Upserted(m, e, now))
    ensures e.state == ACTIVE ==> HasActive(Upserted(m, e, now), TripleOf(e))
    ensures forall t :: t != TripleOf(e) && HasActive(Upserted(m, e, now), t) ==> HasActive(m, t)
  {
    var m' := Upserted(m, e, now);
    if HasActive(m, TripleOf(e)) {
      var id :| id in m && m'[id] == Refreshed(m[id], e, now) && m[id].state == ACTIVE && TripleOf(m[id]) == TripleOf(e);
      assert TripleOf(m'[id]) == TripleOf(e);
    } else {
      assert e.edgeID in m';
    }
    forall t | t != TripleOf(e) && HasActive(m', t) ensures HasActive(m, t) {
      var id :| id in m' && m'[id].state == ACTIVE && TripleOf(m'[id]) == t;
      assert id in m && m[id] == m'[id];
    }
  }

  /** Sorting and cutting a duplicate-free collection of all wanted edges gives the listing. */
  lemma SortedPrefixIsListing(m: EdgeMap, opts: ListOptions, all: seq<GraphEdge>)
    requires Distinct(all)
    requires forall e :: e in all <==> e in m.Values && Wanted(e, opts)
    ensures Listing(m, opts, Cut(Sort(EdgeLe, all), EffectiveLimit(opts.limit)))
  {
    SortKeeps(EdgeLe, all);
    EdgeLeIsTotalOrder();
    SortSorts(EdgeLe, all);
    var sorted, limit := Sort(EdgeLe, all), EffectiveLimit(opts.limit);
    var out := Cut(sorted, limit);
    forall e, x | e in sorted && e !in out && x in out ensures EdgeLe(x, e) {
      CutKeepsSmallest(EdgeLe, sorted, limit, x, e);
    }
  }

  function WantedEdges(m: EdgeMap, opts: ListOptions): set<GraphEdge> {
    set e | e in m.Values && Wanted(e, opts)
  }

  /** A listing is as long as the wanted edges are many, up to its limit. */
  lemma ListingCounts(m: EdgeMap, opts: ListOptions, r: seq<GraphEdge>)
    requires Listing(m, opts, r)
    ensures var n, limit := |WantedEdges(m, opts)|, EffectiveLimit(opts.limit);
            |r| == if n > limit then limit else n
  {
    var listed, wanted := (set e | e in r), WantedEdges(m, opts);
    DistinctCount(r, listed);
    Subset(listed, wanted);
    if |r| < EffectiveLimit(opts.limit) {
      assert listed == wanted;
    }
  }

  class EdgeStore {
    var edges: map<string, EdgeMap>

    constructor ()
      ensures edges == map[]
    {
      edges := map[];
    }

    ghost predicate Valid()
      reads this
    {
      forall org :: org in edges ==> org != "" && WellFormed(edges[org]) && Owned(edges[org], org)
    }

    function Of(orgID: string): EdgeMap
      reads this
    {
      if orgID in edges then edges[orgID] else map[]
    }

    method UpsertEdge(edge: GraphEdge, freshID: string, now: int) returns (ok: bool)
      requires Valid()
      modifies this
      ensures Valid()
      ensures ok <==> Acceptable(edge)
      ensures !ok ==> edges == old(edges)
      ensures ok ==> edges == old(edges)[edge.orgID := Upserted(old(Of(edge.orgID)), Stamped(edge, freshID, now), now)]
    {
      if edge.orgID == "" || edge.fromID == "" || edge.toID == "" || edge.predicate_ == "" || edge.fromID == edge.toID {
        return false;
      }
      var e := Stamped(edge, freshID, now);
      var m := Of(edge.orgID);
      UpsertKeepsWellFormed(m, e, now);
      UpsertKeepsOwned(m, e, now);
      var ids := m.Keys;
      while ids != {}
        invariant ids <= m.Keys
        invariant edges == old(edges)
        invariant forall id :: id in m.Keys - ids ==> !(m[id].state == ACTIVE && TripleOf(m[id]) == TripleOf(e))
      {
        var id :| id in ids;
        var existing := m[id];
        if existing.state == ACTIVE && existing.fromID == e.fromID && existing.toID == e.toID
           && existing.predicate_ == e.predicate_ {
          RefreshingIsUpserting(m, id, e, now);
          edges := edges[edge.orgID := m[id := Refreshed(existing, e, now)]];
          return true;
        }
        ids := ids - {id};
      }
      edges := edges[edge.orgID := m[e.edgeID := e]];
      ok := true;
    }

    method TombstoneEdge(orgID: string, edgeID: string, now: int) returns (ok: bool)
      requires Valid()
      modifies this
      ensures Valid()
      ensures ok <==> edgeID in old(Of(orgID))
      ensures !ok ==> edges == old(edges)
      ensures ok ==> edges == old(edges)[orgID := old(Of(orgID))[edgeID := old(Of(orgID))[edgeID].(state := TOMBSTONED, updatedAt := now)]]
    {
      if orgID !in edges || edgeID !in edges[orgID] {
        return false;
      }
      var e := edges[orgID][edgeID];
      edges := edges[orgID := edges[orgID][edgeID := e.(state := TOMBSTONED, updatedAt := now)]];
      ok := true;
    }

    /** Some live synchronized edges of an organization, in any order: all of them when they fit the
        limit.  The empty organization stands for all. */
    method ListActiveParentEdges(orgID: string, limit: int) returns (out: seq<GraphEdge>)
      requires Valid()
      ensures |out| <= if limit <= 0 then 100 else limit
      ensures Distinct(out) && forall e :: e in out ==> e in SynchronizedIn(edges, orgID)
      ensures |out| < (if limit <= 0 then 100 else limit) ==> forall e :: e in SynchronizedIn(edges, orgID) ==> e in out
      ensures |SynchronizedIn(edges, orgID)| <= (if limit <= 0 then 100 else limit) ==> forall e :: e in SynchronizedIn(edges, orgID) ==> e in out
    {
      var max := if limit <= 0 then 100 else limit;
      out := [];
      var orgs := edges.Keys;
      while orgs != {}
        invariant orgs <= edges.Keys && Distinct(out) && |out| < max
        invariant forall e :: e in out ==> e in SynchronizedIn(edges, orgID) && e.orgID !in orgs
        invariant forall e :: e in SynchronizedIn(edges, orgID) && e.orgID !in orgs ==> e in out
      {
        var org :| org in orgs;
        orgs := orgs - {org};
        if orgID != "" && org != orgID {
          continue;
        }
        out := ListActiveParentsOf(org, orgID, max, out);
        if |out| >= max {
          FullList(out, SynchronizedIn(edges, orgID), max);
          return;
        }
      }
    }

    /** One organization's share of the listing, stopping at the limit. */
    method ListActiveParentsOf(org: string, ghost orgID: string, max: nat, some: seq<GraphEdge>) returns (out: seq<GraphEdge>)
      requires Valid() && org in edges && (orgID == "" || org == orgID)
      requires Distinct(some) && |some| < max && forall e :: e in some ==> e in SynchronizedIn(edges, orgID) && e.orgID != org
      ensures Distinct(out) && |out| <= max && some <= out
      ensures forall e :: e in out ==> e in some || (e in SynchronizedIn(edges, orgID) && e.orgID == org)
      ensures |out| < max ==> forall e :: e in SynchronizedIn(edges, orgID) && e.orgID == org ==> e in out
    {
      out := some;
      var ids := edges[org].Keys;
      while ids != {}
        invariant ids <= edges[org].Keys && Distinct(out) && |out| < max && some <= out
        invariant forall e :: e in out ==> e in some || (e in SynchronizedIn(edges, orgID) && e.orgID == org && e.edgeID !in ids)
        invariant forall e :: e in SynchronizedIn(edges, orgID) && e.orgID == org && e.edgeID !in ids ==> e in out
      {
        var id :| id in ids;
        ids := ids - {id};
        var e := edges[org][id];
        if e.state == ACTIVE && e.predicate_ == EDGE_PARENT && e.syncAuthz {
          out := out + [e];
          if |out| >= max {
            return;
          }
        }
      }
    }

    method ListEdges(orgID: string, opts: ListOptions) returns (out: seq<GraphEdge>)
      requires Valid()
      ensures Listing(Of(orgID), opts, out)
    {
      var m := Of(orgID);
      var ids := m.Keys;
      out := [];
      while ids != {}
        invariant ids <= m.Keys
        invariant Distinct(out)
        invariant forall e :: e in out ==> e in m.Values && e.edgeID in m.Keys - ids && Wanted(e, opts)
        invariant forall id :: id in m.Keys - ids && Wanted(m[id], opts) ==> m[id] in out
      {
        var id :| id in ids;
        ids := ids - {id};
        if Wanted(m[id], opts) {
          out := out + [m[id]];
        }
      }
      SortedPrefixIsListing(m, opts, out);
      out := Cut(Sort(EdgeLe, out), EffectiveLimit(opts.limit));
    }
  }

  function SynchronizedIn(edges: map<string, EdgeMap>, orgID: string): set<GraphEdge> {
    set e | e in Synchronized(edges) && (orgID == "" || e.orgID == orgID)
  }

  /** Live parent edges that ask for authorization inheritance, over all organizations. */
  function Synchronized(edges: map<string, EdgeMap>): set<GraphEdge> {
    set org, id | org in edges && id in edges[org] && edges[org][id].state == ACTIVE && NeedsSynchronization(edges[org][id])
      :: edges[org][id]
  }

  /** Intake names an edge by its organization and triple; distinct triples get distinct names. */
  ghost predicate DeterministicIDs(m: EdgeMap, idOf: Triple -> string) {
    forall id :: id in m ==> id == idOf(TripleOf(m[id]))
  }

  /** Under deterministic ids -- the only ids intake writes -- a triple has at most one edge,
      live or dead, and upserts and tombstones keep it so. */
  lemma DeterministicIDsGiveOneEdgePerTriple(m: EdgeMap, idOf: Triple -> string, e: GraphEdge, now: int)
    requires DeterministicIDs(m, idOf) && e.edgeID == idOf(TripleOf(e))
    ensures forall i, j :: i in m && j in m && TripleOf(m[i]) == TripleOf(m[j]) ==> i == j
    ensures DeterministicIDs(Upserted(m, e, now), idOf)
    ensures forall id :: id in m ==> DeterministicIDs(m[id := m[id].(state := TOMBSTONED, updatedAt := now)], idOf)
  {
  }
}
