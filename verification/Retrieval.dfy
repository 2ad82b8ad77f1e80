/** The visible subgraph of internal/retrieval/retrieval.go: a layered search through authorized
    resources, lifecycle and policy filtering, edge filtering, and seed-preserving truncation. */
module Retrieval {
  import opened Ports
  import opened Sorting
  import opened EdgeLedger

  const EDGE_CAP: nat := 500

  /** What one request can observe of an organization.  The k-th authorization batch of the
      request fails when authzFails(k), its k-th edge listing when listFails(k). */
  datatype World = World(
    edges: EdgeMap,
    records: map<string, Record>,
    allowed: string -> bool,
    permits: Record -> bool,
    authzFails: nat -> bool,
    listFails: nat -> bool)
  {
    ghost predicate Valid() {
      Keyed(edges) && forall id :: id in records ==> records[id].resourceID == id
    }

    ghost predicate Healthy() {
      forall k :: !authzFails(k) && !listFails(k)
    }

    /** A record that may be shown: present, live, not a placeholder, permitted by policy. */
    predicate Showable(id: string) {
      && id in records
      && !IsTombstoned(records[id].state) && !IsPlaceholder(records[id].state)
      && permits(records[id])
    }
  }

  datatype GraphNode = GraphNode(
    resourceID: string, kind: string, title: string, classification: string,
    labels: seq<string>, revisionID: string, state: string, attributes: Attributes)

  const HIDDEN_ATTRIBUTES: set<string> := {"visibility_ref", "placeholder", "ensured", "signing_secret", "mapping_spec"}

  function NodeOf(r: Record): GraphNode {
    GraphNode(r.resourceID, r.kind, r.title, r.classification, r.labels, r.currentRevID, r.state,
              r.attributes - HIDDEN_ATTRIBUTES)
  }

  /* ---------- what should be found ---------- */

  predicate Follows(e: GraphEdge, predicates: seq<string>) {
    e.state != TOMBSTONED && (predicates == [] || e.predicate_ in predicates)
  }

  predicate Joins(e: GraphEdge, a: string, b: string) {
    (e.fromID == a && e.toID == b) || (e.fromID == b && e.toID == a)
  }

  ghost predicate Adjacent(w: World, predicates: seq<string>, a: string, b: string) {
    exists e :: e in w.edges.Values && Follows(e, predicates) && Joins(e, a, b)
  }

  ghost function Authorized(w: World, seeds: seq<string>): set<string> {
    set s | s in seeds && s != "" && w.allowed(s)
  }

  function Endpoints(w: World): set<string> {
    (set e | e in w.edges.Values :: e.fromID) + (set e | e in w.edges.Values :: e.toID)
  }

  /** Authorized resources within d hops of an authorized seed. */
  ghost function Ball(w: World, predicates: seq<string>, seeds: seq<string>, d: nat): set<string> {
    if d == 0 then Authorized(w, seeds)
    else
      var inner := Ball(w, predicates, seeds, d - 1);
      inner + set x | x in Endpoints(w) && w.allowed(x) && exists y :: y in inner && Adjacent(w, predicates, y, x)
  }

  /** A route through authorized resources along live edges, starting at a seed. */
  ghost predicate Route(w: World, predicates: seq<string>, seeds: seq<string>, r: seq<string>) {
    && |r| > 0 && r[0] in seeds && r[0] != ""
    && (forall i :: 0 <= i < |r| ==> w.allowed(r[i]))
    && (forall i :: 0 <= i < |r| - 1 ==> Adjacent(w, predicates, r[i], r[i + 1]))
  }

  /** The layers are exactly the ends of routes of at most d hops. */
  lemma BallIsRoutes(w: World, predicates: seq<string>, seeds: seq<string>, d: nat, x: string)
    ensures x in Ball(w, predicates, seeds, d) <==>
            exists r :: Route(w, predicates, seeds, r) && r[|r| - 1] == x && |r| <= d + 1
  {
    if x in Ball(w, predicates, seeds, d) {
      var r := RouteTo(w, predicates, seeds, d, x);
    }
    forall r | Route(w, predicates, seeds, r) && r[|r| - 1] == x && |r| <= d + 1
      ensures x in Ball(w, predicates, seeds, d)
    {
      RouteInBall(w, predicates, seeds, d, r);
    }
  }

  lemma {:induction false} RouteTo(w: World, predicates: seq<string>, seeds: seq<string>, d: nat, x: string) returns (r: seq<string>)
    requires x in Ball(w, predicates, seeds, d)
    ensures Route(w, predicates, seeds, r) && r[|r| - 1] == x && |r| <= d + 1
  {
    if d == 0 {
      r := [x];
    } else if x in Ball(w, predicates, seeds, d - 1) {
      r := RouteTo(w, predicates, seeds, d - 1, x);
    } else {
      var y :| y in Ball(w, predicates, seeds, d - 1) && Adjacent(w, predicates, y, x);
      var q := RouteTo(w, predicates, seeds, d - 1, y);
      RouteExtends(w, predicates, seeds, q, x);
      r := q + [x];
    }
  }

  lemma RouteExtends(w: World, predicates: seq<string>, seeds: seq<string>, r: seq<string>, x: string)
    requires Route(w, predicates, seeds, r) && Adjacent(w, predicates, r[|r| - 1], x) && w.allowed(x)
    ensures Route(w, predicates, seeds, r + [x])
  {
    var longer := r + [x];
    forall i | 0 <= i < |longer| - 1 ensures Adjacent(w, predicates, longer[i], longer[i + 1]) {
      if i < |r| - 1 {
        assert longer[i] == r[i] && longer[i + 1] == r[i + 1];
      }
    }
  }

  lemma {:induction false} RouteInBall(w: World, predicates: seq<string>, seeds: seq<string>, d: nat, r: seq<string>)
    requires Route(w, predicates, seeds, r) && |r| <= d + 1
    ensures r[|r| - 1] in Ball(w, predicates, seeds, d)
    decreases d
  {
    if |r| == 1 {
      BallGrows(w, predicates, seeds, 0, d);
    } else {
      var q := r[..|r| - 1];
      RouteInBall(w, predicates, seeds, d - 1, q);
      assert Adjacent(w, predicates, q[|q| - 1], r[|r| - 1]);
      AdjacentEndpoint(w, predicates, q[|q| - 1], r[|r| - 1]);
    }
  }

  lemma AdjacentEndpoint(w: World, predicates: seq<string>, a: string, b: string)
    requires Adjacent(w, predicates, a, b)
    ensures b in Endpoints(w)
  {
  }

  lemma {:induction false} BallGrows(w: World, predicates: seq<string>, seeds: seq<string>, c: nat, d: nat)
    requires c <= d
    ensures Ball(w, predicates, seeds, c) <= Ball(w, predicates, seeds, d)
    decreases d
  {
    if c < d {
      BallGrows(w, predicates, seeds, c, d - 1);
    }
  }

  /** Once no authorized neighbour is missing, further hops find nothing. */
  lemma {:induction false} BallStops(w: World, predicates: seq<string>, seeds: seq<string>, c: nat, d: nat, found: set<string>)
    requires c <= d && found == Ball(w, predicates, seeds, c) && Saturated(w, predicates, found, [])
    ensures Ball(w, predicates, seeds, d) == found
    decreases d
  {
    if c < d {
      BallStops(w, predicates, seeds, c, d - 1, found);
      SaturatedBallStays(w, predicates, seeds, d - 1, found);
    }
  }

  lemma SaturatedBallStays(w: World, predicates: seq<string>, seeds: seq<string>, d: nat, found: set<string>)
    requires found == Ball(w, predicates, seeds, d) && Saturated(w, predicates, found, [])
    ensures Ball(w, predicates, seeds, d + 1) == found
  {
    forall x | x in Endpoints(w) && w.allowed(x) && exists y :: y in found && Adjacent(w, predicates, y, x) ensures x in found {
      var y :| y in found && Adjacent(w, predicates, y, x);
    }
  }

  /** Every authorized neighbour of a found resource outside the frontier is found. */
  ghost predicate Saturated(w: World, predicates: seq<string>, found: set<string>, frontier: seq<string>) {
    forall y, x :: y in found && y !in frontier && w.allowed(x) && Adjacent(w, predicates, y, x) ==> x in found
  }

  /** Found resources are listed by non-decreasing distance from the seeds. */
  ghost predicate NearestFirst(w: World, predicates: seq<string>, seeds: seq<string>, ids: seq<string>) {
    SortedBy((x, y) => NoFarther(w, predicates, seeds, x, y), ids)
  }

  ghost predicate NoFarther(w: World, predicates: seq<string>, seeds: seq<string>, x: string, y: string) {
    forall d: nat :: y in Ball(w, predicates, seeds, d) ==> x in Ball(w, predicates, seeds, d)
  }

  /* ---------- the search ---------- */

  /** One authorization batch: the allowed ids, or nothing when the provider fails. */
  method BatchAllow(w: World, ids: seq<string>, fails: bool) returns (allowed: Option<set<string>>)
    ensures allowed.None? <==> ids != [] && fails
    ensures allowed.Some? ==> allowed.value == set id | id in ids && w.allowed(id)
  {
    if ids == [] {
      return Some({});
    }
    if fails {
      return None;
    }
    var ok: set<string> := {};
    for i := 0 to |ids|
      invariant ok == set id | id in ids[..i] && w.allowed(id)
    {
      assert ids[..i + 1] == ids[..i] + [ids[i]];
      if w.allowed(ids[i]) {
        ok := ok + {ids[i]};
      }
    }
    assert ids[..|ids|] == ids;
    allowed := Some(ok);
  }

  /** Non-empty seeds, once each, sorted. */
  method UniqueSeeds(seeds: seq<string>) returns (ids: seq<string>)
    ensures Distinct(ids) && SortedBy(StrLe, ids)
    ensures forall s :: s in ids <==> s in seeds && s != ""
    ensures |ids| <= |seeds|
  {
    ids := [];
    for i := 0 to |seeds|
      invariant Distinct(ids) && |ids| <= i
      invariant forall s :: s in ids <==> s in seeds[..i] && s != ""
    {
      assert seeds[..i + 1] == seeds[..i] + [seeds[i]];
      if seeds[i] != "" && seeds[i] !in ids {
        ids := ids + [seeds[i]];
      }
    }
    assert seeds[..|seeds|] == seeds;
    SortKeeps(StrLe, ids);
    StrLeIsTotalOrder();
    SortSorts(StrLe, ids);
    ids := Sort(StrLe, ids);
  }

  /** Edge ends not yet authorized, once each, sorted.  When every edge touches an authorized
      resource there are no more of them than edges, so a cap on edges also caps them. */
  method Neighbours(edges: seq<GraphEdge>, authorized: set<string>) returns (ids: seq<string>)
    ensures Distinct(ids) && SortedBy(StrLe, ids)
    ensures forall x :: x in ids <==> x !in authorized && exists e :: e in edges && e.state != TOMBSTONED && (e.fromID == x || e.toID == x)
    ensures (forall e :: e in edges ==> e.fromID in authorized || e.toID in authorized) ==> |ids| <= |edges|
  {
    ids := [];
    for i := 0 to |edges|
      invariant Distinct(ids)
      invariant forall x :: x in ids <==> x !in authorized && exists e :: e in edges[..i] && e.state != TOMBSTONED && (e.fromID == x || e.toID == x)
      invariant (forall e :: e in edges ==> e.fromID in authorized || e.toID in authorized) ==> |ids| <= i
    {
      var e := edges[i];
      assert edges[..i + 1] == edges[..i] + [e];
      if e.state != TOMBSTONED {
        if e.fromID !in authorized && e.fromID !in ids {
          ids := ids + [e.fromID];
        }
        if e.toID !in authorized && e.toID !in ids {
          ids := ids + [e.toID];
        }
      }
    }
    assert edges[..|edges|] == edges;
    SortKeeps(StrLe, ids);
    StrLeIsTotalOrder();
    SortSorts(StrLe, ids);
    ids := Sort(StrLe, ids);
  }

  /** Members of ids that the batch allowed, in order. */
  function Keep(ids: seq<string>, ok: set<string>): (kept: seq<string>)
    ensures forall x :: x in kept <==> x in ids && x in ok
    ensures Distinct(ids) ==> Distinct(kept)
  {
    if ids == [] then []
    else
      assert forall x :: x in ids <==> x == ids[0] || x in ids[1..];
      var rest := Keep(ids[1..], ok);
      if ids[0] in ok then [ids[0]] + rest else rest
  }

  function HopOptions(frontier: seq<string>, predicates: seq<string>): ListOptions {
    ListOptions(frontier, predicates, false, EDGE_CAP + 1)
  }

  /** The live matching edges: whoever has at most EDGE_CAP of them never meets a cap. */
  function Matching(w: World, predicates: seq<string>): set<GraphEdge> {
    set e | e in w.edges.Values && Follows(e, predicates)
  }

  function Members(ids: seq<string>): set<string> {
    set x | x in ids
  }

  /** The live matching edges at some resources. */
  function Touching(w: World, predicates: seq<string>, ids: set<string>): set<GraphEdge> {
    set e | e in Matching(w, predicates) && (e.fromID in ids || e.toID in ids)
  }

  /** One listing around these resources meets the cap. */
  predicate Overruns(w: World, predicates: seq<string>, ids: set<string>) {
    |Touching(w, predicates, ids)| > EDGE_CAP
  }

  /** The last listing: around the shown resources, or of the whole organization when there are none. */
  predicate LastOverruns(w: World, predicates: seq<string>, ids: set<string>) {
    |if ids == {} then Matching(w, predicates) else Touching(w, predicates, ids)| > EDGE_CAP
  }

  lemma LargerOverruns(w: World, predicates: seq<string>, a: set<string>, b: set<string>)
    requires a <= b && Overruns(w, predicates, a)
    ensures Overruns(w, predicates, b)
  {
    Subset(Touching(w, predicates, a), Touching(w, predicates, b));
  }

  /** A listing overruns the cap exactly when the edges at its resources do. */
  lemma OverrunIsExact(w: World, predicates: seq<string>, ids: seq<string>, listed: seq<GraphEdge>)
    requires Listing(w.edges, HopOptions(ids, predicates), listed)
    ensures |listed| > EDGE_CAP <==> LastOverruns(w, predicates, Members(ids))
    ensures ids != [] ==> (|listed| > EDGE_CAP <==> Overruns(w, predicates, Members(ids)))
  {
    ListingCounts(w.edges, HopOptions(ids, predicates), listed);
    assert ids != [] ==> ids[0] in Members(ids);
    var wanted := WantedEdges(w.edges, HopOptions(ids, predicates));
    assert wanted == if ids == [] then Matching(w, predicates) else Touching(w, predicates, Members(ids));
  }

  /** A capped listing around a frontier: only live matching edges at the frontier, and all of
      them when no cap fired. */
  ghost predicate AroundFrontier(w: World, predicates: seq<string>, frontier: seq<string>, edges: seq<GraphEdge>, capped: bool) {
    && |edges| <= EDGE_CAP
    && (forall e :: e in edges ==> e in w.edges.Values && Follows(e, predicates) && (e.fromID in frontier || e.toID in frontier))
    && (!capped ==> forall y, x :: y in frontier && Adjacent(w, predicates, y, x) ==>
          exists e :: e in edges && Joins(e, y, x))
  }

  lemma ListingAroundFrontier(w: World, predicates: seq<string>, frontier: seq<string>, all: seq<GraphEdge>)
    requires frontier != [] && Listing(w.edges, HopOptions(frontier, predicates), all)
    ensures AroundFrontier(w, predicates, frontier, Cut(all, EDGE_CAP), |all| > EDGE_CAP)
  {
    assert forall e :: e in Cut(all, EDGE_CAP) ==> e in all;
    if |all| <= EDGE_CAP {
      forall y, x | y in frontier && Adjacent(w, predicates, y, x)
        ensures exists e :: e in all && Joins(e, y, x)
      {
        var e :| e in w.edges.Values && Follows(e, predicates) && Joins(e, y, x);
        assert Wanted(e, HopOptions(frontier, predicates));
        assert e in all;
      }
    }
  }

  /** The state of the search after some hops. */
  ghost predicate Progress(w: World, predicates: seq<string>, seeds: seq<string>, hop: nat, discovery: seq<string>, found: set<string>) {
    && Distinct(discovery)
    && (forall x :: x in discovery <==> x in found)
    && found <= Ball(w, predicates, seeds, hop)
    && forall x :: x in found ==> w.allowed(x)
  }

  ghost predicate Exact(w: World, predicates: seq<string>, seeds: seq<string>, hop: nat, discovery: seq<string>, found: set<string>) {
    found == Ball(w, predicates, seeds, hop) && NearestFirst(w, predicates, seeds, discovery)
  }

  /** Every authorized seed is found, before everything else. */
  ghost predicate SeedsFirst(w: World, seeds: seq<string>, ids: seq<string>) {
    && (forall x :: x in Authorized(w, seeds) ==> x in ids)
    && SortedBy((x, y) => y in Authorized(w, seeds) ==> x in Authorized(w, seeds), ids)
  }

  /** A duplicate-free list that starts with the authorized seeds. */
  lemma PrefixLeads(w: World, seeds: seq<string>, first: seq<string>, ids: seq<string>)
    requires first <= ids && Distinct(ids) && forall x :: x in first <==> x in Authorized(w, seeds)
    ensures SeedsFirst(w, seeds, ids)
  {
    var k := |first|;
    assert forall i :: 0 <= i < k ==> ids[i] == first[i];
    forall i, j | 0 <= i < j < |ids| && ids[j] in Authorized(w, seeds) ensures ids[i] in Authorized(w, seeds) {
      var n :| 0 <= n < k && first[n] == ids[j];
      assert n == j;
    }
    forall x | x in Authorized(w, seeds) ensures x in ids {
      var n :| 0 <= n < k && first[n] == x;
      assert ids[n] == x;
    }
  }

  lemma HopIsSound(w: World, predicates: seq<string>, seeds: seq<string>, hop: nat, found: set<string>,
                   frontier: seq<string>, edges: seq<GraphEdge>, capped: bool, neighbours: seq<string>, x: string)
    requires found <= Ball(w, predicates, seeds, hop)
    requires forall y :: y in frontier ==> y in found
    requires AroundFrontier(w, predicates, frontier, edges, capped)
    requires forall y :: y in neighbours <==> y !in found && exists e :: e in edges && e.state != TOMBSTONED && (e.fromID == y || e.toID == y)
    requires x in neighbours && w.allowed(x)
    ensures x in Ball(w, predicates, seeds, hop + 1)
  {
    var e :| e in edges && e.state != TOMBSTONED && (e.fromID == x || e.toID == x);
    var y := if e.fromID == x then e.toID else e.fromID;
    assert y in frontier && Joins(e, y, x);
    assert Adjacent(w, predicates, y, x);
    AdjacentEndpoint(w, predicates, y, x);
  }

  lemma HopIsComplete(w: World, predicates: seq<string>, seeds: seq<string>, hop: nat, found: set<string>,
                      frontier: seq<string>, edges: seq<GraphEdge>, neighbours: seq<string>, next: set<string>)
    requires found == Ball(w, predicates, seeds, hop)
    requires forall y :: y in frontier ==> y in found
    requires Saturated(w, predicates, found, frontier)
    requires AroundFrontier(w, predicates, frontier, edges, false)
    requires forall y :: y in neighbours <==> y !in found && exists e :: e in edges && e.state != TOMBSTONED && (e.fromID == y || e.toID == y)
    requires next == set y | y in neighbours && w.allowed(y)
    ensures found + next == Ball(w, predicates, seeds, hop + 1)
    ensures forall y, x :: y in found && w.allowed(x) && Adjacent(w, predicates, y, x) ==> x in found + next
  {
    forall y, x | y in found && w.allowed(x) && Adjacent(w, predicates, y, x)
      ensures x in found + next
    {
      if y in frontier && x !in found {
        var e :| e in edges && Joins(e, y, x);
        assert x in neighbours;
      }
    }
    forall x | x in next ensures x in Ball(w, predicates, seeds, hop + 1) {
      HopIsSound(w, predicates, seeds, hop, found, frontier, edges, false, neighbours, x);
    }
  }

  lemma HopKeepsOrder(w: World, predicates: seq<string>, seeds: seq<string>, hop: nat, discovery: seq<string>, next: seq<string>)
    requires NearestFirst(w, predicates, seeds, discovery)
    requires forall x :: x in discovery <==> x in Ball(w, predicates, seeds, hop)
    requires forall x :: x in next ==> x in Ball(w, predicates, seeds, hop + 1) && x !in discovery
    ensures NearestFirst(w, predicates, seeds, discovery + next)
  {
    BallGrows(w, predicates, seeds, hop, hop + 1);
    var ids := discovery + next;
    forall i, j | 0 <= i < j < |ids| ensures NoFarther(w, predicates, seeds, ids[i], ids[j]) {
      if j >= |discovery| {
        assert ids[j] in next;
        assert ids[i] in discovery || ids[i] in next;
        OuterIsNoCloser(w, predicates, seeds, hop, ids[i], ids[j]);
      } else {
        assert ids[i] == discovery[i] && ids[j] == discovery[j];
      }
    }
  }

  lemma HopKeepsExact(w: World, predicates: seq<string>, seeds: seq<string>, hop: nat, discovery: seq<string>, found: set<string>, next: seq<string>)
    requires Exact(w, predicates, seeds, hop, discovery, found)
    requires forall x :: x in discovery <==> x in found
    requires forall x :: x in Ball(w, predicates, seeds, hop + 1) <==> x in found || x in next
    requires forall x :: x in next ==> x !in found
    requires Saturated(w, predicates, Ball(w, predicates, seeds, hop + 1), next)
    ensures Exact(w, predicates, seeds, hop + 1, discovery + next, found + Members(next))
    ensures Saturated(w, predicates, found + Members(next), next)
  {
    HopKeepsOrder(w, predicates, seeds, hop, discovery, next);
    assert found + Members(next) == Ball(w, predicates, seeds, hop + 1);
  }

  lemma OuterIsNoCloser(w: World, predicates: seq<string>, seeds: seq<string>, hop: nat, x: string, y: string)
    requires y !in Ball(w, predicates, seeds, hop) && x in Ball(w, predicates, seeds, hop + 1)
    ensures NoFarther(w, predicates, seeds, x, y)
  {
    forall d: nat | y in Ball(w, predicates, seeds, d) ensures x in Ball(w, predicates, seeds, d) {
      if d <= hop {
        BallGrows(w, predicates, seeds, d, hop);
      } else {
        BallGrows(w, predicates, seeds, hop + 1, d);
      }
    }
  }

  /** Whatever is authorized among the candidates lies one hop further out. */
  ghost predicate NextLayer(w: World, predicates: seq<string>, seeds: seq<string>, hop: nat, found: set<string>, candidates: seq<string>) {
    forall x :: x in candidates && w.allowed(x) ==> x !in found && x in Ball(w, predicates, seeds, hop + 1)
  }

  /** The candidates hold everything authorized that one more hop reaches. */
  ghost predicate FullLayer(w: World, predicates: seq<string>, seeds: seq<string>, hop: nat, found: set<string>, candidates: seq<string>) {
    && (forall x :: x in Ball(w, predicates, seeds, hop + 1) <==> x in found || (x in candidates && w.allowed(x)))
    && forall y, x :: y in found && w.allowed(x) && Adjacent(w, predicates, y, x) ==> x in found || x in candidates
  }

  /** The unseen ends of the edges at the frontier.  None means that the listing failed. */
  method Gather(store: EdgeStore, orgID: string, w: World, predicates: seq<string>, hop: nat,
                frontier: seq<string>, authzOK: set<string>, ghost seeds: seq<string>)
    returns (candidates: Option<seq<string>>, capped: bool)
    requires store.Valid() && store.Of(orgID) == w.edges && frontier != []
    requires authzOK <= Ball(w, predicates, seeds, hop) && forall x :: x in frontier ==> x in authzOK
    ensures candidates.None? <==> w.listFails(hop)
    ensures capped <==> candidates.Some? && Overruns(w, predicates, Members(frontier))
    ensures candidates.Some? ==> Distinct(candidates.value) && NextLayer(w, predicates, seeds, hop, authzOK, candidates.value)
    ensures candidates.Some? && !capped && authzOK == Ball(w, predicates, seeds, hop) && Saturated(w, predicates, authzOK, frontier) ==>
              FullLayer(w, predicates, seeds, hop, authzOK, candidates.value)
  {
    if w.listFails(hop) {
      return None, false;
    }
    var all := store.ListEdges(orgID, HopOptions(frontier, predicates));
    ListingAroundFrontier(w, predicates, frontier, all);
    OverrunIsExact(w, predicates, frontier, all);
    capped := |all| > EDGE_CAP;
    var hopEdges := Cut(all, EDGE_CAP);
    var neighbours := Neighbours(hopEdges, authzOK);
    ghost var allowed := set y | y in neighbours && w.allowed(y);
    if !capped && authzOK == Ball(w, predicates, seeds, hop) && Saturated(w, predicates, authzOK, frontier) {
      HopIsComplete(w, predicates, seeds, hop, authzOK, frontier, hopEdges, neighbours, allowed);
    }
    forall x | x in neighbours && w.allowed(x) ensures x in Ball(w, predicates, seeds, hop + 1) {
      HopIsSound(w, predicates, seeds, hop, authzOK, frontier, hopEdges, capped, neighbours, x);
    }
    ghost var uncut := neighbours;
    capped := capped || |neighbours| > EDGE_CAP;
    neighbours := Cut(neighbours, EDGE_CAP);
    assert |uncut| <= EDGE_CAP && neighbours == uncut;
    candidates := Some(neighbours);
  }

  /** An unhindered hop found the whole next layer, or there is none. */
  ghost predicate FoundNext(w: World, predicates: seq<string>, seeds: seq<string>, hop: nat, found: set<string>, next: Option<seq<string>>) {
    if next.None? then Saturated(w, predicates, found, [])
    else
      && (forall x :: x in Ball(w, predicates, seeds, hop + 1) <==> x in found || x in next.value)
      && Saturated(w, predicates, Ball(w, predicates, seeds, hop + 1), next.value)
  }

  /* ---------- when a listing is cut ---------- */

  /** Resources found at the n-th hop and no earlier. */
  ghost function Layer(w: World, predicates: seq<string>, seeds: seq<string>, n: nat): set<string> {
    if n == 0 then Ball(w, predicates, seeds, 0) else Ball(w, predicates, seeds, n) - Ball(w, predicates, seeds, n - 1)
  }

  /** One of the first n layers has more live matching edges than a listing returns. */
  ghost predicate Overran(w: World, predicates: seq<string>, seeds: seq<string>, n: nat) {
    exists h: nat :: h < n && Overruns(w, predicates, Layer(w, predicates, seeds, h))
  }

  /** After n hops the mark says whether a layer overran -- when nothing fails; and always that the
      resources within reach had edges enough. */
  ghost predicate Marked(w: World, predicates: seq<string>, seeds: seq<string>, n: nat, truncated: bool) {
    && (truncated ==> n > 0 && Overruns(w, predicates, Ball(w, predicates, seeds, n - 1)))
    && (w.Healthy() ==> (truncated <==> Overran(w, predicates, seeds, n)))
  }

  /** Until then the frontier is the last layer. */
  ghost predicate AtLayer(w: World, predicates: seq<string>, seeds: seq<string>, n: nat, frontier: seq<string>, truncated: bool) {
    !truncated && w.Healthy() ==> Members(frontier) == Layer(w, predicates, seeds, n)
  }

  lemma HopMarks(w: World, predicates: seq<string>, seeds: seq<string>, hop: nat, frontier: seq<string>, truncated: bool, capped: bool)
    requires Marked(w, predicates, seeds, hop, truncated) && AtLayer(w, predicates, seeds, hop, frontier, truncated)
    requires Members(frontier) <= Ball(w, predicates, seeds, hop)
    requires capped <==> !w.listFails(hop) && Overruns(w, predicates, Members(frontier))
    ensures Marked(w, predicates, seeds, hop + 1, truncated || capped)
  {
    if truncated {
      LargerOverruns(w, predicates, Ball(w, predicates, seeds, hop - 1), Ball(w, predicates, seeds, hop));
    }
    if capped {
      LargerOverruns(w, predicates, Members(frontier), Ball(w, predicates, seeds, hop));
    }
    assert w.Healthy() && capped && !truncated ==> Overruns(w, predicates, Layer(w, predicates, seeds, hop));
  }

  lemma NextIsLayer(w: World, predicates: seq<string>, seeds: seq<string>, hop: nat, found: set<string>, next: seq<string>)
    requires found == Ball(w, predicates, seeds, hop) && forall x :: x in next ==> x !in found
    requires forall x :: x in Ball(w, predicates, seeds, hop + 1) <==> x in found || x in next
    ensures Members(next) == Layer(w, predicates, seeds, hop + 1)
  {
  }

  lemma EmptyNeverOverruns(w: World, predicates: seq<string>)
    ensures !Overruns(w, predicates, {})
  {
    assert Touching(w, predicates, {}) == {};
  }

  lemma OverranStays(w: World, predicates: seq<string>, seeds: seq<string>, n: nat, depth: nat)
    requires n <= depth && Overran(w, predicates, seeds, n)
    ensures Overran(w, predicates, seeds, depth)
  {
  }

  lemma NothingNew(w: World, predicates: seq<string>, seeds: seq<string>, h: nat, found: set<string>)
    requires h > 0 && Ball(w, predicates, seeds, h) == found && Ball(w, predicates, seeds, h - 1) == found
    ensures Layer(w, predicates, seeds, h) == {}
  {
    assert found - found == {};
  }

  lemma BallStopsForever(w: World, predicates: seq<string>, seeds: seq<string>, c: nat, found: set<string>)
    requires found == Ball(w, predicates, seeds, c) && Saturated(w, predicates, found, [])
    ensures forall h: nat :: c <= h ==> Ball(w, predicates, seeds, h) == found
  {
    forall h: nat | c <= h ensures Ball(w, predicates, seeds, h) == found {
      BallStops(w, predicates, seeds, c, h, found);
    }
  }

  lemma NothingBeyond(w: World, predicates: seq<string>, seeds: seq<string>, c: nat, found: set<string>)
    requires forall h: nat :: c <= h ==> Ball(w, predicates, seeds, h) == found
    ensures forall h: nat :: c < h ==> Layer(w, predicates, seeds, h) == {}
  {
    forall h: nat | c < h ensures Layer(w, predicates, seeds, h) == {} {
      NothingNew(w, predicates, seeds, h, found);
    }
  }

  lemma {:induction false} NoMoreOverruns(w: World, predicates: seq<string>, seeds: seq<string>, n: nat, depth: nat)
    requires n <= depth && !Overran(w, predicates, seeds, n)
    requires forall h: nat :: n <= h ==> Layer(w, predicates, seeds, h) == {}
    ensures !Overran(w, predicates, seeds, depth)
    decreases depth
  {
    if n < depth {
      NoMoreOverruns(w, predicates, seeds, n, depth - 1);
      OneMoreLayer(w, predicates, seeds, depth - 1);
    }
  }

  lemma OneMoreLayer(w: World, predicates: seq<string>, seeds: seq<string>, h: nat)
    requires !Overran(w, predicates, seeds, h) && Layer(w, predicates, seeds, h) == {}
    ensures !Overran(w, predicates, seeds, h + 1)
  {
    EmptyNeverOverruns(w, predicates);
  }

  lemma StaysMarked(w: World, predicates: seq<string>, seeds: seq<string>, n: nat, depth: nat)
    requires n <= depth && Marked(w, predicates, seeds, n, true)
    ensures Marked(w, predicates, seeds, depth, true)
  {
    BallGrows(w, predicates, seeds, n - 1, depth - 1);
    LargerOverruns(w, predicates, Ball(w, predicates, seeds, n - 1), Ball(w, predicates, seeds, depth - 1));
    if w.Healthy() {
      OverranStays(w, predicates, seeds, n, depth);
    }
  }

  /** A search that stops early has nothing left to list. */
  lemma StopsMarked(w: World, predicates: seq<string>, seeds: seq<string>, c: nat, n: nat, depth: nat, found: set<string>, truncated: bool)
    requires c <= n <= depth && Marked(w, predicates, seeds, n, truncated)
    requires !truncated && w.Healthy() ==> found == Ball(w, predicates, seeds, c) && Saturated(w, predicates, found, [])
    requires !truncated && w.Healthy() && n == c ==> Layer(w, predicates, seeds, c) == {}
    ensures Marked(w, predicates, seeds, depth, truncated)
  {
    if truncated {
      StaysMarked(w, predicates, seeds, n, depth);
    } else if w.Healthy() {
      BallStopsForever(w, predicates, seeds, c, found);
      NothingBeyond(w, predicates, seeds, c, found);
      NoMoreOverruns(w, predicates, seeds, n, depth);
    }
  }

  /** The search between two hops: sound always, exact as long as nothing was capped or failed. */
  ghost predicate Searched(w: World, predicates: seq<string>, seeds: seq<string>, hop: nat, discovery: seq<string>, found: set<string>,
                           frontier: seq<string>, truncated: bool) {
    && Progress(w, predicates, seeds, hop, discovery, found)
    && (forall x :: x in frontier ==> x in found)
    && (!truncated && w.Healthy() ==> Exact(w, predicates, seeds, hop, discovery, found) && Saturated(w, predicates, found, frontier))
    && Marked(w, predicates, seeds, hop, truncated) && AtLayer(w, predicates, seeds, hop, frontier, truncated)
  }

  /** What is found is authorized and within reach, and everything within reach, nearest first, unless
      something was cut or failed. */
  ghost predicate Located(w: World, predicates: seq<string>, seeds: seq<string>, depth: nat, discovery: seq<string>, truncated: bool) {
    && Distinct(discovery)
    && (forall x :: x in discovery ==> x in Ball(w, predicates, seeds, depth) && w.allowed(x))
    && (!truncated && w.Healthy() ==> (forall x :: x in discovery <==> x in Ball(w, predicates, seeds, depth)))
    && (!truncated && w.Healthy() ==> NearestFirst(w, predicates, seeds, discovery))
  }

  /** What the search promises, together with when it is cut. */
  ghost predicate Discovered(w: World, predicates: seq<string>, seeds: seq<string>, depth: nat, discovery: seq<string>, truncated: bool) {
    Located(w, predicates, seeds, depth, discovery, truncated) && Marked(w, predicates, seeds, depth, truncated)
  }

  lemma StaysLocated(w: World, predicates: seq<string>, seeds: seq<string>, hop: nat, depth: nat, discovery: seq<string>, found: set<string>,
                     truncated: bool)
    requires hop <= depth && Progress(w, predicates, seeds, hop, discovery, found)
    requires !truncated && w.Healthy() ==> Exact(w, predicates, seeds, hop, discovery, found)
    requires !truncated && w.Healthy() && hop < depth ==> Saturated(w, predicates, found, [])
    ensures Located(w, predicates, seeds, depth, discovery, truncated)
  {
    BallGrows(w, predicates, seeds, hop, depth);
    if !truncated && w.Healthy() && hop < depth {
      BallStops(w, predicates, seeds, hop, depth, found);
    }
  }

  /** Nothing is left at the frontier, or the depth is reached. */
  lemma SearchEnds(w: World, predicates: seq<string>, seeds: seq<string>, hop: nat, depth: nat, discovery: seq<string>, found: set<string>,
                   frontier: seq<string>, truncated: bool)
    requires hop <= depth && Searched(w, predicates, seeds, hop, discovery, found, frontier, truncated)
    requires hop < depth ==> frontier == []
    ensures Discovered(w, predicates, seeds, depth, discovery, truncated)
  {
    StaysLocated(w, predicates, seeds, hop, depth, discovery, found, truncated);
    if hop < depth {
      StopsMarked(w, predicates, seeds, hop, hop, depth, found, truncated);
    }
  }

  /** A hop found nothing to go on with. */
  lemma SearchStops(w: World, predicates: seq<string>, seeds: seq<string>, hop: nat, depth: nat, discovery: seq<string>, found: set<string>,
                    frontier: seq<string>, truncated: bool, capped: bool)
    requires hop < depth && Searched(w, predicates, seeds, hop, discovery, found, frontier, truncated)
    requires capped <==> !w.listFails(hop) && Overruns(w, predicates, Members(frontier))
    requires !truncated && !capped && w.Healthy() ==> Saturated(w, predicates, found, [])
    ensures Discovered(w, predicates, seeds, depth, discovery, truncated || capped)
  {
    StaysLocated(w, predicates, seeds, hop, depth, discovery, found, truncated || capped);
    HopMarks(w, predicates, seeds, hop, frontier, truncated, capped);
    StopsMarked(w, predicates, seeds, hop, hop + 1, depth, found, truncated || capped);
  }

  lemma HopAdvances(w: World, predicates: seq<string>, seeds: seq<string>, hop: nat, discovery: seq<string>, found: set<string>,
                    frontier: seq<string>, truncated: bool, capped: bool, next: seq<string>)
    requires Searched(w, predicates, seeds, hop, discovery, found, frontier, truncated)
    requires Distinct(next) && forall x :: x in next ==> x !in found && w.allowed(x) && x in Ball(w, predicates, seeds, hop + 1)
    requires capped <==> !w.listFails(hop) && Overruns(w, predicates, Members(frontier))
    requires !truncated && !capped && w.Healthy() ==> FoundNext(w, predicates, seeds, hop, found, Some(next))
    ensures Searched(w, predicates, seeds, hop + 1, discovery + next, found + Members(next), next, truncated || capped)
  {
    BallGrows(w, predicates, seeds, hop, hop + 1);
    DistinctAppend(discovery, next);
    HopMarks(w, predicates, seeds, hop, frontier, truncated, capped);
    if !truncated && !capped && w.Healthy() {
      HopKeepsExact(w, predicates, seeds, hop, discovery, found, next);
      NextIsLayer(w, predicates, seeds, hop, found, next);
    }
  }

  /** One hop: list the edges at the frontier, gather unseen ends, authorize them in one batch.
      None means the search stops here. */
  method Hop(store: EdgeStore, orgID: string, w: World, predicates: seq<string>, hop: nat,
             frontier: seq<string>, authzOK: set<string>, ghost seeds: seq<string>)
    returns (next: Option<seq<string>>, capped: bool)
    requires store.Valid() && store.Of(orgID) == w.edges && frontier != []
    requires authzOK <= Ball(w, predicates, seeds, hop) && forall x :: x in frontier ==> x in authzOK
    ensures next.Some? ==> Distinct(next.value)
    ensures next.Some? ==> forall x :: x in next.value ==>
              x !in authzOK && w.allowed(x) && x in Ball(w, predicates, seeds, hop + 1)
    ensures capped <==> !w.listFails(hop) && Overruns(w, predicates, Members(frontier))
    ensures !capped && w.Healthy() && authzOK == Ball(w, predicates, seeds, hop) && Saturated(w, predicates, authzOK, frontier) ==>
              FoundNext(w, predicates, seeds, hop, authzOK, next)
  {
    var candidates;
    candidates, capped := Gather(store, orgID, w, predicates, hop, frontier, authzOK, seeds);
    if candidates.None? || candidates.value == [] {
      return None, capped;
    }
    var ok := BatchAllow(w, candidates.value, w.authzFails(hop + 1));
    if ok.None? {
      return None, capped;
    }
    next := Some(Keep(candidates.value, ok.value));
  }

  /** The layered search, with the mark that a listing was cut. */
  method Discover(store: EdgeStore, orgID: string, w: World, seeds: seq<string>, depth: nat, predicates: seq<string>)
    returns (discovery: seq<string>, truncated: bool)
    requires store.Valid() && store.Of(orgID) == w.edges
    ensures Discovered(w, predicates, seeds, depth, discovery, truncated)
    ensures SeedsFirst(w, seeds, discovery) || (w.authzFails(0) && discovery == [] && !truncated)
  {
    truncated := false;
    var seedIDs := UniqueSeeds(seeds);
    var seedOK := BatchAllow(w, seedIDs, w.authzFails(0));
    if seedOK.None? {
      return [], false;
    }
    discovery := Keep(seedIDs, seedOK.value);
    var authzOK := seedOK.value;
    var frontier := discovery;
    ghost var first := discovery;
    assert authzOK == Authorized(w, seeds);
    SeedsAreBallZero(w, predicates, seeds, discovery);
    var hop := 0;
    while hop < depth
      invariant 0 <= hop <= depth && first <= discovery
      invariant Searched(w, predicates, seeds, hop, discovery, authzOK, frontier, truncated)
    {
      if frontier == [] {
        break;
      }
      var next, capped := Hop(store, orgID, w, predicates, hop, frontier, authzOK, seeds);
      if next.None? {
        SearchStops(w, predicates, seeds, hop, depth, discovery, authzOK, frontier, truncated, capped);
        truncated := truncated || capped;
        PrefixLeads(w, seeds, first, discovery);
        return;
      }
      HopAdvances(w, predicates, seeds, hop, discovery, authzOK, frontier, truncated, capped, next.value);
      truncated := truncated || capped;
      authzOK := authzOK + Members(next.value);
      discovery := discovery + next.value;
      frontier := next.value;
      hop := hop + 1;
    }
    SearchEnds(w, predicates, seeds, hop, depth, discovery, authzOK, frontier, truncated);
    PrefixLeads(w, seeds, first, discovery);
  }

  lemma SeedsAreBallZero(w: World, predicates: seq<string>, seeds: seq<string>, discovery: seq<string>)
    requires Distinct(discovery) && forall x :: x in discovery <==> x in Authorized(w, seeds)
    ensures Searched(w, predicates, seeds, 0, discovery, Authorized(w, seeds), discovery, false)
    ensures |discovery| == |Authorized(w, seeds)|
  {
    DistinctCount(discovery, Authorized(w, seeds));
    forall i, d: nat | 0 <= i < |discovery| ensures discovery[i] in Ball(w, predicates, seeds, d) {
      BallGrows(w, predicates, seeds, 0, d);
    }
  }

  /* ---------- the subgraph returned ---------- */

  predicate TripleLe(a: GraphEdge, b: GraphEdge) {
    if a.fromID != b.fromID then StrLe(a.fromID, b.fromID)
    else if a.predicate_ != b.predicate_ then StrLe(a.predicate_, b.predicate_)
    else StrLe(a.toID, b.toID)
  }

  lemma TripleLeIsTotalOrder()
    ensures TotalOrder(TripleLe)
  {
    StrLeIsTotalOrder();
    forall a, b ensures StrLe(a, b) && StrLe(b, a) ==> a == b {
      StrLeTotal(a, b);
    }
  }

  function IDs(nodes: seq<GraphNode>): seq<string> {
    seq(|nodes|, i requires 0 <= i < |nodes| => nodes[i].resourceID)
  }

  predicate Within(ids: seq<string>, e: GraphEdge) {
    e.fromID in ids && e.toID in ids
  }

  /** The loop that hydrates what was found: showable records in discovery order. */
  method Hydrate(w: World, discovery: seq<string>) returns (nodes: seq<GraphNode>)
    requires w.Valid()
    ensures IDs(nodes) == Filter(discovery, id => w.Showable(id))
    ensures forall n :: n in nodes ==> n.resourceID in w.records && n == NodeOf(w.records[n.resourceID])
  {
    nodes := [];
    for i := 0 to |discovery|
      invariant IDs(nodes) == Filter(discovery[..i], id => w.Showable(id))
      invariant forall n :: n in nodes ==> n.resourceID in w.records && n == NodeOf(w.records[n.resourceID])
    {
      var id := discovery[i];
      assert discovery[..i + 1][..i] == discovery[..i];
      if id in w.records {
        var rec := w.records[id];
        if !IsTombstoned(rec.state) && !IsPlaceholder(rec.state) && w.permits(rec) {
          ghost var before := nodes;
          nodes := nodes + [NodeOf(rec)];
          assert IDs(nodes) == IDs(before) + [id];
        }
      }
    }
    assert discovery[..|discovery|] == discovery;
  }

  /** The loop that keeps live edges between shown resources. */
  method SelectEdges(listed: seq<GraphEdge>, ids: seq<string>) returns (kept: seq<GraphEdge>)
    requires forall i, j :: 0 <= i < j < |listed| ==> listed[i].edgeID != listed[j].edgeID
    ensures forall e :: e in kept <==> e in listed && e.state != TOMBSTONED && Within(ids, e)
    ensures Distinct(kept) && SortedBy(TripleLe, kept)
  {
    kept := [];
    var seen: set<string> := {};
    for i := 0 to |listed|
      invariant Distinct(kept)
      invariant forall e :: e in kept <==> e in listed[..i] && e.state != TOMBSTONED && Within(ids, e)
      invariant forall id :: id in seen ==> exists k :: 0 <= k < i && listed[k].edgeID == id
    {
      var e := listed[i];
      assert listed[..i + 1] == listed[..i] + [e];
      if e.state != TOMBSTONED && e.edgeID !in seen && e.fromID in ids && e.toID in ids {
        seen := seen + {e.edgeID};
        kept := kept + [e];
      }
    }
    assert listed[..|listed|] == listed;
    SortKeeps(TripleLe, kept);
    TripleLeIsTotalOrder();
    SortSorts(TripleLe, kept);
    kept := Sort(TripleLe, kept);
  }

  /** What a caller may be shown, whatever caps or failures occurred. */
  ghost predicate Sound(w: World, predicates: seq<string>, seeds: seq<string>, depth: nat, nodes: seq<GraphNode>, edges: seq<GraphEdge>) {
    && Distinct(IDs(nodes)) && Distinct(edges)
    && (forall n :: n in nodes ==>
          && n.resourceID in Ball(w, predicates, seeds, depth) && w.allowed(n.resourceID)
          && w.Showable(n.resourceID) && n == NodeOf(w.records[n.resourceID]))
    && (forall e :: e in edges ==> e in w.edges.Values && Follows(e, predicates) && Within(IDs(nodes), e))
  }

  /** What a caller is shown when nothing was capped and nothing failed. */
  ghost predicate Complete(w: World, predicates: seq<string>, seeds: seq<string>, depth: nat, nodes: seq<GraphNode>, edges: seq<GraphEdge>) {
    && (forall id :: id in Ball(w, predicates, seeds, depth) && w.Showable(id) ==> id in IDs(nodes))
    && NearestFirst(w, predicates, seeds, IDs(nodes))
    && (forall e :: e in w.edges.Values && Follows(e, predicates) && Within(IDs(nodes), e) ==> e in edges)
  }

  /** The showable authorized seeds come first and are all there. */
  ghost predicate SeedsLead(w: World, seeds: seq<string>, ids: seq<string>) {
    && (forall x :: x in Authorized(w, seeds) && w.Showable(x) ==> x in ids)
    && SortedBy((x, y) => y in Authorized(w, seeds) ==> x in Authorized(w, seeds), ids)
  }

  /** What a request can show at all. */
  ghost function Shown(w: World, predicates: seq<string>, seeds: seq<string>, depth: nat): set<string> {
    set id | id in Ball(w, predicates, seeds, depth) && w.Showable(id)
  }

  /** When a subgraph is marked as cut: the resources within reach have more live matching edges than one
      listing returns, or none of them is shown and the organization has; and when nothing fails, exactly
      if some layer, or the last listing, has too many. */
  ghost predicate CutShort(w: World, predicates: seq<string>, seeds: seq<string>, depth: nat, nodes: seq<GraphNode>, truncated: bool) {
    && (truncated ==> Overruns(w, predicates, Ball(w, predicates, seeds, depth)) || (nodes == [] && |Matching(w, predicates)| > EDGE_CAP))
    && (w.Healthy() ==> (truncated <==> Overran(w, predicates, seeds, depth) || LastOverruns(w, predicates, Shown(w, predicates, seeds, depth))))
  }

  lemma MarksCuts(w: World, predicates: seq<string>, seeds: seq<string>, depth: nat, discovery: seq<string>, nodes: seq<GraphNode>,
                  truncated: bool, last: bool)
    requires Discovered(w, predicates, seeds, depth, discovery, truncated)
    requires forall id :: id in IDs(nodes) <==> id in discovery && w.Showable(id)
    requires last ==> LastOverruns(w, predicates, Members(IDs(nodes)))
    requires w.Healthy() ==> (last <==> LastOverruns(w, predicates, Members(IDs(nodes))))
    ensures CutShort(w, predicates, seeds, depth, nodes, truncated || last)
  {
    if truncated {
      BallGrows(w, predicates, seeds, depth - 1, depth);
      LargerOverruns(w, predicates, Ball(w, predicates, seeds, depth - 1), Ball(w, predicates, seeds, depth));
    } else {
      if last && nodes != [] {
        assert IDs(nodes)[0] in Members(IDs(nodes));
        LargerOverruns(w, predicates, Members(IDs(nodes)), Ball(w, predicates, seeds, depth));
      }
      if w.Healthy() {
        assert Members(IDs(nodes)) == Shown(w, predicates, seeds, depth);
      }
    }
  }

  /** The caller's subgraph: nodes nearest first, then every live edge between returned nodes. */
  method VisibleSubgraph(store: EdgeStore, orgID: string, w: World, seeds: seq<string>, depth: nat, predicates: seq<string>)
    returns (nodes: seq<GraphNode>, edges: seq<GraphEdge>, truncated: bool)
    requires store.Valid() && store.Of(orgID) == w.edges && w.Valid()
    ensures Sound(w, predicates, seeds, depth, nodes, edges)
    ensures SortedBy(TripleLe, edges)
    ensures !truncated && w.Healthy() ==> Complete(w, predicates, seeds, depth, nodes, edges)
    ensures CutShort(w, predicates, seeds, depth, nodes, truncated)
    ensures SeedsLead(w, seeds, IDs(nodes)) || (w.authzFails(0) && nodes == [])
  {
    var discovery;
    discovery, truncated := Discover(store, orgID, w, seeds, depth, predicates);
    nodes := Hydrate(w, discovery);
    var ids := IDs(nodes);
    ShownNodes(w, predicates, seeds, discovery, nodes);
    edges := [];
    var last := false;
    if !w.listFails(depth) {
      var listed := store.ListEdges(orgID, HopOptions(ids, predicates));
      OverrunIsExact(w, predicates, ids, listed);
      last := |listed| > EDGE_CAP;
      edges := FinalEdges(w, predicates, listed, ids);
    }
    MarksCuts(w, predicates, seeds, depth, discovery, nodes, truncated, last);
    truncated := truncated || last;
  }

  /** Hydration keeps order, distinctness and the lead of the seeds. */
  lemma ShownNodes(w: World, predicates: seq<string>, seeds: seq<string>, discovery: seq<string>, nodes: seq<GraphNode>)
    requires Distinct(discovery) && IDs(nodes) == Filter(discovery, id => w.Showable(id))
    ensures Distinct(IDs(nodes))
    ensures forall id :: id in IDs(nodes) <==> id in discovery && w.Showable(id)
    ensures forall n :: n in nodes ==> n.resourceID in IDs(nodes)
    ensures NearestFirst(w, predicates, seeds, discovery) ==> NearestFirst(w, predicates, seeds, IDs(nodes))
    ensures SeedsFirst(w, seeds, discovery) ==> SeedsLead(w, seeds, IDs(nodes))
  {
    var showable := id => w.Showable(id);
    FilterMembers(discovery, showable);
    FilterKeepsDistinct(discovery, showable);
    if SeedsFirst(w, seeds, discovery) {
      FilterKeepsPairs(discovery, showable, (x, y) => y in Authorized(w, seeds) ==> x in Authorized(w, seeds));
    }
    if NearestFirst(w, predicates, seeds, discovery) {
      FilterKeepsPairs(discovery, showable, (x, y) => NoFarther(w, predicates, seeds, x, y));
    }
    forall n | n in nodes ensures n.resourceID in IDs(nodes) {
      var i :| 0 <= i < |nodes| && nodes[i] == n;
      assert IDs(nodes)[i] == n.resourceID;
    }
  }

  method FinalEdges(w: World, predicates: seq<string>, listed: seq<GraphEdge>, ids: seq<string>) returns (edges: seq<GraphEdge>)
    requires w.Valid() && Listing(w.edges, HopOptions(ids, predicates), listed)
    ensures forall e :: e in edges ==> e in w.edges.Values && Follows(e, predicates) && Within(ids, e)
    ensures |listed| <= EDGE_CAP ==>
              forall e :: e in w.edges.Values && Follows(e, predicates) && Within(ids, e) ==> e in edges
    ensures Distinct(edges) && SortedBy(TripleLe, edges)
  {
    var shown := Cut(listed, EDGE_CAP);
    forall e | e in shown ensures e in listed {
    }
    forall i, j | 0 <= i < j < |shown| ensures shown[i].edgeID != shown[j].edgeID {
      assert shown[i] in listed && shown[j] in listed && listed[i] != listed[j];
    }
    edges := SelectEdges(shown, ids);
    forall e | e in w.edges.Values && Follows(e, predicates) && Within(ids, e)
      ensures Wanted(e, HopOptions(ids, predicates))
    {
    }
  }

  /* ---------- truncation ---------- */

  /** Seeds first, then the rest in order, at most maxNodes of them; kept edges are compacted
      into the front of the caller's array, of which the first `count` remain. */
  method TruncatePreservingSeeds(nodes: seq<GraphNode>, edges: array<GraphEdge>, seeds: seq<string>, maxNodes: int)
    returns (out: seq<GraphNode>, count: nat, truncated: bool)
    requires Distinct(IDs(nodes))
    modifies edges
    ensures truncated <==> 0 < maxNodes < |nodes|
    ensures !truncated ==> out == nodes && count == edges.Length && edges[..] == old(edges[..])
    ensures truncated ==> |out| == maxNodes && out == Cut(SeedsThenRest(nodes, seeds), maxNodes)
    ensures count <= edges.Length
    ensures truncated ==> edges[..count] == Filter(old(edges[..]), e => Within(IDs(out), e))
  {
    if maxNodes <= 0 || |nodes| <= maxNodes {
      return nodes, edges.Length, false;
    }
    out := PickNodes(nodes, seeds, maxNodes);
    var ids := IDs(out);
    count := 0;
    ghost var was := edges[..];
    ghost var keep := e => Within(ids, e);
    for i := 0 to edges.Length
      invariant count <= i
      invariant edges[..count] == Filter(was[..i], keep)
      invariant edges[i..] == was[i..]
    {
      FilterStep(was, i, keep);
      assert edges[i] == edges[i..][0] == was[i];
      if edges[i].fromID in ids && edges[i].toID in ids {
        edges[count] := edges[i];
        count := count + 1;
      }
      assert edges[i + 1..] == was[i + 1..];
    }
    assert was[..|was|] == was;
    truncated := true;
  }

  predicate IsSeed(seeds: seq<string>, n: GraphNode) {
    n.resourceID != "" && n.resourceID in seeds
  }

  lemma NodesAreNamed(nodes: seq<GraphNode>, m: GraphNode, n: GraphNode)
    requires Distinct(IDs(nodes)) && m in nodes && n in nodes && m.resourceID == n.resourceID
    ensures m == n
  {
    var i :| 0 <= i < |nodes| && nodes[i] == m;
    var j :| 0 <= j < |nodes| && nodes[j] == n;
    assert IDs(nodes)[i] == IDs(nodes)[j];
  }

  lemma NodeIsNew(nodes: seq<GraphNode>, i: nat)
    requires Distinct(IDs(nodes)) && i < |nodes|
    ensures nodes[i] !in nodes[..i]
  {
    assert forall j :: 0 <= j < |nodes| ==> IDs(nodes)[j] == nodes[j].resourceID;
  }

  function SeedNode(seeds: seq<string>): GraphNode -> bool {
    n => IsSeed(seeds, n)
  }

  function OtherNode(seeds: seq<string>): GraphNode -> bool {
    n => !IsSeed(seeds, n)
  }

  function SeedsThenRest(nodes: seq<GraphNode>, seeds: seq<string>): seq<GraphNode> {
    Filter(nodes, SeedNode(seeds)) + Filter(nodes, OtherNode(seeds))
  }

  method PickNodes(nodes: seq<GraphNode>, seeds: seq<string>, maxNodes: nat) returns (out: seq<GraphNode>)
    requires Distinct(IDs(nodes)) && 0 < maxNodes < |nodes|
    ensures |out| == maxNodes && out == Cut(SeedsThenRest(nodes, seeds), maxNodes)
  {
    FilterPartition(nodes, SeedNode(seeds), OtherNode(seeds));
    out := PickSeeds(nodes, seeds, maxNodes);
    if |out| < maxNodes {
      out := PickRest(nodes, out, seeds, maxNodes);
    }
  }

  lemma NotTakenYet(nodes: seq<GraphNode>, seeds: seq<string>, i: nat)
    requires Distinct(IDs(nodes)) && i < |nodes|
    ensures nodes[i] !in Filter(nodes[..i], SeedNode(seeds))
    ensures forall n :: n in Filter(nodes[..i], SeedNode(seeds)) ==> n in nodes
  {
    FilterMembers(nodes[..i], SeedNode(seeds));
    NodeIsNew(nodes, i);
  }

  /** Pass 1: seeds, until the limit. */
  method PickSeeds(nodes: seq<GraphNode>, seeds: seq<string>, maxNodes: nat) returns (out: seq<GraphNode>)
    requires Distinct(IDs(nodes))
    ensures out == Cut(Filter(nodes, SeedNode(seeds)), maxNodes)
  {
    out := [];
    var i := 0;
    while i < |nodes| && |out| < maxNodes
      invariant 0 <= i <= |nodes| && |out| <= maxNodes
      invariant out == Filter(nodes[..i], SeedNode(seeds))
    {
      FilterStep(nodes, i, SeedNode(seeds));
      NotTakenYet(nodes, seeds, i);
      var kept := InOut(nodes, out, i);
      if IsSeed(seeds, nodes[i]) && !kept {
        out := out + [nodes[i]];
      }
      i := i + 1;
    }
    FilterPrefix(nodes, i, SeedNode(seeds));
    assert i == |nodes| ==> nodes[..i] == nodes;
  }

  /** In the second pass exactly the seeds have been taken before their turn. */
  lemma TakenAreSeeds(nodes: seq<GraphNode>, seeds: seq<string>, i: nat)
    requires Distinct(IDs(nodes)) && i < |nodes|
    ensures nodes[i] in Filter(nodes, SeedNode(seeds)) + Filter(nodes[..i], OtherNode(seeds)) <==> IsSeed(seeds, nodes[i])
    ensures forall n :: n in Filter(nodes, SeedNode(seeds)) + Filter(nodes[..i], OtherNode(seeds)) ==> n in nodes
  {
    FilterMembers(nodes, SeedNode(seeds));
    FilterMembers(nodes[..i], OtherNode(seeds));
    NodeIsNew(nodes, i);
  }

  /** Pass 2: the rest in discovery order, until the limit. */
  method PickRest(nodes: seq<GraphNode>, first: seq<GraphNode>, seeds: seq<string>, maxNodes: nat) returns (out: seq<GraphNode>)
    requires Distinct(IDs(nodes)) && first == Filter(nodes, SeedNode(seeds)) && |first| < maxNodes
    ensures out == Cut(SeedsThenRest(nodes, seeds), maxNodes)
  {
    out := first;
    var i := 0;
    while i < |nodes| && |out| < maxNodes
      invariant 0 <= i <= |nodes| && |out| <= maxNodes
      invariant out == first + Filter(nodes[..i], OtherNode(seeds))
    {
      FilterStep(nodes, i, OtherNode(seeds));
      TakenAreSeeds(nodes, seeds, i);
      var kept := InOut(nodes, out, i);
      if !kept {
        out := out + [nodes[i]];
      }
      i := i + 1;
    }
    FilterPrefix(nodes, i, OtherNode(seeds));
    if i == |nodes| {
      assert nodes[..i] == nodes;
    }
  }

  /** The source's `keep` map: has this node been taken already? */
  method InOut(nodes: seq<GraphNode>, out: seq<GraphNode>, i: nat) returns (kept: bool)
    requires Distinct(IDs(nodes)) && i < |nodes| && forall n :: n in out ==> n in nodes
    ensures kept <==> nodes[i] in out
  {
    kept := false;
    for k := 0 to |out|
      invariant kept <==> nodes[i] in out[..k]
    {
      assert out[..k + 1] == out[..k] + [out[k]];
      if out[k].resourceID == nodes[i].resourceID {
        NodesAreNamed(nodes, out[k], nodes[i]);
        kept := true;
      }
    }
    assert out[..|out|] == out;
  }

  /* ---------- the graph request ---------- */

  function ClampDepth(depth: int): (d: nat)
    ensures 1 <= d <= 4 && (1 <= depth <= 4 ==> d == depth)
  {
    if depth <= 0 then 1 else if depth > 4 then 4 else depth
  }

  function ClampNodes(maxNodes: int): (n: nat)
    ensures 1 <= n <= 200 && (1 <= maxNodes <= 200 ==> n == maxNodes)
  {
    if maxNodes <= 0 then 50 else if maxNodes > 200 then 200 else maxNodes
  }

  datatype GraphResult = MissingResource | AuthzUnavailable | Denied
    | Packet(nodes: seq<GraphNode>, edges: seq<GraphEdge>, truncated: bool)

  /** The nodes kept are the closest: nothing nearer to the seed than a kept node is dropped;
      and the edges kept are all live edges between them. */
  ghost predicate Closest(w: World, predicates: seq<string>, seed: string, depth: nat, nodes: seq<GraphNode>, edges: seq<GraphEdge>) {
    && (forall y, x, d: nat :: y in IDs(nodes) && y !in Ball(w, predicates, [seed], d)
          && x in Ball(w, predicates, [seed], d) && x in Ball(w, predicates, [seed], depth) && w.Showable(x)
          ==> x in IDs(nodes))
    && (forall e :: e in w.edges.Values && Follows(e, predicates) && Within(IDs(nodes), e) ==> e in edges)
  }

  /** With a single seed the truncated page is a prefix of the visible subgraph. */
  lemma SingleSeedPage(w: World, seed: string, nodes: seq<GraphNode>)
    requires w.allowed(seed) && seed != ""
    requires SeedsLead(w, [seed], IDs(nodes))
    ensures SeedsThenRest(nodes, [seed]) == nodes
    ensures w.Showable(seed) ==> nodes != [] && nodes[0].resourceID == seed
  {
    assert Authorized(w, [seed]) == {seed};
    var lead := (x, y) => y in Authorized(w, [seed]) ==> x in Authorized(w, [seed]);
    forall i, j | 0 <= i < j < |nodes| && SeedNode([seed])(nodes[j]) ensures SeedNode([seed])(nodes[i]) {
      assert IDs(nodes)[i] == nodes[i].resourceID && IDs(nodes)[j] == nodes[j].resourceID;
      assert lead(IDs(nodes)[i], IDs(nodes)[j]);
    }
    PartitionOfSorted(nodes, SeedNode([seed]), OtherNode([seed]));
    if w.Showable(seed) {
      assert seed in IDs(nodes);
      var j :| 0 <= j < |nodes| && IDs(nodes)[j] == seed;
      if j > 0 {
        assert lead(IDs(nodes)[0], IDs(nodes)[j]);
      }
      assert IDs(nodes)[0] == nodes[0].resourceID;
    }
  }

  lemma PagePrefix(w: World, predicates: seq<string>, seed: string, depth: nat,
                   nodes: seq<GraphNode>, edges: seq<GraphEdge>, page: seq<GraphNode>, pageEdges: seq<GraphEdge>)
    requires page <= nodes && pageEdges == Filter(edges, e => Within(IDs(page), e))
    requires Sound(w, predicates, [seed], depth, nodes, edges)
    ensures Sound(w, predicates, [seed], depth, page, pageEdges)
    ensures Complete(w, predicates, [seed], depth, nodes, edges) ==> Closest(w, predicates, seed, depth, page, pageEdges)
  {
    var keep := e => Within(IDs(page), e);
    FilterMembers(edges, keep);
    FilterKeepsDistinct(edges, keep);
    PrefixIDs(nodes, page);
    if Complete(w, predicates, [seed], depth, nodes, edges) {
      forall y, x, d: nat | y in IDs(page) && x in IDs(nodes) && x !in IDs(page) && x in Ball(w, predicates, [seed], d)
        ensures y in Ball(w, predicates, [seed], d)
      {
        PrefixIsNearer(w, predicates, seed, IDs(nodes), |page|, y, x);
      }
    }
  }

  lemma PrefixIDs(nodes: seq<GraphNode>, page: seq<GraphNode>)
    requires page <= nodes
    ensures IDs(page) == IDs(nodes)[..|page|] && forall x :: x in IDs(page) ==> x in IDs(nodes)
  {
    assert IDs(page) == IDs(nodes)[..|page|];
  }

  lemma PrefixIsNearer(w: World, predicates: seq<string>, seed: string, ids: seq<string>, n: nat, y: string, x: string)
    requires NearestFirst(w, predicates, [seed], ids) && n <= |ids| && y in ids[..n] && x in ids && x !in ids[..n]
    ensures NoFarther(w, predicates, [seed], y, x)
  {
    var j :| 0 <= j < n && ids[j] == y;
    var i :| 0 <= i < |ids| && ids[i] == x;
    assert forall k :: 0 <= k < n ==> ids[k] in ids[..n];
    assert NoFarther(w, predicates, [seed], ids[j], ids[i]);
  }

  lemma CompleteCounts(w: World, predicates: seq<string>, seed: string, depth: nat, nodes: seq<GraphNode>, edges: seq<GraphEdge>)
    requires Sound(w, predicates, [seed], depth, nodes, edges) && Complete(w, predicates, [seed], depth, nodes, edges)
    ensures |nodes| == |Shown(w, predicates, [seed], depth)|
  {
    forall x | x in IDs(nodes) ensures x in Shown(w, predicates, [seed], depth) {
      var i :| 0 <= i < |nodes| && IDs(nodes)[i] == x;
      assert nodes[i] in nodes;
    }
    DistinctCount(IDs(nodes), Shown(w, predicates, [seed], depth));
  }

  /** Expands one resource.  `capped` tells whether an edge cap fired on the way. */
  method Graph(store: EdgeStore, orgID: string, w: World, gateFails: bool, resourceID: string, depth: int, maxNodes: int, predicates: seq<string>)
    returns (r: GraphResult, ghost capped: bool)
    requires store.Valid() && store.Of(orgID) == w.edges && w.Valid()
    ensures r.MissingResource? <==> resourceID == ""
    ensures r.AuthzUnavailable? <==> resourceID != "" && gateFails
    ensures r.Denied? <==> resourceID != "" && !gateFails && !w.allowed(resourceID)
    ensures r.Packet? ==> Sound(w, predicates, [resourceID], ClampDepth(depth), r.nodes, r.edges)
    ensures r.Packet? ==> |r.nodes| <= ClampNodes(maxNodes)
    ensures r.Packet? && w.Showable(resourceID) && !w.authzFails(0) ==> r.nodes != [] && r.nodes[0].resourceID == resourceID
    ensures r.Packet? && w.Healthy() && !capped ==> Closest(w, predicates, resourceID, ClampDepth(depth), r.nodes, r.edges)
    ensures r.Packet? ==> CutShort(w, predicates, [resourceID], ClampDepth(depth), r.nodes, capped)
    ensures r.Packet? && w.Healthy() && !r.truncated ==> Complete(w, predicates, [resourceID], ClampDepth(depth), r.nodes, r.edges)
    ensures r.Packet? && w.Healthy() && !capped ==>
              (r.truncated <==> |Shown(w, predicates, [resourceID], ClampDepth(depth))| > ClampNodes(maxNodes))
    ensures r.Packet? ==> (r.truncated ==> capped || |r.nodes| == ClampNodes(maxNodes)) && (capped ==> r.truncated)
  {
    capped := false;
    if resourceID == "" {
      return MissingResource, false;
    }
    var d, m := ClampDepth(depth), ClampNodes(maxNodes);
    var gate := BatchAllow(w, [resourceID], gateFails);
    if gate.None? {
      return AuthzUnavailable, false;
    }
    if resourceID !in gate.value {
      return Denied, false;
    }
    var nodes, edges, truncated := VisibleSubgraph(store, orgID, w, [resourceID], d, predicates);
    capped := truncated;
    var page, pageEdges, cut := Page(w, predicates, resourceID, d, m, nodes, edges);
    r := Packet(page, pageEdges, truncated || cut);
    if !capped && w.Healthy() {
      CompleteCounts(w, predicates, resourceID, d, nodes, edges);
    }
  }

  /** The truncation step of a graph request, on an array holding the edges. */
  method Page(w: World, predicates: seq<string>, seed: string, ghost depth: nat, maxNodes: nat, nodes: seq<GraphNode>, edges: seq<GraphEdge>)
    returns (page: seq<GraphNode>, pageEdges: seq<GraphEdge>, cut: bool)
    requires w.allowed(seed) && seed != "" && maxNodes > 0
    requires Sound(w, predicates, [seed], depth, nodes, edges)
    requires SeedsLead(w, [seed], IDs(nodes)) || (w.authzFails(0) && nodes == [])
    ensures Sound(w, predicates, [seed], depth, page, pageEdges)
    ensures |page| <= maxNodes && (cut ==> |page| == maxNodes)
    ensures (cut <==> |nodes| > maxNodes) && (!cut ==> page == nodes && pageEdges == edges)
    ensures w.Showable(seed) && !w.authzFails(0) ==> page != [] && page[0].resourceID == seed
    ensures Complete(w, predicates, [seed], depth, nodes, edges) ==> Closest(w, predicates, seed, depth, page, pageEdges)
  {
    var buffer := new GraphEdge[|edges|](i requires 0 <= i < |edges| => edges[i]);
    assert buffer[..] == edges;
    var count;
    page, count, cut := TruncatePreservingSeeds(nodes, buffer, [seed], maxNodes);
    pageEdges := buffer[..count];
    if nodes != [] {
      SingleSeedPage(w, seed, nodes);
    }
    if cut {
      PagePrefix(w, predicates, seed, depth, nodes, edges, page, pageEdges);
    } else {
      assert pageEdges == edges;
      if Complete(w, predicates, [seed], depth, nodes, edges) {
        WholePage(w, predicates, seed, depth, nodes, edges);
      }
    }
  }

  lemma WholePage(w: World, predicates: seq<string>, seed: string, depth: nat, nodes: seq<GraphNode>, edges: seq<GraphEdge>)
    requires Complete(w, predicates, [seed], depth, nodes, edges)
    ensures Closest(w, predicates, seed, depth, nodes, edges)
  {
  }
}
