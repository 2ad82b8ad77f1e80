/** The edge part of an intake's commit (internal/ingest/ingest.go): placeholders for endpoints,
    upserts under deterministic ids, and the inheritance that the edges ask for. */
module Intake {
  import opened Ports
  import opened Relationships
  import opened EdgeLedger
  import opened AuthzOutbox
  import opened AuthzWorker
  import Mapping

  type Records = map<string, Record>

  /* ---------- edges ---------- */

  function LedgerEdge(orgID: string, e: Mapping.CanonicalEdge, idOf: Triple -> string, now: int): GraphEdge {
    GraphEdge(idOf(Triple(e.fromID, e.predicate_, e.toID)), orgID, e.fromID, e.toID, e.predicate_, e.confidence, ACTIVE,
              e.syncAuthzParent && e.predicate_ == EDGE_PARENT, map["source" := "mapping"], now, now)
  }

  function PlaceholderRecord(orgID: string, id: string, kind: string, title: string, externalID: string, now: int): Record {
    Record(id, orgID, if kind == "" then "resource" else kind, if title == "" then id else title, "internal", [], "", externalID, "",
           PLACEHOLDER, map["placeholder" := "true"], now, now)
  }

  /** Existing records are kept as they are; whatever is new is a placeholder. */
  ghost predicate OnlyPlaceholdersAdded(before: Records, after: Records) {
    && (forall id :: id in before ==> id in after && after[id] == before[id])
    && (forall id :: id in after && id !in before ==> IsPlaceholder(after[id].state) && after[id].resourceID == id)
  }

  /** Creates a placeholder for a missing endpoint. */
  method EnsureEndpoint(records: Records, orgID: string, id: string, kind: string, title: string, externalID: string, now: int)
    returns (out: Records)
    ensures OnlyPlaceholdersAdded(records, out)
    ensures id != "" ==> id in out
    ensures out.Keys == records.Keys + if id == "" then {} else {id}
    ensures id != "" && id !in records ==> out[id] == PlaceholderRecord(orgID, id, kind, title, externalID, now)
  {
    out := records;
    if id != "" && id !in records {
      out := records[id := PlaceholderRecord(orgID, id, kind, title, externalID, now)];
    }
  }

  /** The enqueues that a list of edges asks for, in order. */
  function SyncLog(edges: seq<Mapping.CanonicalEdge>): seq<(Operation, Tuple)> {
    if edges == [] then []
    else SyncLog(edges[..|edges| - 1]) + SyncWork(edges[|edges| - 1])
  }

  function SyncWork(e: Mapping.CanonicalEdge): seq<(Operation, Tuple)> {
    if e.syncAuthzParent && e.predicate_ == EDGE_PARENT
    then [(Write, Tuple(ResourceObject(e.fromID), EDGE_PARENT, ResourceObject(e.toID)))] else []
  }

  /** The organization's edges after upserting a list of mapped edges one by one. */
  ghost function AfterEdges(m: EdgeMap, orgID: string, edges: seq<Mapping.CanonicalEdge>, idOf: Triple -> string, now: int): EdgeMap {
    if edges == [] then m
    else Upserted(AfterEdges(m, orgID, edges[..|edges| - 1], idOf, now), LedgerEdge(orgID, edges[|edges| - 1], idOf, now), now)
  }

  ghost predicate Injective(idOf: Triple -> string) {
    forall t, u :: idOf(t) == idOf(u) ==> t == u
  }

  /** The edge is live under its deterministic id, with the flags and confidence just mapped. */
  ghost predicate Stored(m: EdgeMap, e: Mapping.CanonicalEdge, idOf: Triple -> string) {
    var id := idOf(Mapping.TripleOf(e));
    && id in m && m[id].state == ACTIVE && TripleOf(m[id]) == Mapping.TripleOf(e) && m[id].confidence == e.confidence
    && m[id].syncAuthz == (e.syncAuthzParent && e.predicate_ == EDGE_PARENT)
  }

  ghost predicate AllStored(m: EdgeMap, edges: seq<Mapping.CanonicalEdge>, idOf: Triple -> string) {
    forall e :: e in edges ==> Stored(m, e, idOf)
  }

  /** Edges under other ids are as they were. */
  ghost predicate OthersKept(m: EdgeMap, m': EdgeMap, edges: seq<Mapping.CanonicalEdge>, idOf: Triple -> string) {
    forall id :: (forall e :: e in edges ==> id != idOf(Mapping.TripleOf(e))) ==>
      (id in m' <==> id in m) && (id in m ==> m'[id] == m[id])
  }

  /** Over deterministic ids, an intake leaves each of its edges live exactly once under its own id,
      revives the tombstoned ones, and changes no other edge. */
  lemma {:induction false} MappedEdgesAreStored(m: EdgeMap, orgID: string, edges: seq<Mapping.CanonicalEdge>, idOf: Triple -> string, now: int)
    requires DeterministicIDs(m, idOf) && Injective(idOf) && Mapping.OnePerTriple(edges)
    ensures DeterministicIDs(AfterEdges(m, orgID, edges, idOf, now), idOf)
    ensures AllStored(AfterEdges(m, orgID, edges, idOf, now), edges, idOf)
    ensures OthersKept(m, AfterEdges(m, orgID, edges, idOf, now), edges, idOf)
  {
    if edges != [] {
      var n := |edges| - 1;
      MappedEdgesAreStored(m, orgID, edges[..n], idOf, now);
      var before, after := AfterEdges(m, orgID, edges[..n], idOf, now), AfterEdges(m, orgID, edges, idOf, now);
      UpsertUnderItsID(before, orgID, edges[n], idOf, now);
      OneMoreStored(before, after, edges, n, idOf);
      OthersStillKept(m, before, after, edges, n, idOf);
    }
  }

  lemma OneMoreStored(before: EdgeMap, after: EdgeMap, edges: seq<Mapping.CanonicalEdge>, n: nat, idOf: Triple -> string)
    requires n == |edges| - 1 && Injective(idOf) && Mapping.OnePerTriple(edges) && AllStored(before, edges[..n], idOf)
    requires Stored(after, edges[n], idOf) && after == before[idOf(Mapping.TripleOf(edges[n])) := after[idOf(Mapping.TripleOf(edges[n]))]]
    ensures AllStored(after, edges, idOf)
  {
    forall x | x in edges ensures Stored(after, x, idOf) {
      var i :| 0 <= i < |edges| && edges[i] == x;
      if i < n {
        assert edges[..n][i] == x && Stored(before, x, idOf);
        assert Mapping.TripleOf(edges[i]) != Mapping.TripleOf(edges[n]);
      }
    }
  }

  lemma OthersStillKept(m: EdgeMap, before: EdgeMap, after: EdgeMap, edges: seq<Mapping.CanonicalEdge>, n: nat, idOf: Triple -> string)
    requires n == |edges| - 1 && OthersKept(m, before, edges[..n], idOf)
    requires idOf(Mapping.TripleOf(edges[n])) in after
    requires after == before[idOf(Mapping.TripleOf(edges[n])) := after[idOf(Mapping.TripleOf(edges[n]))]]
    ensures OthersKept(m, after, edges, idOf)
  {
    forall id | forall x :: x in edges ==> id != idOf(Mapping.TripleOf(x))
      ensures (id in after <==> id in m) && (id in m ==> after[id] == m[id])
    {
      assert edges[n] in edges && forall x :: x in edges[..n] ==> x in edges;
    }
  }

  lemma UpsertUnderItsID(m: EdgeMap, orgID: string, e: Mapping.CanonicalEdge, idOf: Triple -> string, now: int)
    requires DeterministicIDs(m, idOf)
    ensures var id := idOf(Mapping.TripleOf(e));
            var m' := Upserted(m, LedgerEdge(orgID, e, idOf, now), now);
            id in m' && m' == m[id := m'[id]] && Stored(m', e, idOf) && DeterministicIDs(m', idOf)
  {
    var edge := LedgerEdge(orgID, e, idOf, now);
    DeterministicIDsGiveOneEdgePerTriple(m, idOf, edge, now);
  }

  lemma {:induction false} SyncLogIsWrites(edges: seq<Mapping.CanonicalEdge>)
    ensures OnlyWrites(SyncLog(edges))
  {
    if edges != [] {
      SyncLogIsWrites(edges[..|edges| - 1]);
    }
  }

  /** Writes edges under their deterministic ids, with placeholders for endpoints that are missing,
      and enqueues exactly the inheritance that the edges ask for. */
  method WriteEdges(graph: EdgeStore, ledger: AuthzLedger, records0: Records, orgID: string, seedID: string,
                    edges: seq<Mapping.CanonicalEdge>, idOf: Triple -> string, now: int, ghost max: int, ghost run0: Run)
    returns (records: Records, ghost run: Run)
    requires graph.Valid() && orgID != "" && forall t :: idOf(t) != ""
    requires forall e :: e in edges ==> Mapping.Usable(e)
    requires LedBy(max, run0, ledger)
    modifies graph, ledger`rows, ledger`nextID, ledger`log
    ensures graph.Valid() && LedBy(max, run, ledger)
    ensures graph.Of(orgID) == AfterEdges(old(graph.Of(orgID)), orgID, edges, idOf, now)
    ensures graph.edges - {orgID} == old(graph.edges) - {orgID}
    ensures OnlyPlaceholdersAdded(records0, records) && EndpointsKnown(edges, records.Keys + {seedID})
    ensures ledger.log == old(ledger.log) + SyncLog(edges)
    ensures Continues(max, orgID, run0, run, ledger.rows, ledger.log)
    ensures OnlyWritesAdded(old(ledger.rows), ledger.rows, Requested(SyncLog(edges))) && Waits(ledger.rows, orgID, SyncLog(edges))
  {
    records, run := records0, run0;
    var known := if seedID != "" then {seedID} else {};
    ghost var m, rows, log, edges0 := graph.Of(orgID), ledger.rows, ledger.log, graph.edges;
    for i := 0 to |edges|
      invariant OnlyPlaceholdersAdded(records0, records) && known <= records.Keys + {seedID}
      invariant EndpointsKnown(edges[..i], records.Keys + {seedID})
      invariant graph.edges - {orgID} == edges0 - {orgID}
      invariant WrittenSoFar(graph, ledger, orgID, edges[..i], idOf, now, max, run0, run, m, log)
    {
      assert edges[..i + 1] == edges[..i] + [edges[i]];
      ghost var before := records;
      records, known := EnsureEndpoints(records, orgID, seedID, edges[i], known, now);
      EndpointsAdd(records0, before, records, seedID, edges[..i], edges[i]);
      run := WriteEdge(graph, ledger, orgID, edges[..i], edges[i], idOf, now, max, run0, run, m, log);
    }
    assert edges[..|edges|] == edges;
    WritesJoin(max, orgID, run0, run, rows, log, ledger.rows, ledger.log, edges);
  }

  lemma WritesJoin(max: int, orgID: string, run0: Run, run: Run, rows: Rows, log: seq<(Operation, Tuple)>,
                   rows': Rows, log': seq<(Operation, Tuple)>, edges: seq<Mapping.CanonicalEdge>)
    requires Continues(max, orgID, run0, run, rows', log') && run0.Last().rows == rows && run0.Last().log == log && log' == log + SyncLog(edges)
    ensures OnlyWritesAdded(rows, rows', Requested(SyncLog(edges))) && Waits(rows', orgID, SyncLog(edges))
  {
    StretchQueues(max, orgID, run0, run, rows, log, rows', log', SyncLog(edges));
    SyncLogIsWrites(edges);
  }

  /** What ledger and graph hold when a prefix of the edges is through. */
  ghost predicate WrittenSoFar(graph: EdgeStore, ledger: AuthzLedger, orgID: string, done: seq<Mapping.CanonicalEdge>, idOf: Triple -> string,
                               now: int, max: int, run0: Run, run: Run, m: EdgeMap, log: seq<(Operation, Tuple)>)
    reads graph, ledger
  {
    && graph.Valid() && LedBy(max, run, ledger) && Continues(max, orgID, run0, run, ledger.rows, ledger.log)
    && Wrote(graph.Of(orgID), ledger.log, orgID, done, idOf, now, m, log)
  }

  ghost predicate Wrote(m': EdgeMap, log': seq<(Operation, Tuple)>, orgID: string, done: seq<Mapping.CanonicalEdge>, idOf: Triple -> string,
                        now: int, m: EdgeMap, log: seq<(Operation, Tuple)>)
  {
    m' == AfterEdges(m, orgID, done, idOf, now) && log' == log + SyncLog(done)
  }

  lemma WroteOneMore(m': EdgeMap, log1: seq<(Operation, Tuple)>, orgID: string, done: seq<Mapping.CanonicalEdge>, idOf: Triple -> string,
                     now: int, m: EdgeMap, log: seq<(Operation, Tuple)>, e: Mapping.CanonicalEdge)
    requires Wrote(m', log1, orgID, done, idOf, now, m, log)
    ensures Wrote(Upserted(m', LedgerEdge(orgID, e, idOf, now), now), log1 + SyncWork(e), orgID, done + [e], idOf, now, m, log)
  {
    PrefixStep(done, e, m, orgID, idOf, now);
    assert log + SyncLog(done) + SyncWork(e) == log + (SyncLog(done) + SyncWork(e));
  }

  method WriteEdge(graph: EdgeStore, ledger: AuthzLedger, orgID: string, ghost done: seq<Mapping.CanonicalEdge>, e: Mapping.CanonicalEdge,
                   idOf: Triple -> string, now: int, ghost max: int, ghost run0: Run, ghost run1: Run,
                   ghost m: EdgeMap, ghost log: seq<(Operation, Tuple)>)
    returns (ghost run: Run)
    requires WrittenSoFar(graph, ledger, orgID, done, idOf, now, max, run0, run1, m, log)
    requires orgID != "" && Mapping.Usable(e) && idOf(Mapping.TripleOf(e)) != ""
    modifies graph, ledger`rows, ledger`nextID, ledger`log
    ensures WrittenSoFar(graph, ledger, orgID, done + [e], idOf, now, max, run0, run, m, log)
    ensures graph.edges - {orgID} == old(graph.edges) - {orgID}
  {
    ghost var m', rows1, log1 := graph.Of(orgID), ledger.rows, ledger.log;
    UpsertMapped(graph, orgID, e, idOf, now);
    WroteOneMore(m', log1, orgID, done, idOf, now, m, log, e);
    run := EnqueueEdgeWork(ledger, LedgerEdge(orgID, e, idOf, now), Write, max, run1);
    ContinuesFurther(max, orgID, run0, run1, rows1, log1, run, ledger.rows, ledger.log);
  }

  /** Every edge that wants its endpoints to exist finds them among the known ids. */
  ghost predicate EndpointsKnown(edges: seq<Mapping.CanonicalEdge>, known: set<string>) {
    forall e :: e in edges && e.ensureEndpoints ==> e.fromID in known && e.toID in known
  }

  method EnsureEndpoints(records: Records, orgID: string, seedID: string, e: Mapping.CanonicalEdge, known0: set<string>, now: int)
    returns (out: Records, known: set<string>)
    requires Mapping.Usable(e) && known0 <= records.Keys + {seedID}
    ensures OnlyPlaceholdersAdded(records, out) && known <= out.Keys + {seedID}
    ensures EndpointsKnown([e], out.Keys + {seedID})
  {
    out, known := records, known0;
    if e.ensureEndpoints {
      if e.fromID !in known {
        out := EnsureEndpoint(out, orgID, e.fromID, "resource", e.fromID, "", now);
        known := known + {e.fromID};
      }
      if e.toID !in known {
        out := EnsureEndpoint(out, orgID, e.toID, e.toKind, e.toTitle, e.toExternalID, now);
        known := known + {e.toID};
      }
    }
  }

  method UpsertMapped(graph: EdgeStore, orgID: string, e: Mapping.CanonicalEdge, idOf: Triple -> string, now: int)
    requires graph.Valid() && orgID != "" && Mapping.Usable(e) && idOf(Mapping.TripleOf(e)) != ""
    modifies graph
    ensures graph.Valid()
    ensures graph.Of(orgID) == Upserted(old(graph.Of(orgID)), LedgerEdge(orgID, e, idOf, now), now)
    ensures graph.edges - {orgID} == old(graph.edges) - {orgID}
  {
    var edge := LedgerEdge(orgID, e, idOf, now);
    assert Stamped(edge, "", now) == edge;
    var ok := graph.UpsertEdge(edge, "", now);
  }

  lemma PrefixStep(done: seq<Mapping.CanonicalEdge>, e: Mapping.CanonicalEdge, m: EdgeMap, orgID: string, idOf: Triple -> string, now: int)
    ensures SyncLog(done + [e]) == SyncLog(done) + SyncWork(e)
    ensures AfterEdges(m, orgID, done + [e], idOf, now)
            == Upserted(AfterEdges(m, orgID, done, idOf, now), LedgerEdge(orgID, e, idOf, now), now)
  {
    assert (done + [e])[..|done|] == done;
  }

  lemma EndpointsAdd(r0: Records, r1: Records, r2: Records, seedID: string, edges: seq<Mapping.CanonicalEdge>, e: Mapping.CanonicalEdge)
    requires OnlyPlaceholdersAdded(r0, r1) && OnlyPlaceholdersAdded(r1, r2)
    requires EndpointsKnown(edges, r1.Keys + {seedID}) && EndpointsKnown([e], r2.Keys + {seedID})
    ensures OnlyPlaceholdersAdded(r0, r2) && EndpointsKnown(edges + [e], r2.Keys + {seedID})
  {
    assert r1.Keys <= r2.Keys;
    assert e in [e];
  }
}
