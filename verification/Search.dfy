/** Search (internal/retrieval/retrieval.go): from index candidates to citations and the subgraph
    around them -- and why a tombstone dominates whatever the index still holds. */
module Search {
  import opened Ports
  import opened Sorting
  import opened EdgeLedger
  import opened Retrieval
  import opened SearchIndex
  import Intake
  import SourceOfTruth
  import Deletion

  datatype Citation = Citation(resourceID: string, revisionID: string)

  datatype SearchPacket = SearchPacket(citations: seq<Citation>, nodes: seq<GraphNode>, edges: seq<GraphEdge>, truncated: bool)

  /** A record that may be cited: present, not tombstoned, permitted by policy. */
  predicate Citable(w: World, id: string) {
    id in w.records && !IsTombstoned(w.records[id].state) && w.permits(w.records[id])
  }

  /** The citations that a list of candidates leads to, in candidate order. */
  function CitationsOf(w: World, hits: seq<Document>): seq<Citation> {
    if hits == [] then []
    else
      var hit := hits[|hits| - 1];
      CitationsOf(w, hits[..|hits| - 1]) +
      if w.allowed(hit.resourceID) && Citable(w, hit.resourceID)
      then [Citation(hit.resourceID, if hit.revisionID == "" then w.records[hit.resourceID].currentRevID else hit.revisionID)]
      else []
  }

  function CitedIDs(citations: seq<Citation>): seq<string> {
    seq(|citations|, i requires 0 <= i < |citations| => citations[i].resourceID)
  }

  /** Nothing in the packet is, or touches, the resource. */
  ghost predicate Hides(p: SearchPacket, id: string) {
    && (forall c :: c in p.citations ==> c.resourceID != id)
    && (forall n :: n in p.nodes ==> n.resourceID != id)
    && (forall e :: e in p.edges ==> e.fromID != id && e.toID != id)
  }

  lemma {:induction false} CitationsAreCitable(w: World, hits: seq<Document>)
    ensures forall c :: c in CitationsOf(w, hits) ==> Citable(w, c.resourceID) && w.allowed(c.resourceID)
  {
    if hits != [] {
      CitationsAreCitable(w, hits[..|hits| - 1]);
    }
  }

  /** Every candidate that is authorized and citable is cited. */
  lemma {:induction false} CitationsAreComplete(w: World, hits: seq<Document>, hit: Document)
    requires hit in hits && w.allowed(hit.resourceID) && Citable(w, hit.resourceID)
    ensures exists c :: c in CitationsOf(w, hits) && c.resourceID == hit.resourceID
  {
    var n := |hits| - 1;
    if hits[n] != hit {
      CitationsAreComplete(w, hits[..n], hit);
      var c :| c in CitationsOf(w, hits[..n]) && c.resourceID == hit.resourceID;
      assert c in CitationsOf(w, hits);
    } else {
      var all := CitationsOf(w, hits);
      assert all[|all| - 1].resourceID == hit.resourceID && all[|all| - 1] in all;
    }
  }

  /** A sound subgraph shows no resource that may not be shown, and no edge at one. */
  lemma SoundHides(w: World, predicates: seq<string>, seeds: seq<string>, depth: nat, nodes: seq<GraphNode>, edges: seq<GraphEdge>, id: string)
    requires Sound(w, predicates, seeds, depth, nodes, edges) && !w.Showable(id)
    ensures forall n :: n in nodes ==> n.resourceID != id
    ensures forall e :: e in edges ==> e.fromID != id && e.toID != id
  {
    forall x | x in IDs(nodes) ensures x != id {
      var i :| 0 <= i < |nodes| && IDs(nodes)[i] == x;
      assert nodes[i] in nodes;
    }
  }

  /** From candidates to a packet.  gateFails: the batch check failed or answered the wrong number
      of questions. */
  method Search(index: Index, store: EdgeStore, orgID: string, w: World, matches: Document -> bool, limit: int, gateFails: bool)
    returns (r: Option<SearchPacket>, ghost hits: seq<Document>, ghost seeds: seq<string>)
    requires store.Valid() && store.Of(orgID) == w.edges && w.Valid()
    ensures r.None? <==> gateFails
    ensures hits == Cut(Filter(index.Of(orgID), matches), if limit <= 0 then 12 else limit)
    ensures r.Some? ==> r.value.citations == CitationsOf(w, hits)
    ensures r.Some? ==> forall s :: s in seeds <==> s != "" && s in CitedIDs(r.value.citations)
    ensures r.Some? ==> Sound(w, [], seeds, 0, r.value.nodes, r.value.edges)
    ensures r.Some? && !w.authzFails(0) ==> forall c :: c in r.value.citations && c.resourceID != "" && w.Showable(c.resourceID) ==>
              c.resourceID in IDs(r.value.nodes)
    ensures r.Some? ==> CutShort(w, [], seeds, 0, r.value.nodes, r.value.truncated)
    ensures r.Some? && !r.value.truncated && w.Healthy() ==> Complete(w, [], seeds, 0, r.value.nodes, r.value.edges)
    ensures r.Some? ==> forall id :: !Citable(w, id) ==> Hides(r.value, id)
  {
    var candidates := index.SearchCandidates(orgID, matches, limit);
    hits, seeds := candidates, [];
    if gateFails {
      return None, hits, seeds;
    }
    var allowedHits := AllowedHits(w, candidates);
    var citations := Cite(w, candidates, allowedHits);
    var cited := AllowedResourceIDs(citations);
    seeds := cited;
    var nodes, edges, truncated := VisibleSubgraph(store, orgID, w, cited, 0, []);
    var packet := SearchPacket(citations, nodes, edges, truncated);
    r := Some(packet);
    CitationsAreCitable(w, candidates);
    forall id | !Citable(w, id) ensures Hides(packet, id) {
      SoundHides(w, [], seeds, 0, nodes, edges, id);
    }
    forall c | c in citations && c.resourceID != "" && w.Showable(c.resourceID) && !w.authzFails(0) ensures c.resourceID in IDs(nodes) {
      var i :| 0 <= i < |citations| && citations[i] == c;
      assert CitedIDs(citations)[i] == c.resourceID;
      assert c.resourceID in Authorized(w, seeds);
    }
  }

  function MayRead(w: World): Document -> bool {
    (d: Document) => w.allowed(d.resourceID)
  }

  /** The cited resources, once each. */
  method AllowedResourceIDs(citations: seq<Citation>) returns (out: seq<string>)
    ensures Distinct(out) && forall s :: s in out <==> s != "" && s in CitedIDs(citations)
  {
    out := [];
    for i := 0 to |citations|
      invariant Distinct(out) && forall s :: s in out <==> s != "" && s in CitedIDs(citations)[..i]
    {
      var id := citations[i].resourceID;
      assert CitedIDs(citations)[..i + 1] == CitedIDs(citations)[..i] + [id];
      if id != "" && id !in out {
        out := out + [id];
      }
    }
    assert CitedIDs(citations)[..|citations|] == CitedIDs(citations);
  }

  method AllowedHits(w: World, candidates: seq<Document>) returns (out: seq<Document>)
    ensures out == Filter(candidates, MayRead(w))
  {
    var keep := MayRead(w);
    out := [];
    for i := 0 to |candidates|
      invariant out == Filter(candidates[..i], keep)
    {
      FilterStep(candidates, i, keep);
      if w.allowed(candidates[i].resourceID) {
        out := out + [candidates[i]];
      }
    }
    assert candidates[..|candidates|] == candidates;
  }

  /** The candidate-to-citation loop. */
  method Cite(w: World, ghost candidates: seq<Document>, allowedHits: seq<Document>) returns (citations: seq<Citation>)
    requires allowedHits == Filter(candidates, MayRead(w))
    ensures citations == CitationsOf(w, candidates)
  {
    citations := [];
    for i := 0 to |allowedHits|
      invariant citations == CitationsOf(w, allowedHits[..i])
    {
      var hit := allowedHits[i];
      assert allowedHits[..i + 1][..i] == allowedHits[..i];
      FilterMembers(candidates, MayRead(w));
      assert hit in allowedHits;
      if hit.resourceID in w.records {
        var rec := w.records[hit.resourceID];
        if !IsTombstoned(rec.state) && w.permits(rec) {
          citations := citations + [Citation(hit.resourceID, if hit.revisionID == "" then rec.currentRevID else hit.revisionID)];
        }
      }
    }
    assert allowedHits[..|allowedHits|] == allowedHits;
    OnlyAllowedMatter(w, candidates);
  }

  lemma {:induction false} OnlyAllowedMatter(w: World, candidates: seq<Document>)
    ensures CitationsOf(w, Filter(candidates, MayRead(w))) == CitationsOf(w, candidates)
  {
    if candidates != [] {
      var n := |candidates| - 1;
      var rest := Filter(candidates[..n], MayRead(w));
      OnlyAllowedMatter(w, candidates[..n]);
      var all := Filter(candidates, MayRead(w));
      assert all == rest + if w.allowed(candidates[n].resourceID) then [candidates[n]] else [];
      if w.allowed(candidates[n].resourceID) {
        assert all[|all| - 1] == candidates[n] && all[..|all| - 1] == rest;
      } else {
        assert all == rest;
      }
    }
  }

  /* ---------- tombstones dominate ---------- */

  type Records = map<string, Record>

  /** What may happen to the organization's records without an intake or import of the resource
      itself: intakes of other resources, placeholders for edge endpoints, and deletion sagas. */
  ghost predicate Elsewhere(before: Records, after: Records, id: string) {
    || (exists a: SourceOfTruth.Attempt :: a.incoming.resourceID != id && after == SourceOfTruth.Committed(before, a))
    || Intake.OnlyPlaceholdersAdded(before, after)
    || (exists x, state, revID, now :: x in before && IsTombstoned(state) && after == before[x := Deletion.Marked(before[x], state, revID, now)])
  }

  /** Once a deletion has committed, the resource can be neither shown nor cited, until something
      writes its record again. */
  lemma {:induction false} TombstonesDominate(history: seq<Records>, id: string)
    requires |history| > 0 && id in history[0] && IsTombstoned(history[0][id].state)
    requires forall i :: 0 <= i < |history| - 1 ==> Elsewhere(history[i], history[i + 1], id)
    ensures id in history[|history| - 1] && IsTombstoned(history[|history| - 1][id].state)
  {
    var n := |history| - 1;
    if n > 0 {
      TombstonesDominate(history[..n], id);
      assert Elsewhere(history[n - 1], history[n], id);
    }
  }

  /** So no search and no graph request over such records names the resource or an edge at it,
      whatever the index, the edges and the permissions are by then. */
  lemma DeletedStaysHidden(history: seq<Records>, id: string, w: World, hits: seq<Document>, p: SearchPacket,
                           predicates: seq<string>, seeds: seq<string>, depth: nat)
    requires |history| > 0 && id in history[0] && IsTombstoned(history[0][id].state)
    requires forall i :: 0 <= i < |history| - 1 ==> Elsewhere(history[i], history[i + 1], id)
    requires w.records == history[|history| - 1]
    ensures !Citable(w, id) && !w.Showable(id)
    ensures p.citations == CitationsOf(w, hits) && Sound(w, predicates, seeds, depth, p.nodes, p.edges) ==> Hides(p, id)
  {
    TombstonesDominate(history, id);
    CitationsAreCitable(w, hits);
    if Sound(w, predicates, seeds, depth, p.nodes, p.edges) {
      SoundHides(w, predicates, seeds, depth, p.nodes, p.edges, id);
    }
  }
}
