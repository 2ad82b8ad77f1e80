/** The deletion saga (internal/deletion/deletion.go): visibility goes first, in one transaction;
    index, evidence and the final state follow, and the process may stop between any two steps. */
module Deletion {
  import opened Ports
  import opened Sorting
  import opened Relationships
  import opened EdgeLedger
  import opened AuthzOutbox
  import opened AuthzWorker
  import opened SearchIndex

  datatype Revision = Revision(resourceID: string, evidenceRef: string, state: string)

  datatype Derivative = Derivative(kind: string, ref: string)

  /* ---------- evidence ---------- */

  datatype Version = Version(key: string, version: string)

  function Before(s: string, c: char): string {
    if s == "" || s[0] == c then "" else [s[0]] + Before(s[1..], c)
  }

  /** "key@version" or "key#version"; without a mark the whole reference is the key. */
  function SplitEvidenceRef(ref: string): Version {
    if '@' in ref then Version(Before(ref, '@'), AfterMark(ref, '@'))
    else if '#' in ref then Version(Before(ref, '#'), AfterMark(ref, '#'))
    else Version(ref, "")
  }

  function AfterMark(s: string, c: char): string
    requires c in s
  {
    if s[0] == c then s[1..] else AfterMark(s[1..], c)
  }

  /** What ingest writes is what deletion reads, as long as the key itself has no '@'. */
  lemma {:induction false} SplitReadsWhatIngestWrites(key: string, version: string)
    requires '@' !in key
    ensures SplitEvidenceRef(key + "@" + version) == Version(key, version)
  {
    var ref := key + "@" + version;
    assert ref[|key|] == '@';
    if key == "" {
      assert ref == "@" + version && ref[1..] == version;
    } else {
      var rest := key[1..];
      SplitReadsWhatIngestWrites(rest, version);
      assert ref[1..] == rest + "@" + version && (rest + "@" + version)[|rest|] == '@';
      assert key == [key[0]] + rest;
    }
  }

  /** An object store.  Unless it is reliable, its deletes may fail, with or without effect. */
  class EvidenceStore {
    var objects: set<Version>
    const reliable: bool
    /** Every delete ever asked for, and whether it was acknowledged. */
    ghost var calls: seq<(Version, bool)>

    constructor (objects: set<Version>, reliable: bool)
      ensures this.objects == objects && this.reliable == reliable && calls == []
    {
      this.objects, this.reliable, this.calls := objects, reliable, [];
    }

    method DeleteVersion(v: Version) returns (ok: bool)
      modifies this
      ensures objects == old(objects) - {v} || (!ok && objects == old(objects))
      ensures reliable ==> ok
      ensures calls == old(calls) + [(v, ok)]
    {
      ok :| reliable ==> ok;
      calls := calls + [(v, ok)];
      var reached: bool :| true;
      if ok || reached {
        objects := objects - {v};
      }
    }
  }

  /* ---------- visibility ---------- */

  function IncidentOptions(resourceID: string): ListOptions {
    ListOptions([resourceID], [], false, 1000)
  }

  function Tombstoning(m: EdgeMap, ids: set<string>, now: int): EdgeMap {
    map id | id in m :: if id in ids then m[id].(state := TOMBSTONED, updatedAt := now) else m[id]
  }

  /** The same, edge by edge. */
  function InTurn(m: EdgeMap, edges: seq<GraphEdge>, now: int): EdgeMap {
    if edges == [] then m
    else
      var before, id := InTurn(m, edges[..|edges| - 1], now), edges[|edges| - 1].edgeID;
      Buried(before, id, now)
  }

  /** One edge tombstoned, if it is there. */
  function Buried(m: EdgeMap, id: string, now: int): EdgeMap {
    if id in m then m[id := m[id].(state := TOMBSTONED, updatedAt := now)] else m
  }

  lemma InTurnStep(m: EdgeMap, edges: seq<GraphEdge>, i: nat, now: int)
    requires i < |edges|
    ensures InTurn(m, edges[..i + 1], now) == Buried(InTurn(m, edges[..i], now), edges[i].edgeID, now)
    ensures DeleteWork(edges[..i + 1]) == DeleteWork(edges[..i]) + WorkOf(edges[i], Delete)
  {
    assert edges[..i + 1][..i] == edges[..i];
  }

  lemma {:induction false} InTurnIsTombstoning(m: EdgeMap, edges: seq<GraphEdge>, now: int)
    ensures InTurn(m, edges, now) == Tombstoning(m, IDsOf(edges), now)
  {
    if edges != [] {
      var n := |edges| - 1;
      InTurnIsTombstoning(m, edges[..n], now);
      assert edges == edges[..n] + [edges[n]];
      assert IDsOf(edges) == IDsOf(edges[..n]) + {edges[n].edgeID};
    }
  }

  function IDsOf(edges: seq<GraphEdge>): set<string> {
    set e | e in edges :: e.edgeID
  }

  function DeleteWork(edges: seq<GraphEdge>): seq<(Operation, Tuple)> {
    if edges == [] then [] else DeleteWork(edges[..|edges| - 1]) + WorkOf(edges[|edges| - 1], Delete)
  }

  function LiveIncident(m: EdgeMap, id: string): set<string> {
    set k | k in m && m[k].state != TOMBSTONED && (m[k].fromID == id || m[k].toID == id)
  }

  /** With no more live edges at the resource than the listing holds, none is left afterwards, and
      a delete is enqueued for each one that granted inheritance. */
  lemma NoLiveEdgeIsLeft(m: EdgeMap, id: string, listed: seq<GraphEdge>, now: int)
    requires Keyed(m) && Listing(m, IncidentOptions(id), listed) && |LiveIncident(m, id)| <= 1000
    ensures LiveIncident(Tombstoning(m, IDsOf(listed), now), id) == {}
    ensures forall k :: k in LiveIncident(m, id) && NeedsSynchronization(m[k]) ==> (Delete, InheritanceTuple(m[k])) in DeleteWork(listed)
  {
    var live := LiveIncident(m, id);
    var edges := set k | k in live :: m[k];
    KeyedIds(m);
    ImageIsNoLarger(live, edges, k requires k in m => m[k]);
    forall e | e in listed ensures e in edges {
      assert e in m.Values && Wanted(e, IncidentOptions(id)) && e.edgeID in live;
    }
    if |listed| == 1000 {
      FullList(listed, edges, 1000);
    }
    forall k | k in live ensures m[k] in listed && k in IDsOf(listed) {
      assert m[k] in m.Values && Wanted(m[k], IncidentOptions(id)) && m[k] in edges;
    }
    forall k | k in live && NeedsSynchronization(m[k]) ensures (Delete, InheritanceTuple(m[k])) in DeleteWork(listed) {
      WorkCovers(listed, m[k]);
    }
  }

  lemma {:induction false} ImageIsNoLarger(ids: set<string>, image: set<GraphEdge>, f: string --> GraphEdge)
    requires forall k :: k in ids ==> f.requires(k)
    requires image == set k | k in ids :: f(k)
    ensures |image| <= |ids|
  {
    if ids != {} {
      var k :| k in ids;
      var rest := set j | j in ids - {k} :: f(j);
      ImageIsNoLarger(ids - {k}, rest, f);
      assert image == rest + {f(k)};
    }
  }

  lemma {:induction false} WorkCovers(edges: seq<GraphEdge>, e: GraphEdge)
    requires e in edges && NeedsSynchronization(e)
    ensures (Delete, InheritanceTuple(e)) in DeleteWork(edges)
  {
    var n := |edges| - 1;
    if edges[n] != e {
      WorkCovers(edges[..n], e);
    }
  }

  /* ---------- the saga ---------- */

  /** What the other systems answer, and after how many of the steps behind the transaction the
      process stops.  Failing listings of revisions and edges go unnoticed. */
  datatype Env = Env(canDelete: bool, canAdmin: bool, txFails: bool, revisionsFail: bool, edgesFail: bool, indexFails: bool,
                     hold: Option<bool>, finalWriteFails: bool, stopAfter: nat)

  datatype Status = Complete | Blocked

  datatype Outcome = Rejected | Stopped | Finished(status: Status, evidenceErased: bool, derivatives: seq<Derivative>)

  /** The index answers, the hold is known, and the process lives past both steps. */
  predicate Proceeds(env: Env) {
    !env.indexFails && env.hold.Some? && env.stopAfter >= 2
  }

  /** One step for each listed revision with evidence, up to the hundred revisions of a listing. */
  function StepsToErase(revisions: map<string, Revision>, id: string, env: Env): nat {
    var n := |Referring(revisions, id)|;
    if env.revisionsFail then 0 else if n < 100 then n else 100
  }

  predicate IsComplete(r: Outcome) {
    r.Finished? && r.status == Complete
  }

  /** The record that the saga writes. */
  function Marked(r: Record, state: string, revID: string, now: int): Record {
    r.(state := state, currentRevID := revID, updatedAt := now, createdAt := if r.createdAt == 0 then now else r.createdAt)
  }

  /** Evidence versions that the resource's revisions refer to. */
  function EvidenceOf(revisions: map<string, Revision>, id: string): set<Version> {
    set k | k in revisions && revisions[k].resourceID == id && revisions[k].evidenceRef != "" :: SplitEvidenceRef(revisions[k].evidenceRef)
  }

  function RevisionsOf(revisions: map<string, Revision>, id: string): set<string> {
    set k | k in revisions && revisions[k].resourceID == id
  }

  /** The resource's revisions that refer to evidence. */
  function Referring(revisions: map<string, Revision>, id: string): set<string> {
    set k | k in revisions && revisions[k].resourceID == id && revisions[k].evidenceRef != ""
  }

  /** The evidence that some revisions refer to, in order. */
  function RefsAmong(revisions: map<string, Revision>, ks: seq<string>): seq<Version> {
    RefsAmongTo(revisions, ks, |ks|)
  }

  function RefsAmongTo(revisions: map<string, Revision>, ks: seq<string>, n: nat): seq<Version>
    requires n <= |ks|
  {
    if n == 0 then [] else RefsAmongTo(revisions, ks, n - 1) + RefOf(revisions, ks[n - 1])
  }

  function RefOf(revisions: map<string, Revision>, k: string): seq<Version> {
    if k in revisions && revisions[k].evidenceRef != "" then [SplitEvidenceRef(revisions[k].evidenceRef)] else []
  }

  /** Edges at the resource, live or dead. */
  function IncidentOf(m: EdgeMap, id: string): set<string> {
    set k | k in m && (m[k].fromID == id || m[k].toID == id)
  }

  lemma AllIncidentListed(m: EdgeMap, id: string, listed: seq<GraphEdge>)
    requires Keyed(m) && Listing(m, ListOptions([id], [], true, 200), listed)
    ensures |IncidentOf(m, id)| <= 200 ==> forall k :: k in IncidentOf(m, id) ==> exists i :: 0 <= i < |listed| && listed[i].edgeID == k
  {
    var all := IncidentOf(m, id);
    var edges := set k | k in all :: m[k];
    KeyedIds(m);
    ImageIsNoLarger(all, edges, k requires k in m => m[k]);
    forall e | e in listed ensures e in edges {
      assert e in m.Values && Wanted(e, ListOptions([id], [], true, 200)) && e.edgeID in all;
    }
    if |listed| == 200 {
      FullList(listed, edges, 200);
    }
    if |all| <= 200 {
      forall k | k in all ensures exists i :: 0 <= i < |listed| && listed[i].edgeID == k {
        assert m[k] in m.Values && Wanted(m[k], ListOptions([id], [], true, 200)) && m[k] in edges && m[k] in listed;
      }
    }
  }

  /** The evidence versions that an enumeration names, in order, repetitions included: what the saga
      asks the store to delete. */
  function Refs(derivatives: seq<Derivative>): seq<Version> {
    RefsTo(derivatives, |derivatives|)
  }

  function RefsTo(derivatives: seq<Derivative>, n: nat): seq<Version>
    requires n <= |derivatives|
  {
    if n == 0 then [] else RefsTo(derivatives, n - 1) + NamedBy(derivatives[n - 1])
  }

  function NamedBy(d: Derivative): seq<Version> {
    if d.kind == "evidence" then [SplitEvidenceRef(d.ref)] else []
  }

  function Versions(refs: seq<Version>): set<Version> {
    set v | v in refs
  }

  lemma {:induction false} RefsOfPart(derivatives: seq<Derivative>, a: seq<Derivative>, n: nat)
    requires n <= |a| <= |derivatives| && forall i :: 0 <= i < |a| ==> derivatives[i] == a[i]
    ensures RefsTo(derivatives, n) == RefsTo(a, n)
  {
    if n > 0 {
      RefsOfPart(derivatives, a, n - 1);
    }
  }

  lemma {:induction false} RefsAddTo(a: seq<Derivative>, b: seq<Derivative>, n: nat)
    requires n <= |b|
    ensures RefsTo(a + b, |a| + n) == Refs(a) + RefsTo(b, n)
  {
    if n == 0 {
      RefsOfPart(a + b, a, |a|);
    } else {
      RefsAddTo(a, b, n - 1);
      assert (a + b)[|a| + n - 1] == b[n - 1];
    }
  }

  lemma RefsAdd(a: seq<Derivative>, b: seq<Derivative>)
    ensures Refs(a + b) == Refs(a) + Refs(b)
  {
    RefsAddTo(a, b, |b|);
  }

  lemma {:induction false} RefsGrow(derivatives: seq<Derivative>, i: nat, n: nat)
    requires i <= n <= |derivatives|
    ensures RefsTo(derivatives, i) <= RefsTo(derivatives, n)
  {
    if i < n {
      RefsGrow(derivatives, i, n - 1);
    }
  }

  /** A revision without evidence, under a new id. */
  lemma OneMoreRevision(revisions: map<string, Revision>, revID: string, id: string)
    requires revID !in revisions
    ensures |RevisionsOf(revisions[revID := Revision(id, "", TOMBSTONED)], id)| == |RevisionsOf(revisions, id)| + 1
    ensures EvidenceOf(revisions[revID := Revision(id, "", TOMBSTONED)], id) == EvidenceOf(revisions, id)
    ensures Referring(revisions[revID := Revision(id, "", TOMBSTONED)], id) == Referring(revisions, id)
  {
    var more := revisions[revID := Revision(id, "", TOMBSTONED)];
    assert RevisionsOf(more, id) == RevisionsOf(revisions, id) + {revID};
    assert Referring(more, id) == Referring(revisions, id);
    SameEvidence(revisions, more, id);
  }

  lemma SameEvidence(revisions: map<string, Revision>, more: map<string, Revision>, id: string)
    requires Referring(more, id) == Referring(revisions, id)
    requires forall k :: k in revisions ==> k in more && more[k] == revisions[k]
    ensures EvidenceOf(more, id) == EvidenceOf(revisions, id)
  {
    forall v ensures v in EvidenceOf(more, id) <==> v in EvidenceOf(revisions, id) {
      if v in EvidenceOf(more, id) {
        var k :| k in more && more[k].resourceID == id && more[k].evidenceRef != "" && v == SplitEvidenceRef(more[k].evidenceRef);
        assert k in Referring(more, id);
      }
      if v in EvidenceOf(revisions, id) {
        var k :| k in revisions && revisions[k].resourceID == id && revisions[k].evidenceRef != "" && v == SplitEvidenceRef(revisions[k].evidenceRef);
        assert k in more;
      }
    }
  }

  /** What an enumeration names: nothing when the revisions could not be listed, else evidence of the resource. */
  ghost predicate Enumerated(revisions: map<string, Revision>, id: string, env: Env, refs: seq<Version>) {
    if env.revisionsFail then refs == [] else NamesEvidence(revisions, id, Versions(refs))
  }

  /** Evidence of the resource: all of it, unless its revisions exceed one listing. */
  ghost predicate NamesEvidence(revisions: map<string, Revision>, id: string, named: set<Version>) {
    && named <= EvidenceOf(revisions, id)
    && (|RevisionsOf(revisions, id)| <= 100 ==> named == EvidenceOf(revisions, id))
  }

  lemma {:induction false} RefsAmongMembers(revisions: map<string, Revision>, ks: seq<string>, n: nat, v: Version)
    requires n <= |ks|
    ensures v in RefsAmongTo(revisions, ks, n) <==>
              exists i :: 0 <= i < n && ks[i] in revisions && revisions[ks[i]].evidenceRef != "" && v == SplitEvidenceRef(revisions[ks[i]].evidenceRef)
  {
    if n > 0 {
      RefsAmongMembers(revisions, ks, n - 1, v);
    }
  }

  lemma SomeOrAllEvidence(revisions: map<string, Revision>, id: string, revs: seq<string>)
    requires forall k :: k in revs ==> k in RevisionsOf(revisions, id)
    requires |RevisionsOf(revisions, id)| <= 100 ==> forall k :: k in RevisionsOf(revisions, id) ==> k in revs
    ensures NamesEvidence(revisions, id, Versions(RefsAmong(revisions, revs)))
  {
    forall v | v in Versions(RefsAmong(revisions, revs)) ensures v in EvidenceOf(revisions, id) {
      RefsAmongMembers(revisions, revs, |revs|, v);
      var i :| 0 <= i < |revs| && revs[i] in revisions && revisions[revs[i]].evidenceRef != "" && v == SplitEvidenceRef(revisions[revs[i]].evidenceRef);
      assert revs[i] in revs;
    }
    if |RevisionsOf(revisions, id)| <= 100 {
      forall v | v in EvidenceOf(revisions, id) ensures v in Versions(RefsAmong(revisions, revs)) {
        var k :| k in revisions && revisions[k].resourceID == id && revisions[k].evidenceRef != "" && v == SplitEvidenceRef(revisions[k].evidenceRef);
        assert k in RevisionsOf(revisions, id) && k in revs;
        var i :| 0 <= i < |revs| && revs[i] == k;
        RefsAmongMembers(revisions, revs, |revs|, v);
      }
    }
  }

  function Within(ids: set<string>, ks: seq<string>): set<string> {
    set k | k in ids && k in ks
  }

  lemma WithinGrows(ids: set<string>, ks: seq<string>, k: string)
    requires k !in ks
    ensures Within(ids, ks + [k]) == if k in ids then Within(ids, ks) + {k} else Within(ids, ks)
    ensures |Within(ids, ks + [k])| == |Within(ids, ks)| + if k in ids then 1 else 0
  {
    assert k !in Within(ids, ks);
  }

  lemma {:induction false} ReferringBound(revisions: map<string, Revision>, id: string, ks: seq<string>, n: nat)
    requires n <= |ks| && Distinct(ks) && forall k :: k in ks ==> k in RevisionsOf(revisions, id)
    ensures |RefsAmongTo(revisions, ks, n)| <= n
    ensures |RefsAmongTo(revisions, ks, n)| == |Within(Referring(revisions, id), ks[..n])| <= |Referring(revisions, id)|
  {
    var all := Referring(revisions, id);
    Subset(Within(all, ks[..n]), all);
    if n == 0 {
      assert Within(all, ks[..n]) == {};
    } else {
      ReferringBound(revisions, id, ks, n - 1);
      AroundOne(ks, n - 1);
      assert ks[n - 1] in RevisionsOf(revisions, id);
      WithinGrows(all, ks[..n - 1], ks[n - 1]);
    }
  }

  lemma NamedInTheMiddle(head: seq<Derivative>, named: seq<Derivative>, fixed: seq<Derivative>, touching: seq<Derivative>)
    requires Refs(head) == [] && Refs(fixed) == [] && Refs(touching) == []
    ensures Refs(head + named + fixed + touching) == Refs(named)
  {
    RefsAdd(head, named);
    RefsAdd(head + named, fixed);
    RefsAdd(head + named + fixed, touching);
  }

  lemma {:induction false} NothingNamed(derivatives: seq<Derivative>, n: nat)
    requires n <= |derivatives| && forall d :: d in derivatives ==> d.kind != "evidence"
    ensures RefsTo(derivatives, n) == []
  {
    if n > 0 {
      NothingNamed(derivatives, n - 1);
    }
  }

  /** The first i derivatives name the first `done` versions. */
  ghost predicate Through(derivatives: seq<Derivative>, i: nat, done: nat) {
    i <= |derivatives| && done <= |Refs(derivatives)| && RefsTo(derivatives, i) == Refs(derivatives)[..done]
  }

  /** The next evidence of a list of derivatives. */
  lemma NextRef(derivatives: seq<Derivative>, i: nat, done: nat)
    requires i < |derivatives| && derivatives[i].kind == "evidence" && Through(derivatives, i, done)
    ensures done < |Refs(derivatives)| && Refs(derivatives)[done] == SplitEvidenceRef(derivatives[i].ref)
    ensures Through(derivatives, i + 1, done + 1)
  {
    RefsGrow(derivatives, i + 1, |derivatives|);
    var longer := RefsTo(derivatives, i + 1);
    assert longer == Refs(derivatives)[..done] + [SplitEvidenceRef(derivatives[i].ref)] && |longer| == done + 1;
    assert longer[done] == SplitEvidenceRef(derivatives[i].ref);
  }

  /** Acknowledged deletes of the first versions, in order. */
  function Acknowledged(refs: seq<Version>, n: nat): (calls: seq<(Version, bool)>)
    requires n <= |refs|
  {
    seq(n, i requires 0 <= i < n => (refs[i], true))
  }

  /** What acknowledged deletes of the first versions have done. */
  ghost predicate Gone(objects: set<Version>, calls: seq<(Version, bool)>, objects': set<Version>, calls': seq<(Version, bool)>, refs: seq<Version>, n: nat)
    requires n <= |refs|
  {
    objects' == objects - Versions(refs[..n]) && calls' == calls + Acknowledged(refs, n)
  }

  lemma OneMoreGone(objects: set<Version>, calls: seq<(Version, bool)>, objects': set<Version>, calls': seq<(Version, bool)>,
                    refs: seq<Version>, n: nat)
    requires n < |refs| && Gone(objects, calls, objects', calls', refs, n)
    ensures Gone(objects, calls, objects' - {refs[n]}, calls' + [(refs[n], true)], refs, n + 1)
  {
    AroundOne(refs, n);
    assert Versions(refs[..n] + [refs[n]]) == Versions(refs[..n]) + {refs[n]};
    assert Acknowledged(refs, n + 1) == Acknowledged(refs, n) + [(refs[n], true)];
  }

  /** All but the last of the calls were acknowledged, and the last one failed. */
  ghost predicate GaveUp(refs: seq<Version>, calls: seq<(Version, bool)>, calls': seq<(Version, bool)>) {
    exists k :: 0 <= k < |refs| && calls' == calls + Acknowledged(refs, k) + [(refs[k], false)]
  }

  lemma GivesUp(objects: set<Version>, calls: seq<(Version, bool)>, objects': set<Version>, calls': seq<(Version, bool)>,
                refs: seq<Version>, n: nat)
    requires n < |refs| && Gone(objects, calls, objects', calls', refs, n)
    ensures Spared(refs, objects, objects') && Spared(refs, objects, objects' - {refs[n]})
    ensures GaveUp(refs, calls, calls' + [(refs[n], false)])
  {
    forall v | v in Versions(refs[..n]) ensures v in Versions(refs) {
      assert v in refs[..n];
    }
    assert refs[n] in Versions(refs);
  }

  /** Nothing but these versions has gone. */
  ghost predicate Spared(refs: seq<Version>, objects: set<Version>, objects': set<Version>) {
    objects - Versions(refs) <= objects' <= objects
  }

  datatype Erasure = Erased(had: bool) | EraseFailed | Interrupted

  /** What an attempt to erase these versions has done: all of them, as many as there were steps, or
      those before a delete that failed. */
  ghost predicate Erases(r: Erasure, refs: seq<Version>, steps: nat, reliable: bool, objects: set<Version>, calls: seq<(Version, bool)>,
                         objects': set<Version>, calls': seq<(Version, bool)>)
  {
    match r
    case Erased(had) => |refs| <= steps && Gone(objects, calls, objects', calls', refs, |refs|) && (had <==> refs != [])
    case Interrupted => steps < |refs| && Gone(objects, calls, objects', calls', refs, steps)
    case EraseFailed => !reliable && Spared(refs, objects, objects') && GaveUp(refs, calls, calls')
  }

  lemma GoneIsSpared(objects: set<Version>, calls: seq<(Version, bool)>, objects': set<Version>, calls': seq<(Version, bool)>,
                     refs: seq<Version>, n: nat)
    requires n <= |refs| && Gone(objects, calls, objects', calls', refs, n)
    ensures Spared(refs, objects, objects')
  {
    forall v | v in Versions(refs[..n]) ensures v in Versions(refs) {
      assert v in refs[..n];
    }
  }

  /** A settled erasure is what the saga may do to the evidence. */
  lemma ErasureSettles(env: Env, r: Erasure, derivatives: seq<Derivative>, objects: set<Version>, calls: seq<(Version, bool)>,
                       objects': set<Version>, calls': seq<(Version, bool)>, reliable: bool)
    requires env.hold == Some(false) && env.stopAfter >= 2
    requires Erases(r, Refs(derivatives), env.stopAfter - 2, reliable, objects, calls, objects', calls')
    ensures Settles(env, Refs(derivatives), OutcomeOf(r, derivatives), objects, calls, objects', calls', reliable)
  {
    match r
    case Erased(_) => GoneIsSpared(objects, calls, objects', calls', Refs(derivatives), |Refs(derivatives)|);
    case Interrupted => GoneIsSpared(objects, calls, objects', calls', Refs(derivatives), env.stopAfter - 2);
    case EraseFailed =>
  }

  function OutcomeOf(r: Erasure, derivatives: seq<Derivative>): Outcome {
    match r
    case Erased(had) => Finished(Complete, had, derivatives)
    case Interrupted => Stopped
    case EraseFailed => Finished(Blocked, false, derivatives)
  }

  /** Evidence: only the resource's own goes, none under a hold, and all of it when the saga completes
      after listing the revisions -- unless they exceed one listing.  Without a hold it blocks only
      because a delete failed; when the revisions could not be listed it completes and keeps everything. */
  ghost predicate SparesEvidence(env: Env, revisions: map<string, Revision>, id: string, r: Outcome, objects: set<Version>, calls: seq<(Version, bool)>,
                                 objects': set<Version>, calls': seq<(Version, bool)>)
  {
    && objects - EvidenceOf(revisions, id) <= objects' <= objects
    && (env.hold == Some(true) ==> objects' == objects && calls' == calls && !IsComplete(r))
    && (r.Finished? && env.hold == Some(false) && !IsComplete(r) ==> GaveUp(Refs(r.derivatives), calls, calls'))
    && (env.revisionsFail ==> objects' == objects && (r.Finished? && env.hold == Some(false) ==> IsComplete(r)))
    && (IsComplete(r) ==> Versions(Refs(r.derivatives)) * objects' == {} && calls' == calls + Acknowledged(Refs(r.derivatives), |Refs(r.derivatives)|))
    && (IsComplete(r) && !env.revisionsFail && |RevisionsOf(revisions, id)| <= 100 ==> EvidenceOf(revisions, id) * objects' == {})
  }

  /** The state that the record ends in. */
  function FinalState(env: Env, r: Outcome): string {
    if r.Stopped? || env.finalWriteFails then TOMBSTONED else if IsComplete(r) then PURGED else PURGE_PENDING
  }

  /** What the last step of the saga does about the evidence that was named. */
  ghost predicate Settles(env: Env, refs: seq<Version>, r: Outcome, objects: set<Version>, calls: seq<(Version, bool)>,
                          objects': set<Version>, calls': seq<(Version, bool)>, reliable: bool)
    requires env.hold.Some?
  {
    && (env.hold.value ==> r.Finished? && !IsComplete(r) && objects' == objects && calls' == calls)
    && (IsComplete(r) ==> Gone(objects, calls, objects', calls', refs, |refs|))
    && (!env.hold.value && r.Finished? && !IsComplete(r) ==> !reliable && GaveUp(refs, calls, calls'))
    && (!env.hold.value && r.Stopped? ==> env.stopAfter < 2 + |refs|)
    && (r.Finished? ==> (r.evidenceErased <==> IsComplete(r) && refs != []))
    && objects - Versions(refs) <= objects' <= objects
  }

  lemma StoppedEarly(env: Env, revisions: map<string, Revision>, id: string, objects: set<Version>, calls: seq<(Version, bool)>, reliable: bool)
    requires !Proceeds(env)
    ensures SparesEvidence(env, revisions, id, Stopped, objects, calls, objects, calls)
    ensures Ends(env, revisions, id, Stopped, TOMBSTONED, reliable)
  {
  }

  lemma SettledWell(env: Env, revisions: map<string, Revision>, id: string, r: Outcome, objects: set<Version>, calls: seq<(Version, bool)>,
                    objects': set<Version>, calls': seq<(Version, bool)>, reliable: bool, derivatives: seq<Derivative>)
    requires Proceeds(env) && Enumerated(revisions, id, env, Refs(derivatives)) && |Refs(derivatives)| <= StepsToErase(revisions, id, env)
    requires Settles(env, Refs(derivatives), r, objects, calls, objects', calls', reliable) && !r.Rejected?
    requires r.Finished? ==> r.derivatives == derivatives
    ensures SparesEvidence(env, revisions, id, r, objects, calls, objects', calls')
    ensures Ends(env, revisions, id, r, FinalState(env, r), reliable)
  {
    var refs := Refs(derivatives);
    assert refs[..|refs|] == refs;
    assert env.revisionsFail ==> Versions(refs) == {};
  }

  /** The final state tells the truth.  The saga finishes when nothing stops it early: blocked by a
      hold, and complete without one and without failing deletes. */
  ghost predicate Ends(env: Env, revisions: map<string, Revision>, id: string, r: Outcome, state: string, reliable: bool) {
    && state == FinalState(env, r)
    && (r.Finished? ==> Proceeds(env) && Enumerated(revisions, id, env, Refs(r.derivatives)))
    && (r.Finished? ==> (r.evidenceErased <==> IsComplete(r) && Refs(r.derivatives) != []))
    && (Proceeds(env) && (env.hold.value || env.stopAfter >= 2 + StepsToErase(revisions, id, env)) ==> r.Finished?)
    && (r.Finished? && reliable ==> (IsComplete(r) <==> !env.hold.value))
  }

  lemma LastMarkStays(records: map<string, Record>, id: string, first: Record, last: Record)
    ensures records[id := first][id := last] == records[id := last]
  {
  }

  class Saga {
    /** The organization's records and revisions. */
    var records: map<string, Record>
    var revisions: map<string, Revision>
    const graph: EdgeStore
    const outbox: AuthzLedger
    const index: Index
    const evidence: EvidenceStore

    constructor (records: map<string, Record>, revisions: map<string, Revision>, graph: EdgeStore, outbox: AuthzLedger,
                 index: Index, evidence: EvidenceStore)
      ensures this.records == records && this.revisions == revisions && this.graph == graph && this.outbox == outbox
      ensures this.index == index && this.evidence == evidence
    {
      this.records, this.revisions, this.graph, this.outbox, this.index, this.evidence :=
        records, revisions, graph, outbox, index, evidence;
    }

    ghost predicate Valid()
      reads this, graph, outbox, index
    {
      graph.Valid() && outbox.Valid() && index.Valid()
    }

    /** The transaction: tombstone revision, tombstoned record, tombstoned edges, enqueued deletes. */
    method RevokeVisibility(orgID: string, id: string, revID: string, now: int, ghost max: int, ghost run0: Run)
      returns (ghost listed: seq<GraphEdge>, ghost run: Run)
      requires Valid() && orgID != "" && id in records && LedBy(max, run0, outbox)
      modifies this`records, this`revisions, graph, outbox`rows, outbox`nextID, outbox`log
      ensures Valid()
      ensures records == old(records)[id := Marked(old(records)[id], TOMBSTONED, revID, now)]
      ensures revisions == old(revisions)[revID := Revision(id, "", TOMBSTONED)]
      ensures graph.edges - {orgID} == old(graph.edges) - {orgID}
      ensures LedBy(max, run, outbox) && Continues(max, orgID, run0, run, outbox.rows, outbox.log)
      ensures Revokes(old(graph.Of(orgID)), graph.Of(orgID), old(outbox.rows), outbox.rows, old(outbox.log), outbox.log, orgID, id, listed, now)
    {
      revisions := revisions[revID := Revision(id, "", TOMBSTONED)];
      records := records[id := Marked(records[id], TOMBSTONED, revID, now)];
      var edges := graph.ListEdges(orgID, IncidentOptions(id));
      listed := edges;
      forall e | e in edges ensures e.orgID == orgID && e.edgeID in graph.Of(orgID) {
        assert e in graph.Of(orgID).Values;
      }
      InTurnIsTombstoning(graph.Of(orgID), edges, now);
      ghost var rows, log := outbox.rows, outbox.log;
      run := TombstoneEdges(graph, outbox, orgID, edges, now, max, run0);
      DeletesJoin(max, orgID, run0, run, rows, log, outbox.rows, outbox.log, edges);
      if |LiveIncident(old(graph.Of(orgID)), id)| <= 1000 {
        LiveEdgesAreRevoked(old(graph.Of(orgID)), id, edges, now, rows, outbox.rows, orgID);
      }
    }

    /** Some revisions of the resource, in any order: all of them when they fit the limit. */
    method ListRevisions(id: string, limit: nat) returns (out: seq<string>)
      requires limit > 0
      ensures Distinct(out) && |out| <= limit
      ensures forall k :: k in out ==> k in RevisionsOf(revisions, id)
      ensures |RevisionsOf(revisions, id)| <= limit ==> forall k :: k in RevisionsOf(revisions, id) ==> k in out
    {
      out := [];
      var ids := revisions.Keys;
      while ids != {}
        invariant ids <= revisions.Keys && Distinct(out) && |out| < limit
        invariant forall k :: k in out ==> k in RevisionsOf(revisions, id) && k !in ids
        invariant forall k :: k in RevisionsOf(revisions, id) && k !in ids ==> k in out
      {
        var k :| k in ids;
        ids := ids - {k};
        if revisions[k].resourceID == id {
          out := out + [k];
          if |out| >= limit {
            FullList(out, RevisionsOf(revisions, id), limit);
            return;
          }
        }
      }
    }

    /** The derived artifacts of the resource. */
    method Enumerate(orgID: string, id: string, currentRevID: string, env: Env) returns (out: seq<Derivative>)
      requires Valid()
      ensures Enumerated(revisions, id, env, Refs(out)) && |Refs(out)| <= StepsToErase(revisions, id, env)
      ensures Derivative("record", id) in out && Derivative("index", id) in out && Derivative("cache", id) in out
      ensures !env.edgesFail && |IncidentOf(graph.Of(orgID), id)| <= 200 ==>
                forall k :: k in IncidentOf(graph.Of(orgID), id) ==> Derivative("graph_edge", k) in out
    {
      var head := [Derivative("record", id)] + if currentRevID != "" then [Derivative("revision", currentRevID)] else [];
      var named := EvidenceEntries(id, env);
      var fixed := [Derivative("index", id), Derivative("cache", id)];
      var touching := [];
      if !env.edgesFail {
        touching := EdgeDerivatives(orgID, id);
      }
      NothingNamed(head, |head|);
      NothingNamed(fixed, |fixed|);
      assert head[0] == Derivative("record", id) && fixed[0] == Derivative("index", id) && fixed[1] == Derivative("cache", id);
      NamedInTheMiddle(head, named, fixed, touching);
      out := head + named + fixed + touching;
    }

    method EvidenceEntries(id: string, env: Env) returns (out: seq<Derivative>)
      ensures Enumerated(revisions, id, env, Refs(out)) && |Refs(out)| <= StepsToErase(revisions, id, env)
    {
      if env.revisionsFail {
        return [];
      }
      var revs := ListRevisions(id, 100);
      out := EvidenceDerivatives(revs);
      SomeOrAllEvidence(revisions, id, revs);
      ReferringBound(revisions, id, revs, |revs|);
    }

    method EdgeDerivatives(orgID: string, id: string) returns (out: seq<Derivative>)
      requires Valid()
      ensures Refs(out) == []
      ensures |IncidentOf(graph.Of(orgID), id)| <= 200 ==> forall k :: k in IncidentOf(graph.Of(orgID), id) ==> Derivative("graph_edge", k) in out
    {
      var edges := graph.ListEdges(orgID, ListOptions([id], [], true, 200));
      AllIncidentListed(graph.Of(orgID), id, edges);
      out := seq(|edges|, i requires 0 <= i < |edges| => Derivative("graph_edge", edges[i].edgeID));
      ghost var listed := out;
      forall i | 0 <= i < |edges| ensures Derivative("graph_edge", edges[i].edgeID) in listed {
        assert listed[i] == Derivative("graph_edge", edges[i].edgeID);
      }
      NothingNamed(out, |out|);
    }

    /** The evidence and revision entries of some revisions. */
    method EvidenceDerivatives(revs: seq<string>) returns (out: seq<Derivative>)
      requires forall k :: k in revs ==> k in revisions
      ensures Refs(out) == RefsAmong(revisions, revs)
    {
      out := [];
      for i := 0 to |revs|
        invariant Refs(out) == RefsAmongTo(revisions, revs, i)
      {
        var r := revisions[revs[i]];
        var more := (if r.evidenceRef != "" then [Derivative("evidence", r.evidenceRef)] else []) + [Derivative("revision", revs[i])];
        RefsAdd(out, more);
        EntryOfRevision(revisions, revs[i], more);
        out := out + more;
      }
    }

    /** Deletes the named evidence versions one by one until one fails or the process stops, which
        it does only when there is more to delete than steps left. */
    method EraseEvidence(derivatives: seq<Derivative>, steps: nat) returns (r: Erasure)
      modifies evidence
      ensures Erases(r, Refs(derivatives), steps, evidence.reliable, old(evidence.objects), old(evidence.calls), evidence.objects, evidence.calls)
    {
      ghost var refs, objects, calls := Refs(derivatives), evidence.objects, evidence.calls;
      var had, done := false, 0;
      for i := 0 to |derivatives|
        invariant done <= steps && (had <==> done > 0) && Through(derivatives, i, done)
        invariant Gone(objects, calls, evidence.objects, evidence.calls, refs, done)
      {
        var d := derivatives[i];
        if d.kind == "evidence" {
          NextRef(derivatives, i, done);
          if done == steps {
            return Interrupted;
          }
          OneMoreGone(objects, calls, evidence.objects, evidence.calls, refs, done);
          GivesUp(objects, calls, evidence.objects, evidence.calls, refs, done);
          var ok := evidence.DeleteVersion(SplitEvidenceRef(d.ref));
          if !ok {
            return EraseFailed;
          }
          had, done := true, done + 1;
        }
      }
      r := Erased(had);
    }

    /** The final state write; its failure is ignored. */
    method Conclude(id: string, state: string, revID: string, now: int, fails: bool)
      requires id in records
      modifies this`records
      ensures records == if fails then old(records) else old(records)[id := Marked(old(records)[id], state, revID, now)]
    {
      if !fails {
        records := records[id := Marked(records[id], state, revID, now)];
      }
    }

    /** The whole saga.  `env` fixes what the other systems answer and after how many of the steps
        behind the transaction the process stops; revID is fresh. */
    method Run(orgID: string, id: string, revID: string, now: int, env: Env, ghost max: int, ghost run0: Run)
      returns (r: Outcome, ghost listed: seq<GraphEdge>, ghost run: Run)
      requires Valid() && revID !in revisions && LedBy(max, run0, outbox)
      modifies this`records, this`revisions, graph, outbox`rows, outbox`nextID, outbox`log, index, evidence
      ensures Valid()
      // refused: nothing happened
      ensures r.Rejected? <==> orgID == "" || id == "" || !(env.canDelete || env.canAdmin) || id !in old(records) || env.txFails
      ensures r.Rejected? ==> records == old(records) && revisions == old(revisions) && graph.edges == old(graph.edges)
      ensures r.Rejected? ==> outbox.rows == old(outbox.rows) && index.docs == old(index.docs) && evidence.objects == old(evidence.objects)
      // from the transaction on, wherever the process stops: the resource is hidden and its edges are dead
      ensures !r.Rejected? ==> id in records && IsTombstoned(records[id].state)
      ensures !r.Rejected? ==> records == old(records)[id := Marked(old(records)[id], records[id].state, revID, now)]
      ensures !r.Rejected? ==> graph.edges - {orgID} == old(graph.edges) - {orgID}
      ensures !r.Rejected? ==> revisions == old(revisions)[revID := Revision(id, "", TOMBSTONED)]
      // the outbox: a stretch of a run that leaves the delete of every listed synchronized edge waiting, and nothing else new
      ensures LedBy(max, run, outbox) && Continues(max, orgID, run0, run, outbox.rows, outbox.log)
      ensures r.Rejected? ==> run == run0 && listed == []
      ensures !r.Rejected? ==>
                Revokes(old(graph.Of(orgID)), graph.Of(orgID), old(outbox.rows), outbox.rows, old(outbox.log), outbox.log, orgID, id, listed, now)
      ensures EvidenceOf(revisions, id) == EvidenceOf(old(revisions), id) && Referring(revisions, id) == Referring(old(revisions), id)
      ensures SparesEvidence(env, revisions, id, r, old(evidence.objects), old(evidence.calls), evidence.objects, evidence.calls)
      // the index loses the resource and nothing else
      ensures r.Finished? ==> Lookup(index.Of(orgID), id).None?
      ensures forall org, x :: org != orgID || x != id ==> Lookup(index.Of(org), x) == old(Lookup(index.Of(org), x))
      ensures !r.Rejected? ==> Ends(env, revisions, id, r, records[id].state, evidence.reliable)
    {
      listed, run := [], run0;
      if orgID == "" || id == "" || (!env.canDelete && !env.canAdmin) || id !in records || env.txFails {
        return Rejected, listed, run;
      }
      r, listed, run := RevokeAndPurge(orgID, id, revID, now, env, max, run0);
    }

    /** An accepted deletion: the transaction and what follows it. */
    method RevokeAndPurge(orgID: string, id: string, revID: string, now: int, env: Env, ghost max: int, ghost run0: Run)
      returns (r: Outcome, ghost listed: seq<GraphEdge>, ghost run: Run)
      requires Valid() && revID !in revisions && LedBy(max, run0, outbox) && orgID != "" && id in records
      modifies this`records, this`revisions, graph, outbox`rows, outbox`nextID, outbox`log, index, evidence
      ensures Valid() && !r.Rejected? && id in records && IsTombstoned(records[id].state)
      ensures records == old(records)[id := Marked(old(records)[id], records[id].state, revID, now)]
      ensures graph.edges - {orgID} == old(graph.edges) - {orgID}
      ensures revisions == old(revisions)[revID := Revision(id, "", TOMBSTONED)]
      ensures LedBy(max, run, outbox) && Continues(max, orgID, run0, run, outbox.rows, outbox.log)
      ensures Revokes(old(graph.Of(orgID)), graph.Of(orgID), old(outbox.rows), outbox.rows, old(outbox.log), outbox.log, orgID, id, listed, now)
      ensures EvidenceOf(revisions, id) == EvidenceOf(old(revisions), id) && Referring(revisions, id) == Referring(old(revisions), id)
      ensures SparesEvidence(env, revisions, id, r, old(evidence.objects), old(evidence.calls), evidence.objects, evidence.calls)
      ensures r.Finished? ==> Lookup(index.Of(orgID), id).None?
      ensures forall org, x :: org != orgID || x != id ==> Lookup(index.Of(org), x) == old(Lookup(index.Of(org), x))
      ensures Ends(env, revisions, id, r, records[id].state, evidence.reliable)
    {
      ghost var recs, revs := records, revisions;
      listed, run := RevokeVisibility(orgID, id, revID, now, max, run0);
      OneMoreRevision(revs, revID, id);
      r := CleanUp(orgID, id, revID, now, env, recs[id]);
      LastMarkStays(recs, id, Marked(recs[id], TOMBSTONED, revID, now), records[id]);
    }

    /** What follows the transaction. */
    method CleanUp(orgID: string, id: string, revID: string, now: int, env: Env, ghost rec: Record) returns (r: Outcome)
      requires Valid() && id in records && records[id] == Marked(rec, TOMBSTONED, revID, now)
      modifies this`records, index, evidence
      ensures Valid() && !r.Rejected?
      ensures id in records && IsTombstoned(records[id].state)
      ensures records == old(records)[id := Marked(rec, records[id].state, revID, now)]
      ensures SparesEvidence(env, revisions, id, r, old(evidence.objects), old(evidence.calls), evidence.objects, evidence.calls)
      ensures r.Finished? ==> Lookup(index.Of(orgID), id).None?
      ensures forall org, x :: org != orgID || x != id ==> Lookup(index.Of(org), x) == old(Lookup(index.Of(org), x))
      ensures Ends(env, revisions, id, r, records[id].state, evidence.reliable)
    {
      if !Proceeds(env) {
        StoppedEarly(env, revisions, id, evidence.objects, evidence.calls, evidence.reliable);
      }
      if env.stopAfter == 0 {
        return Stopped;
      }
      var derivatives := Enumerate(orgID, id, revID, env);
      if env.indexFails {
        return Stopped;
      }
      RemoveFromIndex(orgID, id);
      if env.stopAfter == 1 || env.hold.None? {
        return Stopped;
      }
      ghost var objects, calls := evidence.objects, evidence.calls;
      r := Settle(id, derivatives, revID, now, env);
      SettledWell(env, revisions, id, r, objects, calls, evidence.objects, evidence.calls, evidence.reliable, derivatives);
    }

    method RemoveFromIndex(orgID: string, id: string)
      requires Valid()
      modifies index
      ensures Valid() && Lookup(index.Of(orgID), id).None?
      ensures forall org, x :: org != orgID || x != id ==> Lookup(index.Of(org), x) == old(Lookup(index.Of(org), x))
    {
      forall x {
        DeletedIsGone(index.Of(orgID), {id}, x);
      }
      index.Delete(orgID, {id});
    }

    /** Evidence and final state: blocked by a hold or a failed purge, else purged. */
    method Settle(id: string, derivatives: seq<Derivative>, revID: string, now: int, env: Env) returns (r: Outcome)
      requires id in records && records[id].state == TOMBSTONED && env.hold.Some? && env.stopAfter >= 2
      modifies this`records, evidence
      ensures !r.Rejected? && (r.Finished? ==> r.derivatives == derivatives)
      ensures Settles(env, Refs(derivatives), r, old(evidence.objects), old(evidence.calls), evidence.objects, evidence.calls, evidence.reliable)
      ensures id in records && records[id].state == FinalState(env, r)
      ensures records == old(records)[id := Marked(old(records)[id], records[id].state, revID, now)] || (records == old(records))
    {
      if env.hold.value {
        Conclude(id, PURGE_PENDING, revID, now, env.finalWriteFails);
        return Finished(Blocked, false, derivatives);
      }
      ghost var objects, calls := evidence.objects, evidence.calls;
      var erasure := EraseEvidence(derivatives, env.stopAfter - 2);
      ErasureSettles(env, erasure, derivatives, objects, calls, evidence.objects, evidence.calls, evidence.reliable);
      if erasure.Interrupted? {
        return Stopped;
      }
      if erasure.EraseFailed? {
        Conclude(id, PURGE_PENDING, revID, now, env.finalWriteFails);
        return Finished(Blocked, false, derivatives);
      }
      Conclude(id, PURGED, revID, now, env.finalWriteFails);
      r := Finished(Complete, erasure.had, derivatives);
    }
  }

  lemma EntryOfRevision(revisions: map<string, Revision>, k: string, entry: seq<Derivative>)
    requires k in revisions
    requires entry == (if revisions[k].evidenceRef != "" then [Derivative("evidence", revisions[k].evidenceRef)] else []) + [Derivative("revision", k)]
    ensures Refs(entry) == RefOf(revisions, k)
  {
    if revisions[k].evidenceRef != "" {
      assert |entry| == 2 && entry[0] == Derivative("evidence", revisions[k].evidenceRef) && entry[1] == Derivative("revision", k);
      assert RefsTo(entry, 0) == [] && RefsTo(entry, 1) == RefOf(revisions, k) && RefsTo(entry, 2) == RefsTo(entry, 1);
    } else {
      assert |entry| == 1 && entry[0] == Derivative("revision", k) && RefsTo(entry, 0) == [];
    }
  }

  /** Exactly the deletes of the listed synchronized edges join what was pending, each under the organization. */
  ghost predicate RevocationWaits(rows: Rows, rows': Rows, orgID: string, listed: seq<GraphEdge>) {
    && Gains(rows, rows', DeleteWork(listed)) && Waits(rows', orgID, DeleteWork(listed))
    && forall e :: e in listed && NeedsSynchronization(e) ==> PendingRequest(rows', orgID, Delete, InheritanceTuple(e))
  }

  /** Every live synchronized edge at the resource has its delete waiting. */
  ghost predicate AllRevoked(m: EdgeMap, id: string, rows: Rows, orgID: string) {
    forall k :: k in LiveIncident(m, id) && NeedsSynchronization(m[k]) ==> PendingRequest(rows, orgID, Delete, InheritanceTuple(m[k]))
  }

  /** What the transaction does to edges and outbox: the listed edges at the resource are dead, the
      delete of each synchronized one waits, and up to a thousand live edges none is left out. */
  ghost predicate Revokes(m: EdgeMap, m': EdgeMap, rows: Rows, rows': Rows, log: seq<(Operation, Tuple)>, log': seq<(Operation, Tuple)>,
                          orgID: string, id: string, listed: seq<GraphEdge>, now: int)
  {
    && Listing(m, IncidentOptions(id), listed) && m' == Tombstoning(m, IDsOf(listed), now)
    && log' == log + DeleteWork(listed) && RevocationWaits(rows, rows', orgID, listed)
    && (|LiveIncident(m, id)| <= 1000 ==> LiveIncident(m', id) == {} && AllRevoked(m, id, rows', orgID))
  }

  lemma LiveEdgesAreRevoked(m: EdgeMap, id: string, listed: seq<GraphEdge>, now: int, rows: Rows, rows': Rows, orgID: string)
    requires Keyed(m) && Listing(m, IncidentOptions(id), listed) && |LiveIncident(m, id)| <= 1000
    requires RevocationWaits(rows, rows', orgID, listed)
    ensures LiveIncident(Tombstoning(m, IDsOf(listed), now), id) == {} && AllRevoked(m, id, rows', orgID)
  {
    NoLiveEdgeIsLeft(m, id, listed, now);
    forall k | k in LiveIncident(m, id) && NeedsSynchronization(m[k]) ensures PendingRequest(rows', orgID, Delete, InheritanceTuple(m[k])) {
      assert (Delete, InheritanceTuple(m[k])) in DeleteWork(listed);
    }
  }

  lemma DeletesJoin(max: int, orgID: string, run0: Run, run: Run, rows: Rows, log: seq<(Operation, Tuple)>,
                    rows': Rows, log': seq<(Operation, Tuple)>, edges: seq<GraphEdge>)
    requires Continues(max, orgID, run0, run, rows', log') && run0.Last().rows == rows && run0.Last().log == log && log' == log + DeleteWork(edges)
    ensures RevocationWaits(rows, rows', orgID, edges)
  {
    StretchQueues(max, orgID, run0, run, rows, log, rows', log', DeleteWork(edges));
    forall e | e in edges && NeedsSynchronization(e) ensures PendingRequest(rows', orgID, Delete, InheritanceTuple(e)) {
      WorkCovers(edges, e);
      var op := (Delete, InheritanceTuple(e));
      assert op in DeleteWork(edges);
    }
  }

  method TombstoneEdges(graph: EdgeStore, outbox: AuthzLedger, orgID: string, edges: seq<GraphEdge>, now: int, ghost max: int, ghost run0: Run)
    returns (ghost run: Run)
    requires graph.Valid() && LedBy(max, run0, outbox) && orgID != ""
    requires forall k :: 0 <= k < |edges| ==> edges[k].orgID == orgID
    modifies graph, outbox`rows, outbox`nextID, outbox`log
    ensures graph.Valid() && LedBy(max, run, outbox) && Continues(max, orgID, run0, run, outbox.rows, outbox.log)
    ensures graph.Of(orgID) == InTurn(old(graph.Of(orgID)), edges, now)
    ensures graph.edges - {orgID} == old(graph.edges) - {orgID}
    ensures outbox.log == old(outbox.log) + DeleteWork(edges)
  {
    run := run0;
    ghost var m, log := graph.Of(orgID), outbox.log;
    ghost var buried, work := m, DeleteWork([]);
    for i := 0 to |edges|
      invariant graph.Valid() && LedBy(max, run, outbox) && Continues(max, orgID, run0, run, outbox.rows, outbox.log)
      invariant buried == InTurn(m, edges[..i], now) && work == DeleteWork(edges[..i])
      invariant graph.Of(orgID) == buried
      invariant graph.edges - {orgID} == old(graph.edges) - {orgID}
      invariant outbox.log == log + work
    {
      InTurnStep(m, edges, i, now);
      run := TombstoneOne(graph, outbox, orgID, edges[i], now, max, run0, run);
      buried, work := Buried(buried, edges[i].edgeID, now), work + WorkOf(edges[i], Delete);
    }
    assert edges[..|edges|] == edges;
  }

  /** One edge: tombstone it and enqueue the delete of the tuple it asked for. */
  method TombstoneOne(graph: EdgeStore, outbox: AuthzLedger, orgID: string, e: GraphEdge, now: int, ghost max: int, ghost run0: Run, ghost run1: Run)
    returns (ghost run: Run)
    requires graph.Valid() && orgID != "" && e.orgID == orgID
    requires LedBy(max, run1, outbox) && Continues(max, orgID, run0, run1, outbox.rows, outbox.log)
    modifies graph, outbox`rows, outbox`nextID, outbox`log
    ensures graph.Valid() && LedBy(max, run, outbox) && Continues(max, orgID, run0, run, outbox.rows, outbox.log)
    ensures graph.Of(orgID) == Buried(old(graph.Of(orgID)), e.edgeID, now)
    ensures graph.edges - {orgID} == old(graph.edges) - {orgID}
    ensures outbox.log == old(outbox.log) + WorkOf(e, Delete)
  {
    ghost var rows1, log1 := outbox.rows, outbox.log;
    var ok := graph.TombstoneEdge(orgID, e.edgeID, now);
    run := EnqueueEdgeWork(outbox, e, Delete, max, run1);
    ContinuesFurther(max, orgID, run0, run1, rows1, log1, run, outbox.rows, outbox.log);
  }
}
