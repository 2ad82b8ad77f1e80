/** From an accepted mapping to read access: what an intake's parent edges can open, and to whom
    (internal/mapping, internal/ingest, internal/authzsync and the evaluator together). */
module Inheritance {
  import opened Ports
  import opened Relationships
  import opened EdgeLedger
  import opened AuthzOutbox
  import opened AuthzWorker
  import opened Intake
  import opened MemoryProvider
  import Mapping

  /* ---------- what a set of parent tuples opens ---------- */

  /** `after` holds the tuples of `before` and the added ones, all of them parent tuples. */
  ghost predicate AddsParents(before: Relations, after: Relations, added: set<Tuple>) {
    && (forall t :: t in added ==> t.relation == "parent")
    && forall o, r, s :: Has(after, o, r, s) <==> Has(before, o, r, s) || Tuple(o, r, s) in added
  }

  /** The subject could already read the parent of an added tuple whose child the object reaches. */
  ghost predicate Opened(before: Relations, after: Relations, added: set<Tuple>, obj: string, subject: string) {
    exists t :: t in added && CanRead(before, t.subject, subject) && ReachesByParents(after, obj, t.obj)
  }

  lemma GrantsIgnoreAddedParents(before: Relations, after: Relations, added: set<Tuple>, g: Goal, subject: string)
    requires AddsParents(before, after, added) && (g.relation == "can_read" || g.relation == "can_manage")
    ensures Granted(after, g, subject) ==> Granted(before, g, subject)
  {
    forall o, r, s | r != "parent" ensures Has(after, o, r, s) <==> Has(before, o, r, s) {
    }
    assert forall org :: org in Subjects(after, g.obj, "organization") <==> Has(after, g.obj, "organization", org);
  }

  /** A derivation over the added tuples either needs none of them, or from its last use of one on
      it shows that the parent was readable before. */
  lemma {:induction false} LastAddedStep(before: Relations, after: Relations, added: set<Tuple>, w: seq<Goal>, subject: string)
    requires AddsParents(before, after, added)
    requires Walk(after, w) && Granted(after, w[|w| - 1], subject) && (w[0].relation == "can_read" || w[0].relation == "can_manage")
    ensures Derivable(before, w[0], subject) || Opened(before, after, added, w[0].obj, subject)
  {
    var g := w[0];
    if |w| == 1 {
      GrantsIgnoreAddedParents(before, after, added, g, subject);
      GrantedIsDerivable(before, g, subject);
    } else {
      var rest := w[1..];
      var h := rest[0];
      assert Inherits(after, w[0], w[1]);
      forall i | 0 <= i < |rest| - 1 ensures Inherits(after, rest[i], rest[i + 1]) {
        assert rest[i] == w[i + 1];
      }
      LastAddedStep(before, after, added, rest, subject);
      if Derivable(before, h, subject) {
        if Inherits(before, g, h) {
          InheritedIsDerivable(before, g, h, subject);
        } else {
          AddedStepOpens(before, after, added, g, h, subject);
        }
      } else {
        var t :| t in added && CanRead(before, t.subject, subject) && ReachesByParents(after, h.obj, t.obj);
        if h.obj != g.obj {
          ReachesOneFurther(after, g.obj, h.obj, t.obj);
        }
      }
    }
  }

  lemma AddedStepOpens(before: Relations, after: Relations, added: set<Tuple>, g: Goal, h: Goal, subject: string)
    requires AddsParents(before, after, added)
    requires Inherits(after, g, h) && !Inherits(before, g, h) && Derivable(before, h, subject)
    ensures Opened(before, after, added, g.obj, subject)
  {
    var t := Tuple(g.obj, "parent", h.obj);
    assert Has(after, g.obj, "parent", h.obj) && !Has(before, g.obj, "parent", h.obj);
    assert t in added;
    if h.relation == "can_manage" {
      ManageImpliesRead(before, h.obj, subject);
    }
    assert ParentChain(after, [g.obj]);
    assert ReachesByParents(after, g.obj, t.obj);
  }

  /** Adding any number of parent tuples at once: a subject reads exactly what it read before, and
      whatever reaches the child of an added tuple whose parent it could read before. */
  lemma AddedParentsRead(before: Relations, after: Relations, added: set<Tuple>, obj: string, subject: string)
    requires AddsParents(before, after, added)
    ensures CanRead(after, obj, subject) <==> CanRead(before, obj, subject) || Opened(before, after, added, obj, subject)
  {
    if CanRead(after, obj, subject) {
      var w :| Proves(after, w, Goal(obj, "can_read"), subject);
      LastAddedStep(before, after, added, w, subject);
    }
    if CanRead(before, obj, subject) {
      AccessIsMonotone(before, after, Goal(obj, "can_read"), subject);
    }
    if Opened(before, after, added, obj, subject) {
      var t :| t in added && CanRead(before, t.subject, subject) && ReachesByParents(after, obj, t.obj);
      AccessIsMonotone(before, after, Goal(t.subject, "can_read"), subject);
      assert Has(after, t.obj, "parent", t.subject);
      InheritedIsDerivable(after, Goal(t.obj, "can_read"), Goal(t.subject, "can_read"), subject);
      var c :| ParentChain(after, c) && c[0] == obj && c[|c| - 1] == t.obj;
      ReadFollowsParents(after, c, subject);
    }
  }

  /* ---------- every run of the outbox ---------- */

  function Written(log: seq<(Operation, Tuple)>): set<Tuple> {
    set op | op in log && op.0 == Write :: op.1
  }

  /** Nothing is in the store, or on its way there, that was not enqueued as a write. */
  ghost predicate OnlyRequested(start: set<Tuple>, s: State) {
    && s.store <= start + Written(s.log)
    && forall id :: id in s.rows && s.rows[id].operation == Write ==> s.rows[id].tuple in Written(s.log)
  }

  lemma StepKeepsOnlyRequested(start: set<Tuple>, max: int, s: State, a: Action, s': State)
    requires OnlyRequested(start, s) && Step(max, s, a, s')
    ensures OnlyRequested(start, s')
  {
    if a.Enqueue? {
      var k := EnqueueTouchesOneRow(s, s', a.id, a.orgID, a.operation, a.tuple, a.edgeID);
      assert (a.operation, a.tuple) in s'.log;
      assert Written(s.log) <= Written(s'.log);
    }
  }

  /** Whatever fails, repeats, crashes or is still pending. */
  lemma {:induction false} StoreIsRequested(max: int, run: Run)
    requires run.Valid(max) && Initial(run.states[0])
    ensures OnlyRequested(run.states[0].store, run.Last())
    decreases |run.actions|
  {
    if run.actions != [] {
      var n := |run.actions|;
      StoreIsRequested(max, Run(run.states[..n], run.actions[..n - 1]));
      StepKeepsOnlyRequested(run.states[0].store, max, run.states[n - 1], run.actions[n - 1], run.states[n]);
    }
  }

  /** The evaluator's relations hold exactly the store's tuples. */
  ghost predicate Shows(rels: Relations, store: set<Tuple>) {
    forall o, r, s :: Has(rels, o, r, s) <==> Tuple(o, r, s) in store
  }

  /** The worker's call on the in-memory provider does to the evaluator's relations what the outbox
      model does to the store. */
  method Send(memory: Memory, operation: Operation, t: Tuple, ghost store: set<Tuple>)
    requires Shows(memory.relations, store) && t.obj != "" && t.relation == "parent" && t.subject != ""
    modifies memory
    ensures Shows(memory.relations, ApplyOp(store, operation, t))
  {
    assert t in [t] && Complete(t) && Canonical(t) == t && RevokedAs(t.relation) == t.relation;
    match operation
    case Write => memory.WriteTuples([t]);
    case Delete => memory.DeleteTuples([t]);
  }

  /** Every write ever enqueued inherits from one of the given resources. */
  ghost predicate OnlyParentsIn(log: seq<(Operation, Tuple)>, parents: set<string>) {
    forall t :: t in Written(log) ==> t.relation == "parent" && exists p :: p in parents && t.subject == ResourceObject(p)
  }

  /** At every point of every run -- with failed, repeated, lost and opposed work -- whoever can
      read an object could read it at the start, or could already read one of the parents. */
  lemma NewReadersCouldReadAParent(max: int, run: Run, parents: set<string>, before: Relations, now: Relations,
                                   obj: string, subject: string)
    requires run.Valid(max) && Initial(run.states[0]) && OnlyParentsIn(run.Last().log, parents)
    requires Shows(before, run.states[0].store) && Shows(now, run.Last().store)
    requires CanRead(now, obj, subject)
    ensures CanRead(before, obj, subject) || exists p :: p in parents && CanRead(before, ResourceObject(p), subject)
  {
    StoreIsRequested(max, run);
    var written := Written(run.Last().log);
    var all := WithTuples(before, written);
    assert Extends(now, all);
    AccessIsMonotone(now, all, Goal(obj, "can_read"), subject);
    AddedParentsRead(before, all, written, obj, subject);
  }

  /** Relations that hold some more tuples. */
  lemma {:induction false} WithTuples(rels: Relations, tuples: set<Tuple>) returns (more: Relations)
    ensures forall o, r, s :: Has(more, o, r, s) <==> Has(rels, o, r, s) || Tuple(o, r, s) in tuples
  {
    if tuples == {} {
      more := rels;
    } else {
      var t :| t in tuples;
      var some := WithTuples(rels, tuples - {t});
      var inner := if t.obj in some then some[t.obj] else map[];
      more := some[t.obj := inner[t.relation := Subjects(some, t.obj, t.relation) + {t.subject}]];
    }
  }

  /* ---------- an intake ---------- */

  /** Every inheritance the edges ask for has an allowlisted parent. */
  ghost predicate ParentsAllowed(edges: seq<Mapping.CanonicalEdge>, allowlist: seq<string>) {
    forall t :: t in Requested(SyncLog(edges)) ==>
      t.relation == "parent" && exists p :: t.subject == ResourceObject(p) && Mapping.ParentAllowed(p, allowlist)
  }

  lemma {:induction false} AcceptedParentsAreAllowed(edges: seq<Mapping.CanonicalEdge>, allowlist: seq<string>)
    requires forall e :: e in edges && e.syncAuthzParent ==> Mapping.ParentAllowed(e.toID, allowlist)
    ensures ParentsAllowed(edges, allowlist)
  {
    if edges != [] {
      var n := |edges| - 1;
      var e := edges[n];
      assert e in edges && forall x :: x in edges[..n] ==> x in edges;
      AcceptedParentsAreAllowed(edges[..n], allowlist);
      forall t | t in Requested(SyncLog(edges)) && t !in Requested(SyncLog(edges[..n]))
        ensures t.relation == "parent" && exists p :: t.subject == ResourceObject(p) && Mapping.ParentAllowed(p, allowlist)
      {
        assert (Write, t) in SyncWork(e);
        assert t.subject == ResourceObject(e.toID);
      }
    }
  }

  /** Mapping and commit of the edges of one intake: a refused mapping leaves no trace, and an
      accepted one enqueues inheritance from allowlisted parents only, whatever mapping and payload say. */
  method Accept(c: Mapping.Constraints, resourceID: string, parentID: string, entries: seq<Mapping.EdgeInput>, visibilityRef: string,
                stubID: string -> string, allowlist: seq<string>, graph: EdgeStore, ledger: AuthzLedger, records0: Records,
                orgID: string, idOf: Triple -> string, now: int, ghost max: int, ghost run0: Run)
    returns (r: Mapping.Outcome<seq<Mapping.CanonicalEdge>>, records: Records, ghost run: Run)
    requires graph.Valid() && LedBy(max, run0, ledger) && orgID != "" && forall t :: idOf(t) != ""
    modifies graph, ledger`rows, ledger`nextID, ledger`log
    ensures graph.Valid() && LedBy(max, run, ledger) && OnlyPlaceholdersAdded(records0, records)
    ensures r.Ok? <==> Mapping.Acceptable(c, resourceID, entries, allowlist)
    ensures r.Ok? ==> Mapping.Represents(r.value, Mapping.Handed(resourceID, parentID, entries, visibilityRef, stubID))
    ensures r.Err? ==> graph.edges == old(graph.edges) && ledger.rows == old(ledger.rows) && ledger.log == old(ledger.log)
    ensures r.Ok? ==> graph.Of(orgID) == AfterEdges(old(graph.Of(orgID)), orgID, r.value, idOf, now)
    ensures graph.edges - {orgID} == old(graph.edges) - {orgID}
    ensures r.Ok? ==> Mapping.OnePerTriple(r.value) && ParentsAllowed(r.value, allowlist)
    ensures ledger.log == old(ledger.log) + if r.Ok? then SyncLog(r.value) else []
    ensures Continues(max, orgID, run0, run, ledger.rows, ledger.log)
    ensures OnlyWritesAdded(old(ledger.rows), ledger.rows, if r.Ok? then Requested(SyncLog(r.value)) else {})
  {
    records, run := records0, run0;
    r := Mapping.ApplyEdges(c, resourceID, parentID, entries, visibilityRef, stubID, allowlist);
    if r.Ok? {
      AcceptedParentsAreAllowed(r.value, allowlist);
      records, run := WriteEdges(graph, ledger, records0, orgID, resourceID, r.value, idOf, now, max, run0);
    }
  }

  /** Whoever reads an object after but not before could already read an allowlisted parent. */
  ghost predicate OpensOnlyAllowed(before: set<Tuple>, after: set<Tuple>, allowlist: seq<string>) {
    forall rels, rels', obj, subject | Shows(rels, before) && Shows(rels', after) :: CanRead(rels', obj, subject)
      ==> CanRead(rels, obj, subject) || AllowedParentRead(rels, allowlist, subject)
  }

  ghost predicate AllowedParentRead(rels: Relations, allowlist: seq<string>, subject: string) {
    exists p :: Mapping.ParentAllowed(p, allowlist) && CanRead(rels, ResourceObject(p), subject)
  }

  lemma AllowedParentsOpenOnlyAllowed(before: set<Tuple>, edges: seq<Mapping.CanonicalEdge>, allowlist: seq<string>)
    requires ParentsAllowed(edges, allowlist)
    ensures OpensOnlyAllowed(before, before + Requested(SyncLog(edges)), allowlist)
  {
    var added := Requested(SyncLog(edges));
    forall rels, rels', obj, subject | Shows(rels, before) && Shows(rels', before + added) && CanRead(rels', obj, subject)
      ensures CanRead(rels, obj, subject) || AllowedParentRead(rels, allowlist, subject)
    {
      AddedParentsRead(rels, rels', added, obj, subject);
      if Opened(rels, rels', added, obj, subject) {
        var t :| t in added && CanRead(rels, t.subject, subject) && ReachesByParents(rels', obj, t.obj);
        var p :| t.subject == ResourceObject(p) && Mapping.ParentAllowed(p, allowlist);
      }
    }
  }

  lemma NothingRequested(tuples: set<Tuple>)
    ensures tuples + Requested(SyncLog([])) == tuples
  {
  }

  /** An intake followed by a drain with a working tuple store: the store gains what was pending
      and what the accepted edges ask for, and that opens objects only to readers of allowlisted parents. */
  method AcceptAndDrain(c: Mapping.Constraints, resourceID: string, parentID: string, entries: seq<Mapping.EdgeInput>,
                        visibilityRef: string, stubID: string -> string, allowlist: seq<string>, graph: EdgeStore, worker: Worker,
                        records0: Records, orgID: string, idOf: Triple -> string, now: int, ghost run0: Run)
    returns (r: Mapping.Outcome<seq<Mapping.CanonicalEdge>>, records: Records, ghost run: Run)
    requires graph.Valid() && worker.Resting(run0) && orgID != "" && forall t :: idOf(t) != ""
    requires worker.authz.reliable && NoPendingDeletes(worker.ledger.rows)
    modifies graph, worker, worker.ledger, worker.authz
    ensures r.Ok? <==> Mapping.Acceptable(c, resourceID, entries, allowlist)
    ensures r.Ok? ==> Mapping.Represents(r.value, Mapping.Handed(resourceID, parentID, entries, visibilityRef, stubID))
    ensures graph.edges - {orgID} == old(graph.edges) - {orgID}
    ensures graph.Of(orgID) == if r.Ok? then AfterEdges(old(graph.Of(orgID)), orgID, r.value, idOf, now) else old(graph.Of(orgID))
    ensures worker.Resting(run) && !AnyPending(worker.ledger.rows)
    ensures worker.authz.tuples == old(worker.authz.tuples) + old(PendingTuples(worker.ledger.rows))
                                   + if r.Ok? then Requested(SyncLog(r.value)) else {}
    ensures OpensOnlyAllowed(old(worker.authz.tuples) + old(PendingTuples(worker.ledger.rows)), worker.authz.tuples, allowlist)
  {
    r, records, run := Accept(c, resourceID, parentID, entries, visibilityRef, stubID, allowlist, graph, worker.ledger, records0,
                              orgID, idOf, now, worker.maxAttempts, run0);
    ghost var before := worker.authz.tuples + old(PendingTuples(worker.ledger.rows));
    run := worker.DrainAuthz(run);
    if r.Ok? {
      AllowedParentsOpenOnlyAllowed(before, r.value, allowlist);
    } else {
      AcceptedParentsAreAllowed([], allowlist);
      AllowedParentsOpenOnlyAllowed(before, [], allowlist);
      NothingRequested(before);
    }
  }
}
