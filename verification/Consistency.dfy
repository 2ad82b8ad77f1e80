/** What the outbox's bookkeeping says about the tuple store (internal/authzsync, internal/deletion):
    when a covered grant is really there, and what a deletion has taken away. */
module Consistency {
  import opened Ports
  import opened Relationships
  import opened EdgeLedger
  import opened AuthzOutbox
  import opened AuthzWorker
  import opened Inheritance
  import Deletion

  /* ---------- replaying a history ---------- */

  lemma {:induction false} ReplayAdds(start: set<Tuple>, a: seq<(Operation, Tuple)>, b: seq<(Operation, Tuple)>)
    ensures Replay(start, a + b) == Replay(Replay(start, a), b)
  {
    if b == [] {
      assert a + b == a;
    } else {
      var n := |b| - 1;
      ReplayAdds(start, a, b[..n]);
      assert (a + b)[..|a| + n] == a + b[..n];
    }
  }

  /** The latest intent that was enqueued for a tuple. */
  function Latest(log: seq<(Operation, Tuple)>, t: Tuple): Option<Operation> {
    if log == [] then None
    else
      var (operation, tuple) := log[|log| - 1];
      if tuple == t then Some(operation) else Latest(log[..|log| - 1], t)
  }

  lemma {:induction false} ReplayShowsLatest(start: set<Tuple>, log: seq<(Operation, Tuple)>, t: Tuple)
    ensures t in Replay(start, log) <==> if Latest(log, t).None? then t in start else Latest(log, t).value == Write
    ensures Latest(log, t).Some? ==> (Latest(log, t).value, t) in log
    ensures Latest(log, t).None? ==> (Write, t) !in log && (Delete, t) !in log
  {
    if log != [] {
      var n := |log| - 1;
      ReplayShowsLatest(start, log[..n], t);
      assert log == log[..n] + [log[n]] && log[n] in log;
      assert log[n].1 == t ==> log[n] == (log[n].0, t);
    }
  }

  /* ---------- coverage ---------- */

  /** Rows come from enqueues, and applied writes of tuples that no delete was asked for are stored. */
  ghost predicate AppliedAreStored(s: State) {
    && (forall id :: id in s.rows ==> (s.rows[id].operation, s.rows[id].tuple) in s.log)
    && (forall id :: id in s.rows && s.rows[id].status == Applied ==> WriteIsStored(s, s.rows[id]))
    && (s.phase == Succeeded && s.hand != [] && s.hand[0] in s.rows ==> WriteIsStored(s, s.rows[s.hand[0]]))
  }

  ghost predicate WriteIsStored(s: State, r: Row) {
    r.operation == Write && (Delete, r.tuple) !in s.log ==> r.tuple in s.store
  }

  lemma EnqueueKeepsApplied(max: int, s: State, a: Action, s': State)
    requires AppliedAreStored(s) && HandIsPending(s) && Step(max, s, a, s') && a.Enqueue?
    ensures AppliedAreStored(s')
  {
    var k := EnqueueTouchesOneRow(s, s', a.id, a.orgID, a.operation, a.tuple, a.edgeID);
    assert s'.log[|s.log|] == (a.operation, a.tuple) && forall x :: x in s.log ==> x in s'.log;
    forall id | id in s'.rows && id != k ensures id in s.rows && s'.rows[id] == s.rows[id] {
    }
  }

  lemma StepKeepsApplied(max: int, s: State, a: Action, s': State)
    requires AppliedAreStored(s) && HandIsPending(s) && Step(max, s, a, s')
    ensures AppliedAreStored(s')
  {
    if a.Enqueue? {
      EnqueueKeepsApplied(max, s, a, s');
    }
  }

  lemma {:induction false} RunKeepsApplied(max: int, run: Run)
    requires max >= 1 && run.Valid(max) && Initial(run.states[0])
    ensures AppliedAreStored(run.Last())
    decreases |run.actions|
  {
    if run.actions != [] {
      var n := |run.actions|;
      var shorter := Run(run.states[..n], run.actions[..n - 1]);
      RunKeepsApplied(max, shorter);
      RunKeepsHealthy(max, shorter);
      StepKeepsApplied(max, run.states[n - 1], run.actions[n - 1], run.states[n]);
    }
  }

  /** At every point of every run -- failures, lost marks and crashes included -- a covered write of
      a tuple that no delete was ever asked for is in the store or still waiting. */
  lemma CoveredIsGranted(max: int, run: Run, orgID: string, t: Tuple)
    requires max >= 1 && run.Valid(max) && Initial(run.states[0])
    requires Covered(run.Last().rows, orgID, Write, t) && (Delete, t) !in run.Last().log
    ensures t in run.Last().store || PendingOn(run.Last().rows, Write, t)
  {
    RunKeepsApplied(max, run);
    var rows := run.Last().rows;
    var id :| id in rows && rows[id].status != Dead && MatchesIn(rows[id], orgID, Write, t);
    assert rows[id].status == Applied ==> WriteIsStored(run.Last(), rows[id]);
  }

  /** In general a covered write, once everything is applied, is in the store exactly when no delete
      was enqueued after it: an applied row keeps covering a tuple that has been revoked since. */
  lemma CoverageIsCurrentIff(max: int, run: Run, orgID: string, t: Tuple)
    requires max >= 1 && run.Valid(max) && Initial(run.states[0]) && Settled(run.Last())
    requires forall i :: 0 <= i < |run.actions| ==> Unopposed(run.states[i], run.actions[i])
    requires Covered(run.Last().rows, orgID, Write, t)
    ensures t in run.Last().store <==> Latest(run.Last().log, t) == Some(Write)
  {
    RunKeepsApplied(max, run);
    AtLeastOnceRefinesExactlyOnce(max, run);
    ReplayShowsLatest(run.states[0].store, run.Last().log, t);
  }

  /** The rows of one tuple that was granted and then revoked. */
  function RevokedRows(t: Tuple, k: nat): Rows {
    var write := NewRow("org", Write, t, "", 0);
    var revoke := NewRow("org", Delete, t, "", 0);
    if k == 0 then map[]
    else if k == 1 then map[0 := write]
    else if k < 4 then map[0 := write.(leaseUntil := Some(LEASE))]
    else if k == 4 then map[0 := MarkedApplied(write)]
    else if k == 5 then map[0 := MarkedApplied(write), 1 := revoke]
    else if k < 8 then map[0 := MarkedApplied(write), 1 := revoke.(leaseUntil := Some(LEASE))]
    else map[0 := MarkedApplied(write), 1 := MarkedApplied(revoke)]
  }

  function RevokedScene(t: Tuple, k: nat): State {
    State(RevokedRows(t, k), if k < 3 || k > 6 then {} else {t}, 0,
          if 2 <= k < 4 then [0] else if 6 <= k < 8 then [1] else [],
          if k == 3 || k == 7 then Succeeded else Idle,
          if k == 0 then [] else if k < 5 then [(Write, t)] else [(Write, t), (Delete, t)])
  }

  function RevokedMove(t: Tuple, k: nat): Action {
    match k
    case 0 => Enqueue(0, "org", Write, t, "")
    case 1 => Claim([0])
    case 4 => Enqueue(1, "org", Delete, t, "")
    case 5 => Claim([1])
    case _ => if k == 2 || k == 6 then Apply(true) else Mark
  }

  lemma RevokedSceneMoves(t: Tuple, max: int, k: nat)
    requires k < 8
    ensures Step(max, RevokedScene(t, k), RevokedMove(t, k), RevokedScene(t, k + 1))
    ensures Unopposed(RevokedScene(t, k), RevokedMove(t, k))
  {
    var s, s' := RevokedScene(t, k), RevokedScene(t, k + 1);
    if k == 1 || k == 5 {
      assert AsSet([k / 4]) == {k / 4};
      assert s'.rows == Claimed(s.rows, {k / 4}, LEASE);
    } else if k == 2 || k == 6 {
      assert s'.store == ApplyOp(s.store, s.rows[s.hand[0]].operation, t);
    } else if k == 3 || k == 7 {
      assert s'.rows == s.rows[s.hand[0] := MarkedApplied(s.rows[s.hand[0]])];
    }
  }

  /** Such a revoked tuple is covered, absent, and nothing is on its way: a reconciler that only
      looks at the outbox has nothing to do about it. */
  lemma CoverageCanBeStale(t: Tuple, max: int) returns (run: Run)
    ensures run.Valid(max) && Initial(run.states[0]) && Settled(run.Last())
    ensures Covered(run.Last().rows, "org", Write, t) && t !in run.Last().store
    ensures forall i :: 0 <= i < |run.actions| ==> Unopposed(run.states[i], run.actions[i])
  {
    run := Run(seq(9, k requires 0 <= k => RevokedScene(t, k)), seq(8, k requires 0 <= k => RevokedMove(t, k)));
    forall k | 0 <= k < 8
      ensures Step(max, run.states[k], run.actions[k], run.states[k + 1]) && Unopposed(run.states[k], run.actions[k])
    {
      RevokedSceneMoves(t, max, k);
    }
    assert run.Last() == RevokedScene(t, 8);
    assert MatchesIn(run.Last().rows[0], "org", Write, t);
  }

  /* ---------- revocation ---------- */

  /** The parent tuples that deleting some edges asks to remove. */
  function Revoked(edges: seq<GraphEdge>): set<Tuple> {
    set e | e in edges && NeedsSynchronization(e) :: InheritanceTuple(e)
  }

  lemma {:induction false} DeletesAreReplayed(start: set<Tuple>, edges: seq<GraphEdge>)
    ensures Replay(start, Deletion.DeleteWork(edges)) == start - Revoked(edges)
  {
    if edges != [] {
      var before, e := edges[..|edges| - 1], edges[|edges| - 1];
      DeletesAreReplayed(start, before);
      DeletingOneMore(start, before, e);
      assert edges == before + [e];
    }
  }

  lemma DeletingOneMore(start: set<Tuple>, before: seq<GraphEdge>, e: GraphEdge)
    requires Replay(start, Deletion.DeleteWork(before)) == start - Revoked(before)
    ensures Replay(start, Deletion.DeleteWork(before) + WorkOf(e, Delete)) == start - Revoked(before + [e])
  {
    ReplayAdds(start, Deletion.DeleteWork(before), WorkOf(e, Delete));
    OneDeleteIsReplayed(start - Revoked(before), e);
    OneMoreRevoked(before, e);
  }

  lemma OneDeleteIsReplayed(start: set<Tuple>, e: GraphEdge)
    ensures Replay(start, WorkOf(e, Delete)) == start - if NeedsSynchronization(e) then {InheritanceTuple(e)} else {}
  {
    if NeedsSynchronization(e) {
      assert WorkOf(e, Delete)[..0] == [];
    }
  }

  lemma OneMoreRevoked(edges: seq<GraphEdge>, e: GraphEdge)
    ensures Revoked(edges + [e]) == Revoked(edges) + if NeedsSynchronization(e) then {InheritanceTuple(e)} else {}
  {
    assert forall x :: x in edges + [e] <==> x in edges || x == e;
  }

  /** A run in which a deletion's work follows earlier work and is followed by later work. */
  ghost predicate Deleted(max: int, run: Run, earlier: seq<(Operation, Tuple)>, listed: seq<GraphEdge>, later: seq<(Operation, Tuple)>) {
    && max >= 1 && run.Valid(max) && Initial(run.states[0]) && Settled(run.Last())
    && (forall i :: 0 <= i < |run.actions| ==> Unopposed(run.states[i], run.actions[i]))
    && run.Last().log == earlier + Deletion.DeleteWork(listed) + later
  }

  /** Once the outbox settles, no parent tuple of a deleted edge is left unless later work wrote it
      again; without later work nothing else has changed. */
  lemma RevocationIsComplete(max: int, run: Run, earlier: seq<(Operation, Tuple)>, listed: seq<GraphEdge>, later: seq<(Operation, Tuple)>)
    requires Deleted(max, run, earlier, listed, later)
    ensures forall t :: t in Revoked(listed) && (Write, t) !in later ==> t !in run.Last().store
    ensures later == [] ==> run.Last().store == Replay(run.states[0].store, earlier) - Revoked(listed)
  {
    var start := run.states[0].store;
    var before := Replay(start, earlier);
    AtLeastOnceRefinesExactlyOnce(max, run);
    ReplayAdds(start, earlier + Deletion.DeleteWork(listed), later);
    ReplayAdds(start, earlier, Deletion.DeleteWork(listed));
    DeletesAreReplayed(before, listed);
    forall t | t in Revoked(listed) && (Write, t) !in later ensures t !in run.Last().store {
      ReplayShowsLatest(before - Revoked(listed), later, t);
    }
  }

  ghost predicate GrantedByEdge(m: EdgeMap, id: string, t: Tuple) {
    exists k :: k in Deletion.LiveIncident(m, id) && NeedsSynchronization(m[k]) && InheritanceTuple(m[k]) == t
  }

  predicate ParentAt(t: Tuple, id: string) {
    t.relation == "parent" && (t.obj == ResourceObject(id) || t.subject == ResourceObject(id))
  }

  /** With at most a thousand live edges at the deleted resource, each of them that granted
      inheritance has lost its tuple; so if the parent tuples at the resource were those of its
      edges, it no longer inherits from anything, and nothing inherits from it. */
  lemma DeletedResourceIsCutOff(max: int, run: Run, earlier: seq<(Operation, Tuple)>, m: EdgeMap, id: string, listed: seq<GraphEdge>)
    requires Keyed(m) && Listing(m, Deletion.IncidentOptions(id), listed) && |Deletion.LiveIncident(m, id)| <= 1000
    requires Deleted(max, run, earlier, listed, [])
    ensures forall t :: t in run.Last().store ==> !GrantedByEdge(m, id, t)
    ensures (forall t :: t in Replay(run.states[0].store, earlier) && ParentAt(t, id) ==> GrantedByEdge(m, id, t)) ==>
              forall t :: t in run.Last().store ==> !ParentAt(t, id)
  {
    RevocationIsComplete(max, run, earlier, listed, []);
    LiveAreRevoked(m, id, listed);
  }

  lemma {:induction false} DeleteWorkRevokes(edges: seq<GraphEdge>, t: Tuple)
    requires (Delete, t) in Deletion.DeleteWork(edges)
    ensures t in Revoked(edges)
  {
    var n := |edges| - 1;
    OneMoreRevoked(edges[..n], edges[n]);
    assert edges == edges[..n] + [edges[n]];
    if (Delete, t) in Deletion.DeleteWork(edges[..n]) {
      DeleteWorkRevokes(edges[..n], t);
    }
  }

  /** What the deletion takes away: whoever reads an object after it could before, and whoever
      could before still can, or read it through one of the revoked tuples. */
  lemma DeletionRevokesExactly(max: int, run: Run, earlier: seq<(Operation, Tuple)>, listed: seq<GraphEdge>,
                               before: Relations, after: Relations, obj: string, subject: string)
    requires Deleted(max, run, earlier, listed, [])
    requires Shows(before, Replay(run.states[0].store, earlier)) && Shows(after, run.Last().store)
    ensures CanRead(before, obj, subject) <==>
              CanRead(after, obj, subject) || Opened(after, before, Revoked(listed) * Replay(run.states[0].store, earlier), obj, subject)
  {
    RevocationIsComplete(max, run, earlier, listed, []);
    var gone := Revoked(listed) * Replay(run.states[0].store, earlier);
    AddedParentsRead(after, before, gone, obj, subject);
  }

  /* ---------- the saga and the worker together ---------- */

  /** Deletes are unopposed as long as no write of their tuples was pending at the start. */
  lemma {:induction false} DeletesAreUnopposed(max: int, orgID: string, run0: Run, run: Run, rows: Rows, log: seq<(Operation, Tuple)>)
    requires Continues(max, orgID, run0, run, rows, log) && run0.Last().log <= log
    requires forall op :: op in log[|run0.Last().log|..] ==> op.0 == Delete && !PendingOn(run0.Last().rows, Write, op.1)
    ensures forall i :: |run0.actions| <= i < |run.actions| ==> Unopposed(run.states[i], run.actions[i])
    decreases |run.actions|
  {
    if |run0.actions| < |run.actions| {
      var log0, n := run0.Last().log, |run.actions|;
      var before := OneStepEarlier(max, orgID, run0, run, rows, log);
      var a, log1 := run.actions[n - 1], before.Last().log;
      ContinuesGains(max, orgID, run0, before, before.Last().rows, log1);
      assert log[|log0|..] == log1[|log0|..] + [(a.operation, a.tuple)];
      DeletesAddNoWrites(run0.Last().rows, before.Last().rows, log1[|log0|..], (a.operation, a.tuple));
      DeletesAreUnopposed(max, orgID, run0, before, before.Last().rows, log1);
      assert Unopposed(before.Last(), a) && run.states[n - 1] == before.Last();
      forall i | |run0.actions| <= i < n - 1 ensures Unopposed(run.states[i], run.actions[i]) {
        assert run.states[i] == before.states[i] && run.actions[i] == before.actions[i];
      }
    }
  }

  lemma DeletesAddNoWrites(rows: Rows, rows1: Rows, work: seq<(Operation, Tuple)>, last: (Operation, Tuple))
    requires Gains(rows, rows1, work) && forall op :: op in work + [last] ==> op.0 == Delete && !PendingOn(rows, Write, op.1)
    ensures last.0 == Delete && !PendingOn(rows1, Write, last.1)
    ensures forall op :: op in work ==> op.0 == Delete && !PendingOn(rows, Write, op.1)
  {
    assert last in work + [last];
    forall op | op in work ensures op in work + [last] {
    }
    assert (Write, last.1) !in work;
  }

  lemma {:induction false} DeleteWorkIsDeletes(edges: seq<GraphEdge>, op: (Operation, Tuple))
    ensures op in Deletion.DeleteWork(edges) <==> op.0 == Delete && op.1 in Revoked(edges)
  {
    if edges != [] {
      var before, e := edges[..|edges| - 1], edges[|edges| - 1];
      DeleteWorkIsDeletes(before, op);
      OneMoreRevoked(before, e);
      assert edges == before + [e];
    }
  }

  ghost predicate AllUnopposed(run: Run) {
    forall i | 0 <= i < |run.actions| && i < |run.states| :: Unopposed(run.states[i], run.actions[i])
  }

  /** The tuples that the store will hold once the pending work is done. */
  ghost function Pledged(rows: Rows, store: set<Tuple>): set<Tuple> {
    set t | t in store + PendingTuples(rows) && Intended(rows, store, t)
  }

  lemma PledgedIsIntended(rows: Rows, store: set<Tuple>, t: Tuple)
    ensures t in Pledged(rows, store) <==> Intended(rows, store, t)
  {
    PendingEitherWay(rows, t);
  }

  /** No write of a revoked tuple is still waiting. */
  ghost predicate NothingRewrites(rows: Rows, listed: seq<GraphEdge>) {
    forall t :: t in Revoked(listed) ==> !PendingOn(rows, Write, t)
  }

  /** What a saga and a drain do to one tuple: revoked ones go, all others end as they were meant to. */
  ghost predicate RevokesOnly(rows: Rows, store: set<Tuple>, store': set<Tuple>, revoked: set<Tuple>) {
    && (forall t :: t in revoked && !PendingOn(rows, Write, t) ==> t !in store')
    && (forall t :: t !in revoked && !Opposed(rows, t) ==> (t in store' <==> Intended(rows, store, t)))
  }

  lemma RevokedAfterDrain(rows: Rows, rows1: Rows, store: set<Tuple>, store': set<Tuple>, listed: seq<GraphEdge>)
    requires Gains(rows, rows1, Deletion.DeleteWork(listed))
    requires forall t :: !Opposed(rows1, t) ==> (t in store' <==> Intended(rows1, store, t))
    ensures RevokesOnly(rows, store, store', Revoked(listed))
  {
    forall t
      ensures PendingOn(rows1, Write, t) <==> PendingOn(rows, Write, t)
      ensures PendingOn(rows1, Delete, t) <==> PendingOn(rows, Delete, t) || t in Revoked(listed)
    {
      DeleteWorkIsDeletes(listed, (Write, t));
      DeleteWorkIsDeletes(listed, (Delete, t));
    }
  }

  /** So with nothing opposed the store is what it was meant to be without the revoked tuples, and
      reading loses exactly what went through them. */
  lemma RevokedStore(rows: Rows, store: set<Tuple>, store': set<Tuple>, listed: seq<GraphEdge>)
    requires RevokesOnly(rows, store, store', Revoked(listed)) && NothingRewrites(rows, listed) && forall t :: !Opposed(rows, t)
    ensures store' == Pledged(rows, store) - Revoked(listed)
    ensures LosesExactly(Pledged(rows, store), store', Revoked(listed))
  {
    forall t ensures t in store' <==> t in Pledged(rows, store) - Revoked(listed) {
      PledgedIsIntended(rows, store, t);
    }
    var gone := Revoked(listed) * Pledged(rows, store);
    forall before, after, obj, subject | Shows(before, Pledged(rows, store)) && Shows(after, store')
      ensures CanRead(before, obj, subject) <==> CanRead(after, obj, subject) || Opened(after, before, gone, obj, subject)
    {
      AddedParentsRead(after, before, gone, obj, subject);
    }
  }

  /** Reads before are exactly the reads after and those through a lost tuple. */
  ghost predicate LosesExactly(store: set<Tuple>, store': set<Tuple>, revoked: set<Tuple>) {
    forall before, after, obj, subject | Shows(before, store) && Shows(after, store') ::
      CanRead(before, obj, subject) <==> CanRead(after, obj, subject) || Opened(after, before, revoked * store, obj, subject)
  }

  /** So far the outbox was filled from empty, nothing was opposed or given up, and nothing would
      bring a revoked tuple back. */
  ghost predicate Orderly(max: int, run: Run, listed: seq<GraphEdge>) {
    && max >= 1 && run.states != [] && Initial(run.states[0]) && AllUnopposed(run)
    && NothingRewrites(run.Last().rows, listed) && NoDead(run.Last().rows)
  }

  lemma DrainedDeletion(max: int, orgID: string, run0: Run, run1: Run, run: Run, rows1: Rows, log1: seq<(Operation, Tuple)>, listed: seq<GraphEdge>)
    requires run0.states != [] && Orderly(max, run0, listed)
    requires Continues(max, orgID, run0, run1, rows1, log1) && log1 == run0.Last().log + Deletion.DeleteWork(listed)
    requires Quiet(run1, run) && run.Valid(max) && run.Last().log == log1 && Settled(run.Last())
    ensures Deleted(max, run, run0.Last().log, listed, [])
  {
    forall op | op in log1[|run0.Last().log|..] ensures op.0 == Delete && !PendingOn(run0.Last().rows, Write, op.1) {
      assert log1[|run0.Last().log|..] == Deletion.DeleteWork(listed);
      DeleteWorkIsDeletes(listed, op);
    }
    DeletesAreUnopposed(max, orgID, run0, run1, rows1, log1);
    forall i | 0 <= i < |run.actions| ensures Unopposed(run.states[i], run.actions[i]) {
      if i < |run0.actions| {
        assert run1.states[i] == run0.states[i] && run1.actions[i] == run0.actions[i] && Unopposed(run0.states[i], run0.actions[i]);
        assert run.states[i] == run1.states[i] && run.actions[i] == run1.actions[i];
      } else if i < |run1.actions| {
        assert run.states[i] == run1.states[i] && run.actions[i] == run1.actions[i];
      }
    }
    assert run.Last().log == run0.Last().log + Deletion.DeleteWork(listed) + [];
  }

  /** A deletion followed by a drain with a working tuple store, wherever the saga stops.  Every tuple
      of a deleted edge is gone, unless a write of it was still waiting, and nothing else changes;
      up to a thousand live edges that covers every edge at the resource. */
  method DeleteAndDrain(saga: Deletion.Saga, worker: Worker, orgID: string, id: string, revID: string, now: int, env: Deletion.Env, ghost run0: Run)
    returns (r: Deletion.Outcome, ghost listed: seq<GraphEdge>, ghost run: Run)
    requires saga.Valid() && saga.outbox == worker.ledger && revID !in saga.revisions
    requires worker.Resting(run0) && worker.authz.reliable
    modifies saga`records, saga`revisions, saga.graph, saga.index, saga.evidence, worker, worker.ledger, worker.authz
    ensures worker.Resting(run) && !AnyPending(worker.ledger.rows)
    ensures r.Rejected? ==> listed == []
    ensures RevokesOnly(old(worker.ledger.rows), old(worker.authz.tuples), worker.authz.tuples, Revoked(listed))
    ensures !r.Rejected? && |Deletion.LiveIncident(old(saga.graph.Of(orgID)), id)| <= 1000 ==>
              && Deletion.LiveIncident(saga.graph.Of(orgID), id) == {}
              && forall t :: GrantedByEdge(old(saga.graph.Of(orgID)), id, t) ==> t in Revoked(listed)
    ensures NothingRewrites(old(worker.ledger.rows), listed) && (forall t :: !Opposed(old(worker.ledger.rows), t)) ==>
              && worker.authz.tuples == Pledged(old(worker.ledger.rows), old(worker.authz.tuples)) - Revoked(listed)
              && LosesExactly(Pledged(old(worker.ledger.rows), old(worker.authz.tuples)), worker.authz.tuples, Revoked(listed))
    ensures Orderly(worker.maxAttempts, run0, listed) ==> Deleted(worker.maxAttempts, run, old(worker.ledger.log), listed, [])
  {
    ghost var rows, store, log, m := worker.ledger.rows, worker.authz.tuples, worker.ledger.log, saga.graph.Of(orgID);
    r, listed, run := saga.Run(orgID, id, revID, now, env, worker.maxAttempts, run0);
    ghost var run1, rows1, log1 := run, worker.ledger.rows, worker.ledger.log;
    run := worker.DrainAuthz(run);
    assert log1 == log + Deletion.DeleteWork(listed);
    RevokedAfterDrain(rows, rows1, store, worker.authz.tuples, listed);
    if NothingRewrites(rows, listed) && forall t :: !Opposed(rows, t) {
      RevokedStore(rows, store, worker.authz.tuples, listed);
    }
    if Orderly(worker.maxAttempts, run0, listed) {
      NoDeadEnqueued(worker.maxAttempts, orgID, run0, run1, rows1, log1);
      DrainedDeletion(worker.maxAttempts, orgID, run0, run1, run, rows1, log1, listed);
    }
    if !r.Rejected? && |Deletion.LiveIncident(m, id)| <= 1000 {
      LiveAreRevoked(m, id, listed);
    }
  }

  /** Enqueueing kills no row. */
  lemma {:induction false} NoDeadEnqueued(max: int, orgID: string, run0: Run, run: Run, rows: Rows, log: seq<(Operation, Tuple)>)
    requires Continues(max, orgID, run0, run, rows, log) && NoDead(run0.Last().rows)
    ensures NoDead(rows)
    decreases |run.actions|
  {
    if |run0.actions| < |run.actions| {
      var before := OneStepEarlier(max, orgID, run0, run, rows, log);
      NoDeadEnqueued(max, orgID, run0, before, before.Last().rows, before.Last().log);
    }
  }

  lemma LiveAreRevoked(m: EdgeMap, id: string, listed: seq<GraphEdge>)
    requires Keyed(m) && Listing(m, Deletion.IncidentOptions(id), listed) && |Deletion.LiveIncident(m, id)| <= 1000
    ensures forall t :: GrantedByEdge(m, id, t) ==> t in Revoked(listed)
  {
    Deletion.NoLiveEdgeIsLeft(m, id, listed, 0);
    forall k | k in Deletion.LiveIncident(m, id) && NeedsSynchronization(m[k]) ensures InheritanceTuple(m[k]) in Revoked(listed) {
      DeleteWorkRevokes(listed, InheritanceTuple(m[k]));
    }
  }
}
