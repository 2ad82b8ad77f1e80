/** The authorization worker (internal/application/worker.go) over the ledger's outbox table, updated
    in place.  Every execution is a run of the step machine, so the machine's theorems hold of it. */
module AuthzWorker {
  import opened Ports
  import opened Relationships
  import opened EdgeLedger
  import opened AuthzOutbox

  const POLL_INTERVAL: nat := 10_000_000

  /* ---------- how much work is left ---------- */

  /** The writer calls a row can still cost: its remaining attempts, and always one while pending. */
  function Remaining(max: int, r: Row): nat {
    if r.status != Pending then 0 else if max - r.attempts > 1 then max - r.attempts else 1
  }

  ghost function Total(max: int, rows: Rows): nat
    decreases |rows|
  {
    if rows == map[] then 0
    else
      var k :| k in rows;
      Remaining(max, rows[k]) + Total(max, rows - {k})
  }

  lemma {:induction false} TotalSplits(max: int, rows: Rows, k: nat)
    requires k in rows
    ensures Total(max, rows) == Remaining(max, rows[k]) + Total(max, rows - {k})
    decreases |rows|
  {
    var j :| j in rows && Total(max, rows) == Remaining(max, rows[j]) + Total(max, rows - {j});
    if j != k {
      TotalSplits(max, rows - {j}, k);
      assert (rows - {j}) - {k} == (rows - {k}) - {j};
      TotalSplits(max, rows - {k}, j);
    }
  }

  lemma TotalAfterUpdate(max: int, rows: Rows, k: nat, r: Row)
    requires k in rows
    ensures Total(max, rows[k := r]) == Total(max, rows) - Remaining(max, rows[k]) + Remaining(max, r)
    ensures Total(max, rows) >= Remaining(max, rows[k])
  {
    TotalSplits(max, rows, k);
    TotalSplits(max, rows[k := r], k);
    assert rows[k := r] - {k} == rows - {k};
  }

  lemma {:induction false} LeasesAreFree(max: int, rows: Rows, ids: set<nat>, until: int)
    ensures Total(max, Claimed(rows, ids, until)) == Total(max, rows)
    decreases |rows|
  {
    if rows != map[] {
      var k :| k in rows;
      TotalSplits(max, rows, k);
      TotalSplits(max, Claimed(rows, ids, until), k);
      assert Claimed(rows, ids, until) - {k} == Claimed(rows - {k}, ids, until);
      LeasesAreFree(max, rows - {k}, ids, until);
    }
  }

  function ReadyAt(r: Row): int {
    if r.leaseUntil.Some? && r.leaseUntil.value > r.nextAttempt then r.leaseUntil.value else r.nextAttempt
  }

  /** By the horizon every pending row can be claimed. */
  ghost predicate ReadyBy(rows: Rows, horizon: int) {
    forall id :: id in rows && rows[id].status == Pending ==> ReadyAt(rows[id]) <= horizon
  }

  lemma {:induction false} SomeHorizon(rows: Rows) returns (horizon: int)
    ensures ReadyBy(rows, horizon)
    decreases |rows|
  {
    if rows == map[] {
      horizon := 0;
    } else {
      var k :| k in rows;
      var rest := rows - {k};
      horizon := SomeHorizon(rest);
      forall id | id in rows && id != k ensures id in rest && rest[id] == rows[id] {
      }
      if ReadyAt(rows[k]) > horizon {
        horizon := ReadyAt(rows[k]);
      }
    }
  }

  ghost predicate AnyPending(rows: Rows) {
    exists id :: id in rows && rows[id].status == Pending
  }

  function PendingTuples(rows: Rows): set<Tuple> {
    set id | id in rows && rows[id].status == Pending :: rows[id].tuple
  }

  /** A row that becomes or stays pending. */
  lemma OneMorePending(rows: Rows, rows': Rows, k: nat)
    requires k in rows' && rows' == rows[k := rows'[k]] && rows'[k].status == Pending
    requires k in rows ==> rows[k].tuple == rows'[k].tuple
    ensures PendingTuples(rows') == PendingTuples(rows) + {rows'[k].tuple}
  {
    forall u | u in PendingTuples(rows) ensures u in PendingTuples(rows') {
      var id :| id in rows && rows[id].status == Pending && rows[id].tuple == u;
      assert id in rows' && rows'[id].status == Pending && rows'[id].tuple == u;
    }
    assert rows'[k].tuple in PendingTuples(rows');
  }

  ghost predicate NoDead(rows: Rows) {
    forall id :: id in rows ==> rows[id].status != Dead
  }

  ghost predicate NoPendingDeletes(rows: Rows) {
    forall id :: id in rows && rows[id].status == Pending ==> rows[id].operation == Write
  }

  /* ---------- the ledger's outbox table and the tuple store ---------- */

  class AuthzLedger {
    var rows: Rows
    var nextID: nat
    var clock: int
    ghost var log: seq<(Operation, Tuple)>

    constructor ()
      ensures rows == map[] && log == [] && Valid()
    {
      rows, nextID, clock, log := map[], 0, 0, [];
    }

    ghost predicate Valid()
      reads this
    {
      forall id :: id in rows ==> id < nextID
    }

    /** Reads the wall clock, which only moves forward. */
    method Now() returns (now: int)
      modifies this`clock
      ensures now == clock && clock >= old(clock)
    {
      var elapsed: nat :| true;
      clock := clock + elapsed;
      now := clock;
    }

    method EnqueueAuthzTuple(orgID: string, operation: Operation, tuple: Tuple, edgeID: string) returns (ok: bool, ghost id: nat)
      requires Valid()
      modifies this`rows, this`nextID, this`log
      ensures Valid()
      ensures ok <==> orgID != "" && tuple.obj != "" && tuple.relation != "" && tuple.subject != ""
      ensures !ok ==> rows == old(rows) && log == old(log)
      ensures ok ==> Enqueued(old(rows), rows, id, orgID, operation, tuple, edgeID, clock) && log == old(log) + [(operation, tuple)]
    {
      id := nextID;
      if orgID == "" || tuple.obj == "" || tuple.relation == "" || tuple.subject == "" {
        return false, id;
      }
      log := log + [(operation, tuple)];
      var ids := rows.Keys;
      while ids != {}
        invariant ids <= rows.Keys && rows == old(rows)
        invariant forall k :: k in rows.Keys - ids ==> !(rows[k].status == Pending && SameRequest(rows[k], orgID, operation, tuple))
      {
        var k :| k in ids;
        ids := ids - {k};
        if rows[k].status == Pending && SameRequest(rows[k], orgID, operation, tuple) {
          rows := rows[k := rows[k].(edgeID := edgeID)];
          return true, id;
        }
      }
      rows := rows[nextID := NewRow(orgID, operation, tuple, edgeID, clock)];
      nextID := nextID + 1;
      ok := true;
    }

    /** Leases eligible rows, in any order, up to the limit. */
    method ClaimAuthzTuples(limit: int, lease: int) returns (ids: seq<nat>)
      requires Valid()
      modifies this`rows
      ensures Valid()
      ensures NoDuplicates(ids) && forall id :: id in ids ==> id in old(rows) && Eligible(old(rows)[id], clock)
      ensures rows == Claimed(old(rows), AsSet(ids), clock + if lease <= 0 then LEASE else lease)
      ensures |ids| <= if limit <= 0 then 20 else limit
      ensures |ids| < (if limit <= 0 then 20 else limit) ==> forall id :: id in old(rows) && Eligible(old(rows)[id], clock) ==> id in ids
    {
      var max := if limit <= 0 then 20 else limit;
      var until := clock + if lease <= 0 then LEASE else lease;
      ids := [];
      ghost var was := rows;
      var todo := rows.Keys;
      while todo != {}
        invariant todo <= was.Keys && NoDuplicates(ids)
        invariant forall id :: id in ids ==> id in was && id !in todo && Eligible(was[id], clock)
        invariant rows == Claimed(was, AsSet(ids), until)
        invariant |ids| < max && forall id :: id in was && id !in todo && Eligible(was[id], clock) ==> id in ids
      {
        var id :| id in todo;
        todo := todo - {id};
        assert rows[id] == was[id];
        if Eligible(rows[id], clock) {
          rows := rows[id := rows[id].(leaseUntil := Some(until))];
          ids := ids + [id];
          if |ids| >= max {
            return;
          }
        }
      }
    }

    method MarkAuthzTupleApplied(id: nat) returns (ok: bool)
      requires Valid()
      modifies this`rows
      ensures Valid() && (ok <==> id in old(rows))
      ensures rows == if ok then old(rows)[id := MarkedApplied(old(rows)[id])] else old(rows)
    {
      ok := id in rows;
      if ok {
        rows := rows[id := MarkedApplied(rows[id])];
      }
    }

    method MarkAuthzTupleFailed(id: nat, attempts: int, next: int, dead: bool) returns (ok: bool)
      requires Valid()
      modifies this`rows
      ensures Valid() && (ok <==> id in old(rows))
      ensures rows == if ok then old(rows)[id := MarkedFailed(old(rows)[id], attempts, next, dead)] else old(rows)
    {
      ok := id in rows;
      if ok {
        rows := rows[id := MarkedFailed(rows[id], attempts, next, dead)];
      }
    }

    /** How many rows are pending and how many dead; the empty organization counts all. */
    method CountAuthzTuplePending(orgID: string) returns (pending: nat, dead: nat)
      ensures pending == |RowsWith(rows, orgID, Pending)| && dead == |RowsWith(rows, orgID, Dead)|
    {
      pending, dead := 0, 0;
      var ids := rows.Keys;
      ghost var done: Rows := map[];
      assert RowsWith(done, orgID, Pending) == {} && RowsWith(done, orgID, Dead) == {};
      while ids != {}
        invariant ids <= rows.Keys && done == map id | id in rows && id !in ids :: rows[id]
        invariant pending == |RowsWith(done, orgID, Pending)| && dead == |RowsWith(done, orgID, Dead)|
      {
        var id :| id in ids;
        ids := ids - {id};
        OneMoreRow(done, id, rows[id], orgID, Pending);
        OneMoreRow(done, id, rows[id], orgID, Dead);
        done := done[id := rows[id]];
        if InOrg(rows[id], orgID) {
          match rows[id].status
          case Pending => pending := pending + 1;
          case Dead => dead := dead + 1;
          case Applied =>
        }
      }
      assert done == rows;
    }

    /** The empty organization stands for every organization. */
    method HasAuthzTuplePending(orgID: string, operation: Operation, tuple: Tuple) returns (found: bool)
      ensures orgID != "" ==> (found <==> PendingRequest(rows, orgID, operation, tuple))
      ensures orgID == "" ==> (found <==> PendingOn(rows, operation, tuple))
    {
      var ids := rows.Keys;
      while ids != {}
        invariant ids <= rows.Keys
        invariant forall id :: id in rows && id !in ids ==> !(rows[id].status == Pending && MatchesIn(rows[id], orgID, operation, tuple))
      {
        var id :| id in ids;
        ids := ids - {id};
        if rows[id].status == Pending && MatchesIn(rows[id], orgID, operation, tuple) {
          return true;
        }
      }
      found := false;
    }

    /** Is the request waiting or done, and not only given up? */
    method HasAuthzTupleCoverage(orgID: string, operation: Operation, tuple: Tuple) returns (found: bool)
      ensures found <==> Covered(rows, orgID, operation, tuple)
    {
      var ids := rows.Keys;
      while ids != {}
        invariant ids <= rows.Keys
        invariant forall id :: id in rows && id !in ids ==> rows[id].status == Dead || !MatchesIn(rows[id], orgID, operation, tuple)
      {
        var id :| id in ids;
        ids := ids - {id};
        var r := rows[id];
        if MatchesIn(r, orgID, operation, tuple) && (r.status == Pending || r.status == Applied) {
          return true;
        }
      }
      found := false;
    }
  }

  predicate InOrg(r: Row, orgID: string) {
    orgID == "" || r.orgID == orgID
  }

  function RowsWith(rows: Rows, orgID: string, status: Status): set<nat> {
    set id | id in rows && InOrg(rows[id], orgID) && rows[id].status == status
  }

  lemma OneMoreMatch(rows: Rows, id: nat, r: Row, orgID: string, status: Status)
    requires id !in rows
    ensures RowsWith(rows[id := r], orgID, status) == RowsWith(rows, orgID, status) + if InOrg(r, orgID) && r.status == status then {id} else {}
  {
    var rows' := rows[id := r];
    forall x ensures x in RowsWith(rows', orgID, status) <==> x in RowsWith(rows, orgID, status) || (x == id && InOrg(r, orgID) && r.status == status) {
      assert x != id ==> (x in rows' <==> x in rows);
    }
  }

  lemma OneMoreRow(rows: Rows, id: nat, r: Row, orgID: string, status: Status)
    requires id !in rows
    ensures |RowsWith(rows[id := r], orgID, status)| == |RowsWith(rows, orgID, status)| + if InOrg(r, orgID) && r.status == status then 1 else 0
  {
    OneMoreMatch(rows, id, r, orgID, status);
    assert id !in RowsWith(rows, orgID, status);
  }

  ghost predicate Covered(rows: Rows, orgID: string, operation: Operation, tuple: Tuple) {
    exists id :: id in rows && rows[id].status != Dead && MatchesIn(rows[id], orgID, operation, tuple)
  }

  predicate MatchesIn(r: Row, orgID: string, operation: Operation, tuple: Tuple) {
    InOrg(r, orgID) && r.operation == operation && r.tuple == tuple
  }

  /** A relationship writer whose calls may fail, and a failed call may still have taken effect;
      a reliable one never fails. */
  class TupleStore {
    const reliable: bool
    var tuples: set<Tuple>
    /** Every call ever made, in order. */
    ghost var sent: seq<(Operation, Tuple)>

    constructor (reliable: bool, tuples: set<Tuple>)
      ensures this.reliable == reliable && this.tuples == tuples && sent == []
    {
      this.reliable, this.tuples, this.sent := reliable, tuples, [];
    }

    method Send(operation: Operation, tuple: Tuple) returns (ok: bool)
      modifies this`tuples, this`sent
      ensures sent == old(sent) + [(operation, tuple)]
      ensures reliable ==> ok
      ensures tuples == ApplyOp(old(tuples), operation, tuple) || (!ok && tuples == old(tuples))
    {
      sent := sent + [(operation, tuple)];
      ok := true;
      if !reliable {
        ok :| true;
      }
      var reached: bool :| true;
      if ok || reached {
        tuples := ApplyOp(tuples, operation, tuple);
      }
    }
  }

  /* ---------- the worker ---------- */

  /** What finishing one row does to the amount of work left. */
  lemma FinishingCostsOne(max: int, rows: Rows, id: nat, succeeded: bool, now: int)
    requires id in rows && rows[id].status == Pending
    ensures var r' := if succeeded then MarkedApplied(rows[id]) else Failed(max, rows[id], now);
            Total(max, rows[id := r']) + 1 <= Total(max, rows)
  {
    var r' := if succeeded then MarkedApplied(rows[id]) else Failed(max, rows[id], now);
    TotalAfterUpdate(max, rows, id, r');
  }

  /** A write and a delete of the tuple wait together, so nothing fixes which of them comes last. */
  ghost predicate Opposed(rows: Rows, t: Tuple) {
    PendingOn(rows, Write, t) && PendingOn(rows, Delete, t)
  }

  /** What the store will say of a tuple once the pending work on it is done. */
  ghost predicate Intended(rows: Rows, store: set<Tuple>, t: Tuple) {
    PendingOn(rows, Write, t) || (t in store && !PendingOn(rows, Delete, t))
  }

  /** Successes conserve what store and pending work together intend for every unopposed tuple. */
  ghost predicate SameGoal(rows: Rows, store: set<Tuple>, rows': Rows, store': set<Tuple>) {
    forall t :: !Opposed(rows, t) ==> !Opposed(rows', t) && (Intended(rows', store', t) <==> Intended(rows, store, t))
  }

  lemma ClaimingKeepsGoal(rows: Rows, ids: set<nat>, until: int, store: set<Tuple>)
    ensures SameGoal(rows, store, Claimed(rows, ids, until), store)
  {
    ClaimingKeepsPending(rows, ids, until);
  }

  /** With nothing pending the goal is the store; from writes alone it is the sum. */
  lemma DrainedStore(rows: Rows, store: set<Tuple>, rows': Rows, store': set<Tuple>)
    requires SameGoal(rows, store, rows', store') && !AnyPending(rows')
    ensures forall t :: !Opposed(rows, t) ==> (t in store' <==> Intended(rows, store, t))
    ensures NoPendingDeletes(rows) ==> store' == store + PendingTuples(rows)
  {
    forall operation, t ensures !PendingOn(rows', operation, t) {
    }
    if NoPendingDeletes(rows) {
      forall t ensures t in store' <==> t in store + PendingTuples(rows) {
        assert !PendingOn(rows, Delete, t) && !Opposed(rows, t);
        WritesPend(rows, t);
        assert t in store' <==> Intended(rows, store, t);
      }
    }
  }

  lemma WritesPend(rows: Rows, t: Tuple)
    requires NoPendingDeletes(rows)
    ensures t in PendingTuples(rows) <==> PendingOn(rows, Write, t)
  {
    if PendingOn(rows, Write, t) {
      var id :| id in rows && rows[id].status == Pending && rows[id].operation == Write && rows[id].tuple == t;
    }
    if t in PendingTuples(rows) {
      var id :| id in rows && rows[id].status == Pending && rows[id].tuple == t;
      assert rows[id].operation == Write;
    }
  }

  /** Rows that are dead now were dead before. */
  ghost predicate NoNewDead(rows: Rows, rows': Rows) {
    forall id :: id in rows' && rows'[id].status == Dead ==> id in rows && rows[id].status == Dead
  }

  /** The run goes on without enqueues. */
  ghost predicate Quiet(run0: Run, run: Run) {
    && Prefixes(run0, run)
    && forall i :: |run0.actions| <= i < |run.actions| ==> !run.actions[i].Enqueue?
  }

  lemma QuietFurther(run0: Run, run1: Run, run2: Run)
    requires Quiet(run0, run1) && Quiet(run1, run2)
    ensures Quiet(run0, run2)
  {
    forall i | |run0.actions| <= i < |run2.actions| ensures !run2.actions[i].Enqueue? {
      assert i < |run1.actions| ==> run2.actions[i] == run1.actions[i];
    }
  }

  lemma QuietStep(run0: Run, run: Run, a: Action, s: State)
    requires Quiet(run0, run) && !a.Enqueue?
    ensures Quiet(run0, Extend(run, a, s))
  {
    forall i | |run0.actions| <= i < |run.actions| + 1 ensures !Extend(run, a, s).actions[i].Enqueue? {
      assert i < |run.actions| ==> Extend(run, a, s).actions[i] == run.actions[i];
    }
  }

  /** A claimed batch holds pending rows, costs nothing and misses no work. */
  ghost predicate Batched(max: int, rows: Rows, horizon: int, ids: seq<nat>, rows': Rows, store: set<Tuple>) {
    && (forall id :: id in ids ==> id in rows' && rows'[id].status == Pending)
    && (ids == [] ==> rows' == rows)
    && (AnyPending(rows) && ReadyBy(rows, horizon) ==> ids != [])
    && Total(max, rows') == Total(max, rows) && SameGoal(rows, store, rows', store) && NoNewDead(rows, rows')
  }

  lemma ClaimedBatch(max: int, rows: Rows, ids: seq<nat>, now: int, horizon: int, store: set<Tuple>)
    requires forall id :: id in ids ==> id in rows && Eligible(rows[id], now)
    requires ids == [] ==> forall id :: id in rows ==> !Eligible(rows[id], now)
    requires horizon <= now
    ensures Batched(max, rows, horizon, ids, Claimed(rows, AsSet(ids), now + LEASE), store)
  {
    LeasesAreFree(max, rows, AsSet(ids), now + LEASE);
    ClaimingKeepsGoal(rows, AsSet(ids), now + LEASE, store);
    if AnyPending(rows) && ReadyBy(rows, horizon) {
      var id :| id in rows && rows[id].status == Pending;
      assert Eligible(rows[id], now);
    }
  }

  lemma ClaimIsAStep(max: int, s: State, ids: seq<nat>, s': State)
    requires s.hand == [] && NoDuplicates(ids) && forall id :: id in ids ==> id in s.rows && Eligible(s.rows[id], s.clock)
    requires s' == s.(rows := Claimed(s.rows, AsSet(ids), s.clock + LEASE), hand := ids, phase := Idle)
    ensures Step(max, s, Claim(ids), s')
  {
  }

  lemma ApplyingKeepsGoal(rows: Rows, id: nat, store: set<Tuple>)
    requires id in rows && rows[id].status == Pending
    ensures SameGoal(rows, store, rows[id := MarkedApplied(rows[id])], ApplyOp(store, rows[id].operation, rows[id].tuple))
  {
    var rows', r := rows[id := MarkedApplied(rows[id])], rows[id];
    assert PendingOn(rows, r.operation, r.tuple);
    forall operation, t ensures PendingOn(rows', operation, t) ==> PendingOn(rows, operation, t) {
      if PendingOn(rows', operation, t) {
        var k :| k in rows' && rows'[k].status == Pending && rows'[k].operation == operation && rows'[k].tuple == t;
        assert k in rows && rows[k] == rows'[k];
      }
    }
    forall operation, t | t != r.tuple ensures PendingOn(rows', operation, t) <==> PendingOn(rows, operation, t) {
      OtherTuplesUntouched(rows, rows', id, t);
    }
  }

  /** What a stretch of work with a reliable store keeps. */
  ghost predicate Progresses(rows: Rows, store: set<Tuple>, rows': Rows, store': set<Tuple>) {
    SameGoal(rows, store, rows', store') && NoNewDead(rows, rows')
  }

  class Worker {
    const ledger: AuthzLedger
    const authz: TupleStore
    const batch: int
    const maxAttempts: int
    ghost var hand: seq<nat>
    ghost var phase: Phase

    constructor (ledger: AuthzLedger, authz: TupleStore, batch: int, maxAttempts: int)
      ensures this.ledger == ledger && this.authz == authz && this.batch == batch && this.maxAttempts == maxAttempts
      ensures hand == [] && phase == Idle
    {
      this.ledger, this.authz, this.batch, this.maxAttempts := ledger, authz, batch, maxAttempts;
      hand, phase := [], Idle;
    }

    ghost function View(): State
      reads this, ledger, authz
    {
      State(ledger.rows, authz.tuples, ledger.clock, hand, phase, ledger.log)
    }

    /** Between passes the worker holds nothing, and `run` is the run that led here. */
    ghost predicate Resting(run: Run)
      reads this, ledger, authz
    {
      ledger.Valid() && hand == [] && phase == Idle && run.Valid(maxAttempts) && run.Last() == View()
    }

    /** Sends one claimed row to the store and records the outcome. */
    method Finish(id: nat, op: Row, ghost run0: Run) returns (ghost run: Run, ok: bool)
      requires ledger.Valid() && run0.Valid(maxAttempts) && run0.Last() == View()
      requires hand != [] && hand[0] == id && phase == Idle
      requires id in ledger.rows && ledger.rows[id] == op && op.status == Pending
      modifies this, ledger, authz
      ensures ledger.Valid() && run.Valid(maxAttempts) && run.Last() == View() && Quiet(run0, run)
      ensures hand == old(hand)[1..] && phase == Idle && ledger.clock >= old(ledger.clock)
      ensures ledger.log == old(ledger.log)
      ensures authz.sent == old(authz.sent) + [(op.operation, op.tuple)]
      ensures authz.reliable ==> ok
      ensures ok ==> authz.tuples == ApplyOp(old(authz.tuples), op.operation, op.tuple)
      ensures ledger.rows == old(ledger.rows)[id := if ok then MarkedApplied(op) else Failed(maxAttempts, op, ledger.clock)]
    {
      run, ok := SendOne(op, run0);
      ghost var sent := run;
      run := TimePasses(run);
      QuietFurther(run0, sent, run);
      if !ok {
        var attempts := op.attempts + 1;
        var dead := attempts >= maxAttempts;
        var next := ledger.clock + BackoffSeconds(if attempts < 0 then 0 else attempts) * SECOND;
        var _ := ledger.MarkAuthzTupleFailed(id, attempts, next, dead);
      } else {
        var _ := ledger.MarkAuthzTupleApplied(id);
      }
      hand, phase := hand[1..], Idle;
      ExtendIsValid(maxAttempts, run, Mark, View());
      QuietStep(run0, run, Mark, View());
      run := Extend(run, Mark, View());
    }

    /** The call for the first row in hand. */
    method SendOne(op: Row, ghost run0: Run) returns (ghost run: Run, ok: bool)
      requires ledger.Valid() && run0.Valid(maxAttempts) && run0.Last() == View()
      requires hand != [] && phase == Idle && hand[0] in ledger.rows && ledger.rows[hand[0]] == op
      modifies this`phase, authz
      ensures run.Valid(maxAttempts) && run.Last() == View() && Quiet(run0, run)
      ensures phase == if ok then Succeeded else Erred
      ensures authz.sent == old(authz.sent) + [(op.operation, op.tuple)] && (authz.reliable ==> ok)
      ensures ok ==> authz.tuples == ApplyOp(old(authz.tuples), op.operation, op.tuple)
    {
      ok := authz.Send(op.operation, op.tuple);
      phase := if ok then Succeeded else Erred;
      ExtendIsValid(maxAttempts, run0, Apply(ok), View());
      QuietStep(run0, run0, Apply(ok), View());
      run := Extend(run0, Apply(ok), View());
    }

    /** One pass: claim a batch, then apply and mark its rows one by one.  Each writer call uses
        up work, and a pass makes a call whenever some pending row can be claimed. */
    method AuthzOnce(ghost run0: Run) returns (ghost run: Run)
      requires Resting(run0)
      modifies this, ledger, authz
      ensures Resting(run) && Quiet(run0, run) && ledger.log == old(ledger.log)
      ensures ledger.clock >= old(ledger.clock)
      ensures old(authz.sent) <= authz.sent
      ensures |authz.sent| - |old(authz.sent)| + Total(maxAttempts, ledger.rows) <= Total(maxAttempts, old(ledger.rows))
      ensures authz.sent == old(authz.sent) ==> ledger.rows == old(ledger.rows)
      ensures AnyPending(old(ledger.rows)) && ReadyBy(old(ledger.rows), old(ledger.clock)) ==> authz.sent != old(authz.sent)
      ensures authz.reliable ==> Progresses(old(ledger.rows), old(authz.tuples), ledger.rows, authz.tuples)
    {
      var ids;
      run, ids := ClaimBatch(run0);
      ghost var claimed, rows := run, ledger.rows;
      run := FinishAll(ids, run);
      QuietFurther(run0, claimed, run);
    }

    /** Claims a batch into the worker's hand; leases change no amount of work. */
    method ClaimBatch(ghost run0: Run) returns (ghost run: Run, ids: seq<nat>)
      requires Resting(run0)
      modifies this, ledger
      ensures ledger.Valid() && run.Valid(maxAttempts) && run.Last() == View() && Quiet(run0, run)
      ensures ledger.log == old(ledger.log)
      ensures hand == ids && phase == Idle && NoDuplicates(ids) && ledger.clock >= old(ledger.clock)
      ensures Batched(maxAttempts, old(ledger.rows), old(ledger.clock), ids, ledger.rows, authz.tuples)
    {
      ghost var rows, horizon := ledger.rows, ledger.clock;
      run := TimePasses(run0);
      ghost var run1 := run;
      run, ids := TakeBatch(run);
      QuietFurther(run0, run1, run);
      ClaimedBatch(maxAttempts, rows, ids, ledger.clock, horizon, authz.tuples);
    }

    /** The claim itself. */
    method TakeBatch(ghost run0: Run) returns (ghost run: Run, ids: seq<nat>)
      requires Resting(run0)
      modifies this, ledger`rows
      ensures ledger.Valid() && run.Valid(maxAttempts) && run.Last() == View() && Quiet(run0, run)
      ensures hand == ids && phase == Idle && NoDuplicates(ids)
      ensures forall id :: id in ids ==> id in old(ledger.rows) && Eligible(old(ledger.rows)[id], ledger.clock)
      ensures ids == [] ==> forall id :: id in old(ledger.rows) ==> !Eligible(old(ledger.rows)[id], ledger.clock)
      ensures ledger.rows == Claimed(old(ledger.rows), AsSet(ids), ledger.clock + LEASE)
    {
      ghost var resting := View();
      ids := ledger.ClaimAuthzTuples(batch, LEASE);
      hand := ids;
      ClaimIsAStep(maxAttempts, resting, ids, View());
      ExtendIsValid(maxAttempts, run0, Claim(ids), View());
      QuietStep(run0, run0, Claim(ids), View());
      run := Extend(run0, Claim(ids), View());
    }

    /** The worker reads the clock. */
    method TimePasses(ghost run0: Run) returns (ghost run: Run)
      requires run0.Valid(maxAttempts) && run0.Last() == View()
      modifies ledger`clock
      ensures run.Valid(maxAttempts) && run.Last() == View() && Quiet(run0, run) && ledger.clock >= old(ledger.clock)
    {
      ghost var before := ledger.clock;
      var now := ledger.Now();
      ExtendIsValid(maxAttempts, run0, Tick(now - before), View());
      QuietStep(run0, run0, Tick(now - before), View());
      run := Extend(run0, Tick(now - before), View());
    }

    /** Finishes the whole hand, one writer call a row. */
    method FinishAll(ids: seq<nat>, ghost run0: Run) returns (ghost run: Run)
      requires ledger.Valid() && run0.Valid(maxAttempts) && run0.Last() == View()
      requires hand == ids && phase == Idle && NoDuplicates(ids)
      requires forall id :: id in ids ==> id in ledger.rows && ledger.rows[id].status == Pending
      modifies this, ledger, authz
      ensures Resting(run) && Quiet(run0, run) && ledger.log == old(ledger.log)
      ensures ledger.clock >= old(ledger.clock)
      ensures old(authz.sent) <= authz.sent && |authz.sent| == |old(authz.sent)| + |ids|
      ensures |ids| + Total(maxAttempts, ledger.rows) <= Total(maxAttempts, old(ledger.rows))
      ensures ids == [] ==> ledger.rows == old(ledger.rows)
      ensures authz.reliable ==> Progresses(old(ledger.rows), old(authz.tuples), ledger.rows, authz.tuples)
    {
      var ops := ledger.rows;
      run := run0;
      for i := 0 to |ids|
        invariant ledger.Valid() && run.Valid(maxAttempts) && run.Last() == View() && Quiet(run0, run)
        invariant hand == ids[i..] && phase == Idle && ledger.clock >= old(ledger.clock)
        invariant ledger.log == old(ledger.log) && (i == 0 ==> ledger.rows == ops)
        invariant forall j :: i <= j < |ids| ==> ids[j] in ledger.rows && ledger.rows[ids[j]] == ops[ids[j]]
        invariant old(authz.sent) <= authz.sent && |authz.sent| == |old(authz.sent)| + i
        invariant i + Total(maxAttempts, ledger.rows) <= Total(maxAttempts, ops)
        invariant authz.reliable ==> Progresses(ops, old(authz.tuples), ledger.rows, authz.tuples)
      {
        ghost var rows, store, run1 := ledger.rows, authz.tuples, run;
        var ok;
        run, ok := Finish(ids[i], ops[ids[i]], run);
        QuietFurther(run0, run1, run);
        FinishingCostsOne(maxAttempts, rows, ids[i], ok, ledger.clock);
        if ok {
          ApplyingKeepsGoal(rows, ids[i], store);
        }
      }
    }

    /** Runs passes until nothing is pending.  It ends under every pattern of writer failures, and
        never makes more writer calls than the pending rows had attempts left. */
    method DrainAuthz(ghost run0: Run) returns (ghost run: Run)
      requires Resting(run0)
      modifies this, ledger, authz
      ensures Resting(run) && Quiet(run0, run) && ledger.log == old(ledger.log)
      ensures !AnyPending(ledger.rows)
      ensures old(authz.sent) <= authz.sent
      ensures |authz.sent| - |old(authz.sent)| + Total(maxAttempts, ledger.rows) <= Total(maxAttempts, old(ledger.rows))
      ensures authz.reliable ==> forall t :: !Opposed(old(ledger.rows), t) ==>
                (t in authz.tuples <==> Intended(old(ledger.rows), old(authz.tuples), t))
      ensures authz.reliable && NoDead(old(ledger.rows)) ==> Settled(View())
      ensures authz.reliable && NoPendingDeletes(old(ledger.rows)) ==>
                authz.tuples == old(authz.tuples) + PendingTuples(old(ledger.rows))
    {
      run := run0;
      ghost var horizon := SomeHorizon(ledger.rows);
      while true
        invariant Resting(run) && Quiet(run0, run) && ledger.log == old(ledger.log)
        invariant ReadyBy(ledger.rows, horizon)
        invariant old(authz.sent) <= authz.sent
        invariant |authz.sent| - |old(authz.sent)| + Total(maxAttempts, ledger.rows) <= Total(maxAttempts, old(ledger.rows))
        invariant authz.reliable ==> Progresses(old(ledger.rows), old(authz.tuples), ledger.rows, authz.tuples)
        decreases Total(maxAttempts, ledger.rows), horizon - ledger.clock
      {
        var pending, _ := ledger.CountAuthzTuplePending("");
        if pending == 0 {
          assert forall id :: id in ledger.rows && ledger.rows[id].status == Pending ==> id in RowsWith(ledger.rows, "", Pending);
          if authz.reliable {
            DrainedStore(old(ledger.rows), old(authz.tuples), ledger.rows, authz.tuples);
          }
          return;
        }
        ghost var sent, clock, run1 := authz.sent, ledger.clock, run;
        run := AuthzOnce(run);
        QuietFurther(run0, run1, run);
        if authz.sent != sent {
          assert |authz.sent| > |sent|;
          horizon := SomeHorizon(ledger.rows);
        } else {
          assert clock < horizon;
        }
        run1 := run;
        run := WaitForPoll(run);
        QuietFurther(run0, run1, run);
      }
    }

    /** The poll interval passes. */
    method WaitForPoll(ghost run0: Run) returns (ghost run: Run)
      requires Resting(run0)
      modifies ledger`clock
      ensures Resting(run) && Quiet(run0, run) && ledger.clock == old(ledger.clock) + POLL_INTERVAL
    {
      ghost var elapsed := POLL_INTERVAL;
      ledger.clock := ledger.clock + POLL_INTERVAL;
      ExtendIsValid(maxAttempts, run0, Tick(elapsed), View());
      QuietStep(run0, run0, Tick(elapsed), View());
      run := Extend(run0, Tick(elapsed), View());
    }

    /** Re-enqueues the inheritance writes that live synchronized edges still lack.  With an
        inspector it looks at the tuple store, without one only at the outbox. */
    method ReconcileOnce(graph: EdgeStore, inspector: bool, ghost run0: Run) returns (ghost run: Run)
      requires Resting(run0) && graph.Valid()
      modifies ledger
      ensures Resting(run) && run.states[0] == run0.states[0]
      ensures NoPendingDeletes(old(ledger.rows)) ==> NoPendingDeletes(ledger.rows)
      ensures |Synchronized(graph.edges)| <= 200 ==> AllSecured(Synchronized(graph.edges), ledger.rows, authz.tuples, inspector)
      ensures AllSecured(Synchronized(graph.edges), old(ledger.rows), authz.tuples, inspector) ==>
                ledger.rows == old(ledger.rows) && ledger.log == old(ledger.log)
      ensures PendingTuples(old(ledger.rows)) <= PendingTuples(ledger.rows) <= PendingTuples(old(ledger.rows)) + Inherited(graph.edges)
      ensures old(ledger.log) <= ledger.log && forall op :: op in ledger.log[|old(ledger.log)|..] ==> op.0 == Write && op.1 in Inherited(graph.edges)
    {
      var edges := graph.ListActiveParentEdges("", 200);
      ghost var all := Synchronized(graph.edges);
      assert SynchronizedIn(graph.edges, "") == all;
      forall i | 0 <= i < |edges| ensures edges[i] in all && NeedsSynchronization(edges[i]) && edges[i].orgID != "" {
        assert edges[i] in edges;
      }
      run := ReconcileEdges(edges, inspector, run0);
    }

    /** The loop of a pass. */
    method ReconcileEdges(edges: seq<GraphEdge>, inspector: bool, ghost run0: Run) returns (ghost run: Run)
      requires Resting(run0) && forall i :: 0 <= i < |edges| ==> NeedsSynchronization(edges[i]) && edges[i].orgID != ""
      modifies ledger
      ensures Resting(run) && run.states[0] == run0.states[0]
      ensures NoPendingDeletes(old(ledger.rows)) ==> NoPendingDeletes(ledger.rows)
      ensures forall e :: e in edges ==> Secured(e, ledger.rows, authz.tuples, inspector)
      ensures (forall e :: e in edges ==> Secured(e, old(ledger.rows), authz.tuples, inspector)) ==>
                ledger.rows == old(ledger.rows) && ledger.log == old(ledger.log)
      ensures OnlyInheritance(edges, old(ledger.rows), old(ledger.log), ledger.rows, ledger.log)
    {
      run := run0;
      ghost var rows, log := ledger.rows, ledger.log;
      ghost var idle := forall e :: e in edges ==> Secured(e, rows, authz.tuples, inspector);
      for i := 0 to |edges|
        invariant Resting(run) && run.states[0] == run0.states[0]
        invariant NoPendingDeletes(rows) ==> NoPendingDeletes(ledger.rows)
        invariant forall k :: 0 <= k < i ==> Secured(edges[k], ledger.rows, authz.tuples, inspector)
        invariant idle ==> ledger.rows == rows && ledger.log == log
        invariant OnlyInheritance(edges[..i], rows, log, ledger.rows, ledger.log)
      {
        ghost var rows1, log1 := ledger.rows, ledger.log;
        run := ReconcileEdge(edges[i], run, inspector);
        InheritanceAdds(edges[..i], edges[i], rows, log, rows1, log1, ledger.rows, ledger.log);
        assert edges[..i + 1] == edges[..i] + [edges[i]];
      }
      assert edges[..|edges|] == edges;
    }

    /** One edge of a pass: what it lacks is enqueued. */
    method ReconcileEdge(e: GraphEdge, ghost run0: Run, inspector: bool) returns (ghost run: Run)
      requires Resting(run0) && NeedsSynchronization(e) && e.orgID != ""
      modifies ledger
      ensures Resting(run) && run.states[0] == run0.states[0]
      ensures NoPendingDeletes(old(ledger.rows)) ==> NoPendingDeletes(ledger.rows)
      ensures Secured(e, ledger.rows, authz.tuples, inspector)
      ensures forall x :: Secured(x, old(ledger.rows), authz.tuples, inspector) ==> Secured(x, ledger.rows, authz.tuples, inspector)
      ensures Secured(e, old(ledger.rows), authz.tuples, inspector) ==> ledger.rows == old(ledger.rows) && ledger.log == old(ledger.log)
      ensures OnlyInheritance([e], old(ledger.rows), old(ledger.log), ledger.rows, ledger.log)
    {
      run := run0;
      var missing := Lacks(e, inspector);
      if missing {
        run := EnqueueWrite(e, run, inspector);
      }
    }

    /** The reconciler's test: no pending write, and no tuple (or, without an inspector, no applied row). */
    method Lacks(e: GraphEdge, inspector: bool) returns (missing: bool)
      requires e.orgID != ""
      ensures missing <==> !Secured(e, ledger.rows, authz.tuples, inspector)
    {
      var pending := ledger.HasAuthzTuplePending(e.orgID, Write, InheritanceTuple(e));
      if pending {
        return false;
      }
      if inspector {
        missing := InheritanceTuple(e) !in authz.tuples;
      } else {
        var covered := ledger.HasAuthzTupleCoverage(e.orgID, Write, InheritanceTuple(e));
        missing := !covered;
      }
    }

    /** Enqueues one edge's write; whatever was secured stays secured. */
    method EnqueueWrite(e: GraphEdge, ghost run0: Run, ghost inspector: bool) returns (ghost run: Run)
      requires Resting(run0) && NeedsSynchronization(e) && e.orgID != ""
      modifies ledger
      ensures Resting(run) && run.states[0] == run0.states[0]
      ensures NoPendingDeletes(old(ledger.rows)) ==> NoPendingDeletes(ledger.rows)
      ensures Secured(e, ledger.rows, authz.tuples, inspector)
      ensures forall x :: Secured(x, old(ledger.rows), authz.tuples, inspector) ==> Secured(x, ledger.rows, authz.tuples, inspector)
      ensures PendingTuples(ledger.rows) == PendingTuples(old(ledger.rows)) + {InheritanceTuple(e)}
      ensures ledger.log == old(ledger.log) + [(Write, InheritanceTuple(e))]
    {
      ghost var id := EnqueueForEdge(ledger, e, Write);
      ghost var action := Enqueue(id, e.orgID, Write, InheritanceTuple(e), e.edgeID);
      ExtendIsValid(maxAttempts, run0, action, View());
      run := Extend(run0, action, View());
      ghost var k := EnqueueTouchesOneRow(run0.Last(), View(), id, e.orgID, Write, InheritanceTuple(e), e.edgeID);
      forall x | Secured(x, old(ledger.rows), authz.tuples, inspector) ensures Secured(x, ledger.rows, authz.tuples, inspector) {
        SecuredSurvives(x, old(ledger.rows), ledger.rows, k, authz.tuples, inspector);
      }
      OneMorePending(old(ledger.rows), ledger.rows, k);
    }

    /** The repair cycle: after a reconcile and a drain every synchronized edge has its tuple,
        whatever was lost before, and a second reconcile finds nothing to do. */
    method Repair(graph: EdgeStore, ghost run0: Run) returns (ghost run: Run, ghost drained: Rows)
      requires Resting(run0) && graph.Valid()
      requires authz.reliable && NoPendingDeletes(ledger.rows) && |Synchronized(graph.edges)| <= 200
      modifies this, ledger, authz
      ensures Resting(run) && run.states[0] == run0.states[0]
      ensures authz.tuples == old(authz.tuples) + old(PendingTuples(ledger.rows)) + Inherited(graph.edges)
      ensures !AnyPending(drained) && ledger.rows == drained
    {
      run := ReconcileOnce(graph, true, run0);
      ghost var rows, store := ledger.rows, authz.tuples;
      run := DrainAuthz(run);
      RepairedStore(graph.edges, old(ledger.rows), rows, store, ledger.rows, authz.tuples);
      drained := ledger.rows;
      run := ReconcileOnce(graph, true, run);
    }
  }

  function InheritanceTuple(e: GraphEdge): Tuple {
    Tuple(ResourceObject(e.fromID), EDGE_PARENT, ResourceObject(e.toID))
  }

  /** The inheritance that all live synchronized edges ask for. */
  function Inherited(edges: map<string, EdgeMap>): set<Tuple> {
    set e | e in Synchronized(edges) :: InheritanceTuple(e)
  }

  /** Nothing but writes of these edges' tuples is added to the outbox. */
  ghost predicate OnlyInheritance(edges: seq<GraphEdge>, rows: Rows, log: seq<(Operation, Tuple)>, rows': Rows, log': seq<(Operation, Tuple)>) {
    && PendingTuples(rows) <= PendingTuples(rows') && log <= log'
    && (forall t :: t in PendingTuples(rows') ==> t in PendingTuples(rows) || AsksFor(edges, t))
    && (forall op :: op in log'[|log|..] ==> op.0 == Write && AsksFor(edges, op.1))
  }

  ghost predicate AsksFor(edges: seq<GraphEdge>, t: Tuple) {
    exists e :: e in edges && InheritanceTuple(e) == t
  }

  lemma InheritanceAdds(edges: seq<GraphEdge>, e: GraphEdge, rows: Rows, log: seq<(Operation, Tuple)>, rows1: Rows, log1: seq<(Operation, Tuple)>,
                        rows2: Rows, log2: seq<(Operation, Tuple)>)
    requires OnlyInheritance(edges, rows, log, rows1, log1) && OnlyInheritance([e], rows1, log1, rows2, log2)
    ensures OnlyInheritance(edges + [e], rows, log, rows2, log2)
  {
    forall t ensures AsksFor(edges + [e], t) <==> AsksFor(edges, t) || AsksFor([e], t) {
      assert forall x :: x in edges + [e] <==> x in edges || x in [e];
    }
    assert log2[|log|..] == log1[|log|..] + log2[|log1|..];
  }

  /** The edge's write is on its way, or already done as far as the reconciler can see. */
  ghost predicate Secured(e: GraphEdge, rows: Rows, store: set<Tuple>, inspector: bool) {
    || PendingRequest(rows, e.orgID, Write, InheritanceTuple(e))
    || if inspector then InheritanceTuple(e) in store
       else exists id :: id in rows && rows[id].status != Dead && SameRequest(rows[id], e.orgID, Write, InheritanceTuple(e))
  }

  ghost predicate AllSecured(edges: set<GraphEdge>, rows: Rows, store: set<Tuple>, inspector: bool) {
    forall e :: e in edges ==> Secured(e, rows, store, inspector)
  }

  /** What is secured is in the store once everything pending is. */
  lemma SecuredIsStored(edges: map<string, EdgeMap>, rows: Rows, store: set<Tuple>)
    requires AllSecured(Synchronized(edges), rows, store, true)
    ensures Inherited(edges) <= store + PendingTuples(rows)
  {
    forall e | e in Synchronized(edges) ensures InheritanceTuple(e) in store + PendingTuples(rows) {
      assert Secured(e, rows, store, true);
      if InheritanceTuple(e) !in store {
        var id :| id in rows && rows[id].status == Pending && SameRequest(rows[id], e.orgID, Write, InheritanceTuple(e));
        assert rows[id].tuple in PendingTuples(rows);
      }
    }
  }

  lemma Repaired(edges: map<string, EdgeMap>, rows: Rows, store: set<Tuple>)
    requires Inherited(edges) <= store
    ensures AllSecured(Synchronized(edges), rows, store, true)
  {
    forall e | e in Synchronized(edges) ensures InheritanceTuple(e) in store {
      assert InheritanceTuple(e) in Inherited(edges);
    }
  }

  lemma RepairedStore(edges: map<string, EdgeMap>, rows0: Rows, rows: Rows, store: set<Tuple>, rows': Rows, store': set<Tuple>)
    requires AllSecured(Synchronized(edges), rows, store, true) && store' == store + PendingTuples(rows)
    requires PendingTuples(rows0) <= PendingTuples(rows) <= PendingTuples(rows0) + Inherited(edges)
    ensures store' == store + PendingTuples(rows0) + Inherited(edges)
    ensures AllSecured(Synchronized(edges), rows', store', true)
  {
    SecuredIsStored(edges, rows, store);
    Repaired(edges, rows', store');
  }

  lemma SecuredSurvives(x: GraphEdge, rows: Rows, rows': Rows, k: nat, store: set<Tuple>, inspector: bool)
    requires k in rows' && rows' == rows[k := rows'[k]] && rows'[k].status == Pending
    requires k in rows ==> rows[k].status == Pending && SameRequest(rows'[k], rows[k].orgID, rows[k].operation, rows[k].tuple)
    requires Secured(x, rows, store, inspector)
    ensures Secured(x, rows', store, inspector)
  {
    forall id | id in rows
      ensures id in rows' && rows'[id].status == rows[id].status
      ensures SameRequest(rows'[id], rows[id].orgID, rows[id].operation, rows[id].tuple)
    {
    }
  }

  /** Records the inheritance work of an edge; edges that do not ask for it leave no trace. */
  method EnqueueForEdge(ledger: AuthzLedger, e: GraphEdge, operation: Operation) returns (ghost id: nat)
    requires ledger.Valid()
    modifies ledger`rows, ledger`nextID, ledger`log
    ensures ledger.Valid()
    ensures !NeedsSynchronization(e) || e.orgID == "" ==> ledger.rows == old(ledger.rows) && ledger.log == old(ledger.log)
    ensures NeedsSynchronization(e) && e.orgID != "" ==>
              && Enqueued(old(ledger.rows), ledger.rows, id, e.orgID, operation, InheritanceTuple(e), e.edgeID, ledger.clock)
              && ledger.log == old(ledger.log) + [(operation, InheritanceTuple(e))]
  {
    id := 0;
    if NeedsSynchronization(e) {
      var ok;
      ok, id := ledger.EnqueueAuthzTuple(e.orgID, operation, InheritanceTuple(e), e.edgeID);
    }
  }

  /** The work that an edge asks for. */
  function WorkOf(e: GraphEdge, operation: Operation): (work: seq<(Operation, Tuple)>) {
    if NeedsSynchronization(e) then [(operation, InheritanceTuple(e))] else []
  }

  /** `run` led to what the outbox table holds. */
  ghost predicate LedBy(max: int, run: Run, ledger: AuthzLedger)
    reads ledger
  {
    && ledger.Valid() && run.Valid(max)
    && run.Last().rows == ledger.rows && run.Last().log == ledger.log && run.Last().clock == ledger.clock
  }

  /** An enqueue as a stretch of a run. */
  method EnqueueWork(ledger: AuthzLedger, orgID: string, operation: Operation, tuple: Tuple, edgeID: string, ghost max: int, ghost run0: Run)
    returns (ghost run: Run)
    requires LedBy(max, run0, ledger)
    requires orgID != "" && tuple.obj != "" && tuple.relation != "" && tuple.subject != ""
    modifies ledger`rows, ledger`nextID, ledger`log
    ensures LedBy(max, run, ledger) && Continues(max, orgID, run0, run, ledger.rows, ledger.log)
    ensures ledger.log == old(ledger.log) + [(operation, tuple)]
  {
    ghost var ok, id := ledger.EnqueueAuthzTuple(orgID, operation, tuple, edgeID);
    run := EnqueueContinues(max, run0, id, orgID, operation, tuple, edgeID, ledger.rows);
  }

  /** An edge's work as a stretch of a run. */
  method EnqueueEdgeWork(ledger: AuthzLedger, e: GraphEdge, operation: Operation, ghost max: int, ghost run0: Run) returns (ghost run: Run)
    requires LedBy(max, run0, ledger) && e.orgID != ""
    modifies ledger`rows, ledger`nextID, ledger`log
    ensures LedBy(max, run, ledger) && Continues(max, e.orgID, run0, run, ledger.rows, ledger.log)
    ensures ledger.log == old(ledger.log) + WorkOf(e, operation)
  {
    ghost var id := EnqueueForEdge(ledger, e, operation);
    run := run0;
    if NeedsSynchronization(e) {
      run := EnqueueContinues(max, run0, id, e.orgID, operation, InheritanceTuple(e), e.edgeID, ledger.rows);
    }
  }

  function Requested(log: seq<(Operation, Tuple)>): set<Tuple> {
    set op | op in log :: op.1
  }

  predicate OnlyWrites(work: seq<(Operation, Tuple)>) {
    forall op :: op in work ==> op.0 == Write
  }

  /** What enqueueing writes does to the table: the new tuples are pending, and no delete is. */
  ghost predicate OnlyWritesAdded(rows: Rows, rows': Rows, added: set<Tuple>) {
    && PendingTuples(rows') == PendingTuples(rows) + added
    && (NoPendingDeletes(rows) ==> NoPendingDeletes(rows'))
  }

  lemma PendingEitherWay(rows: Rows, t: Tuple)
    ensures t in PendingTuples(rows) <==> PendingOn(rows, Write, t) || PendingOn(rows, Delete, t)
  {
    if t in PendingTuples(rows) {
      var id :| id in rows && rows[id].status == Pending && rows[id].tuple == t;
      assert PendingOn(rows, rows[id].operation, t);
    }
    forall operation ensures PendingOn(rows, operation, t) ==> t in PendingTuples(rows) {
      if PendingOn(rows, operation, t) {
        var id :| id in rows && rows[id].status == Pending && rows[id].operation == operation && rows[id].tuple == t;
      }
    }
  }

  lemma GainedTuples(rows: Rows, rows': Rows, work: seq<(Operation, Tuple)>)
    requires Gains(rows, rows', work)
    ensures PendingTuples(rows') == PendingTuples(rows) + Requested(work)
    ensures OnlyWrites(work) ==> OnlyWritesAdded(rows, rows', Requested(work))
  {
    forall t ensures t in PendingTuples(rows') <==> t in PendingTuples(rows) + Requested(work) {
      PendingEitherWay(rows, t);
      PendingEitherWay(rows', t);
      assert t in Requested(work) <==> (Write, t) in work || (Delete, t) in work by {
        if t in Requested(work) {
          var op :| op in work && op.1 == t;
          assert op == (op.0, t);
        }
      }
    }
    if OnlyWrites(work) && NoPendingDeletes(rows) {
      forall id | id in rows' && rows'[id].status == Pending ensures rows'[id].operation == Write {
        assert PendingOn(rows', rows'[id].operation, rows'[id].tuple);
        assert !PendingOn(rows, Delete, rows'[id].tuple);
      }
    }
  }

  /** What a stretch of enqueues has done to table and history: its work, under its operations, waits
      for the organization, and nothing else is new. */
  ghost predicate Queued(orgID: string, rows: Rows, log: seq<(Operation, Tuple)>, rows': Rows, log': seq<(Operation, Tuple)>, work: seq<(Operation, Tuple)>) {
    && log' == log + work && Gains(rows, rows', work) && Waits(rows', orgID, work)
    && (OnlyWrites(work) ==> OnlyWritesAdded(rows, rows', Requested(work)))
  }

  lemma StretchQueues(max: int, orgID: string, run0: Run, run: Run, rows: Rows, log: seq<(Operation, Tuple)>,
                      rows': Rows, log': seq<(Operation, Tuple)>, work: seq<(Operation, Tuple)>)
    requires Continues(max, orgID, run0, run, rows', log') && run0.Last().rows == rows && run0.Last().log == log && log' == log + work
    ensures Queued(orgID, rows, log, rows', log', work)
  {
    ContinuesGains(max, orgID, run0, run, rows', log');
    assert log'[|log|..] == work;
    GainedTuples(rows, rows', work);
  }
}
