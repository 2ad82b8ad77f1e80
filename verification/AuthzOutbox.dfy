/** The durable authorization-tuple outbox as a step machine: enqueues, a worker that claims,
    applies and marks rows, failures, crashes between any two of those steps, and a clock. */
module AuthzOutbox {
  import opened Ports
  import opened Relationships

  datatype Operation = Write | Delete

  datatype Status = Pending | Applied | Dead

  datatype Row = Row(orgID: string, operation: Operation, tuple: Tuple, edgeID: string,
                     status: Status, attempts: int, nextAttempt: int, leaseUntil: Option<int>)

  /** Row ids stand for the source's fresh UUIDs. */
  type Rows = map<nat, Row>

  const LEASE: nat := 30 * SECOND

  /* ---------- the ledger's operations on rows ---------- */

  predicate SameRequest(r: Row, orgID: string, operation: Operation, tuple: Tuple) {
    r.orgID == orgID && r.operation == operation && r.tuple == tuple
  }

  ghost predicate PendingRequest(rows: Rows, orgID: string, operation: Operation, tuple: Tuple) {
    exists id :: id in rows && rows[id].status == Pending && SameRequest(rows[id], orgID, operation, tuple)
  }

  ghost predicate PendingOn(rows: Rows, operation: Operation, tuple: Tuple) {
    exists id :: id in rows && rows[id].status == Pending && rows[id].operation == operation && rows[id].tuple == tuple
  }

  function NewRow(orgID: string, operation: Operation, tuple: Tuple, edgeID: string, now: int): Row {
    Row(orgID, operation, tuple, edgeID, Pending, 0, now, None)
  }

  /** A pending row with the same request absorbs the enqueue; otherwise a fresh row is added. */
  ghost predicate Enqueued(rows: Rows, rows': Rows, id: nat, orgID: string, operation: Operation, tuple: Tuple, edgeID: string, now: int) {
    if PendingRequest(rows, orgID, operation, tuple) then
      exists k :: k in rows && rows[k].status == Pending && SameRequest(rows[k], orgID, operation, tuple)
                  && rows' == rows[k := rows[k].(edgeID := edgeID)]
    else
      id !in rows && rows' == rows[id := NewRow(orgID, operation, tuple, edgeID, now)]
  }

  predicate Eligible(r: Row, now: int) {
    && r.status == Pending
    && (r.leaseUntil.Some? ==> r.leaseUntil.value <= now)
    && r.nextAttempt <= now
  }

  function AsSet(ids: seq<nat>): set<nat> {
    set id | id in ids
  }

  function Claimed(rows: Rows, ids: set<nat>, until: int): Rows {
    map id | id in rows :: if id in ids then rows[id].(leaseUntil := Some(until)) else rows[id]
  }

  function MarkedApplied(r: Row): Row {
    r.(status := Applied, leaseUntil := None)
  }

  function MarkedFailed(r: Row, attempts: int, next: int, dead: bool): Row {
    r.(attempts := attempts, nextAttempt := next, leaseUntil := None, status := if dead then Dead else r.status)
  }

  function ApplyOp(store: set<Tuple>, operation: Operation, tuple: Tuple): set<Tuple> {
    match operation
    case Write => store + {tuple}
    case Delete => store - {tuple}
  }

  /* ---------- the step machine ---------- */

  datatype Phase = Idle | Succeeded | Erred

  /** hand holds the claimed rows the worker still has to finish, first one first; phase tells
      whether the first has been sent to the tuple store.  log is the history of enqueues. */
  datatype State = State(rows: Rows, store: set<Tuple>, clock: int, hand: seq<nat>, phase: Phase,
                         log: seq<(Operation, Tuple)>)

  datatype Action =
    | Enqueue(id: nat, orgID: string, operation: Operation, tuple: Tuple, edgeID: string)
    | Tick(elapsed: nat)
    | Claim(ids: seq<nat>)
    | Apply(ok: bool)
    | Mark
    | LoseMark
    | Crash

  predicate NoDuplicates(ids: seq<nat>) {
    forall i, j :: 0 <= i < j < |ids| ==> ids[i] != ids[j]
  }

  ghost predicate Step(max: int, s: State, a: Action, s': State) {
    match a
    case Enqueue(id, orgID, operation, tuple, edgeID) =>
      && Enqueued(s.rows, s'.rows, id, orgID, operation, tuple, edgeID, s.clock)
      && s' == s.(rows := s'.rows, log := s.log + [(operation, tuple)])
    case Tick(elapsed) => s' == s.(clock := s.clock + elapsed)
    case Claim(ids) =>
      && s.hand == [] && NoDuplicates(ids)
      && (forall id :: id in ids ==> id in s.rows && Eligible(s.rows[id], s.clock))
      && s' == s.(rows := Claimed(s.rows, AsSet(ids), s.clock + LEASE), hand := ids, phase := Idle)
    case Apply(ok) =>
      && s.hand != [] && s.phase == Idle && s.hand[0] in s.rows
      && var r := s.rows[s.hand[0]];
         // a failed call may or may not have reached the store
         && (s'.store == ApplyOp(s.store, r.operation, r.tuple) || (!ok && s'.store == s.store))
         && s' == s.(store := s'.store, phase := if ok then Succeeded else Erred)
    case Mark =>
      && s.hand != [] && s.phase != Idle && s.hand[0] in s.rows
      && var id := s.hand[0];
         var r := s.rows[id];
         s' == s.(rows := s.rows[id := if s.phase == Succeeded then MarkedApplied(r) else Failed(max, r, s.clock)],
                  hand := s.hand[1..], phase := Idle)
    case LoseMark => s.hand != [] && s.phase != Idle && s' == s.(hand := s.hand[1..], phase := Idle)
    case Crash => s' == s.(hand := [], phase := Idle)
  }

  /** What the worker records after a failed attempt. */
  function Failed(max: int, r: Row, now: int): Row {
    var attempts := r.attempts + 1;
    MarkedFailed(r, attempts, now + BackoffSeconds(if attempts < 0 then 0 else attempts) * SECOND, attempts >= max)
  }

  datatype Run = Run(states: seq<State>, actions: seq<Action>)
  {
    ghost predicate Valid(max: int) {
      && |states| == |actions| + 1
      && forall i :: 0 <= i < |actions| ==> Step(max, states[i], actions[i], states[i + 1])
    }

    function Last(): State
      requires |states| > 0
    {
      states[|states| - 1]
    }
  }

  ghost predicate Initial(s: State) {
    s.rows == map[] && s.hand == [] && s.phase == Idle && s.log == []
  }

  /* ---------- invariants of every run ---------- */

  ghost predicate HandIsPending(s: State) {
    && NoDuplicates(s.hand)
    && forall id :: id in s.hand ==> id in s.rows && s.rows[id].status == Pending
  }

  ghost predicate AttemptsBelow(max: int, s: State) {
    forall id :: id in s.rows ==> 0 <= s.rows[id].attempts && (s.rows[id].status == Pending ==> s.rows[id].attempts < max)
  }

  /** At most one pending row per organization, operation and tuple. */
  ghost predicate NoTwins(s: State) {
    forall i, j | i in s.rows && j in s.rows && s.rows[i].status == Pending && s.rows[j].status == Pending ::
      SameRequest(s.rows[i], s.rows[j].orgID, s.rows[j].operation, s.rows[j].tuple) ==> i == j
  }

  ghost predicate Healthy(max: int, s: State) {
    HandIsPending(s) && AttemptsBelow(max, s) && NoTwins(s)
  }

  /** Rows stay, keep their request, and never return from applied or dead to pending. */
  ghost predicate RowsPersist(rows: Rows, rows': Rows) {
    forall id :: id in rows ==>
      && id in rows'
      && SameRequest(rows'[id], rows[id].orgID, rows[id].operation, rows[id].tuple)
      && (rows[id].status != Pending ==> rows'[id].status == rows[id].status)
  }

  lemma StepKeepsHealthy(max: int, s: State, a: Action, s': State)
    requires max >= 1 && Healthy(max, s) && Step(max, s, a, s')
    ensures Healthy(max, s') && RowsPersist(s.rows, s'.rows)
  {
    StepKeepsRows(max, s, a, s');
    StepKeepsNoTwins(max, s, a, s');
  }

  lemma StepKeepsRows(max: int, s: State, a: Action, s': State)
    requires max >= 1 && HandIsPending(s) && AttemptsBelow(max, s) && Step(max, s, a, s')
    ensures HandIsPending(s') && AttemptsBelow(max, s') && RowsPersist(s.rows, s'.rows)
  {
    StepKeepsHand(max, s, a, s');
    StepKeepsAttempts(max, s, a, s');
    StepPersists(max, s, a, s');
  }

  lemma StepKeepsHand(max: int, s: State, a: Action, s': State)
    requires HandIsPending(s) && Step(max, s, a, s')
    ensures HandIsPending(s')
  {
    if a.Mark? {
      assert s.hand[0] !in s.hand[1..];
    }
  }

  lemma StepKeepsAttempts(max: int, s: State, a: Action, s': State)
    requires max >= 1 && HandIsPending(s) && AttemptsBelow(max, s) && Step(max, s, a, s')
    ensures AttemptsBelow(max, s')
  {
  }

  lemma StepPersists(max: int, s: State, a: Action, s': State)
    requires HandIsPending(s) && Step(max, s, a, s')
    ensures RowsPersist(s.rows, s'.rows)
  {
  }

  lemma PersistenceAdds(rows: Rows, rows1: Rows, rows2: Rows)
    requires RowsPersist(rows, rows1) && RowsPersist(rows1, rows2)
    ensures RowsPersist(rows, rows2)
  {
  }

  lemma StepKeepsNoTwins(max: int, s: State, a: Action, s': State)
    requires HandIsPending(s) && NoTwins(s) && Step(max, s, a, s')
    ensures NoTwins(s')
  {
  }

  lemma {:induction false} RunKeepsHealthy(max: int, run: Run)
    requires max >= 1 && run.Valid(max) && Initial(run.states[0])
    ensures Healthy(max, run.Last())
    decreases |run.actions|
  {
    if run.actions != [] {
      var n := |run.actions|;
      RunKeepsHealthy(max, Run(run.states[..n], run.actions[..n - 1]));
      StepKeepsHealthy(max, run.states[n - 1], run.actions[n - 1], run.states[n]);
    }
  }

  /** From any state of a run on, no row vanishes, changes its request or comes back. */
  lemma {:induction false} RowsPersistAlongRun(max: int, run: Run, i: nat)
    requires max >= 1 && run.Valid(max) && Initial(run.states[0]) && i < |run.states|
    ensures RowsPersist(run.states[i].rows, run.Last().rows)
    decreases |run.actions|
  {
    var n := |run.actions|;
    if i < n {
      var shorter := Run(run.states[..n], run.actions[..n - 1]);
      RunKeepsHealthy(max, shorter);
      RowsPersistAlongRun(max, shorter, i);
      StepPersists(max, run.states[n - 1], run.actions[n - 1], run.states[n]);
      PersistenceAdds(run.states[i].rows, run.states[n - 1].rows, run.states[n].rows);
    }
  }

  /* ---------- at least once refines exactly once ---------- */

  /** Applying a history of enqueues once each, in order. */
  function Replay(store: set<Tuple>, log: seq<(Operation, Tuple)>): set<Tuple> {
    if log == [] then store
    else
      var (operation, tuple) := log[|log| - 1];
      ApplyOp(Replay(store, log[..|log| - 1]), operation, tuple)
  }

  /** No write and delete of one tuple are pending together after this action. */
  ghost predicate Unopposed(s: State, a: Action) {
    a.Enqueue? ==> !PendingOn(s.rows, if a.operation == Write then Delete else Write, a.tuple)
  }

  ghost predicate DeadOn(rows: Rows, tuple: Tuple) {
    exists id :: id in rows && rows[id].status == Dead && rows[id].tuple == tuple
  }

  /** Pending work on a tuple is the latest enqueued intent; without pending or dead work the
      store already shows that intent. */
  ghost predicate IntentKept(start: set<Tuple>, s: State) {
    && (forall id :: id in s.rows && s.rows[id].status == Pending ==>
          (s.rows[id].tuple in Replay(start, s.log) <==> s.rows[id].operation == Write))
    && (forall t :: !PendingOn(s.rows, Write, t) && !PendingOn(s.rows, Delete, t) && !DeadOn(s.rows, t) ==>
          (t in s.store <==> t in Replay(start, s.log)))
    && (s.phase == Succeeded && s.hand != [] && s.hand[0] in s.rows ==>
          (s.rows[s.hand[0]].tuple in s.store <==> s.rows[s.hand[0]].operation == Write))
  }

  lemma EnqueueTouchesOneRow(s: State, s': State, id: nat, orgID: string, operation: Operation, tuple: Tuple, edgeID: string) returns (k: nat)
    requires Enqueued(s.rows, s'.rows, id, orgID, operation, tuple, edgeID, s.clock)
    ensures k in s'.rows && s'.rows == s.rows[k := s'.rows[k]]
    ensures s'.rows[k].status == Pending && SameRequest(s'.rows[k], orgID, operation, tuple)
    ensures k in s.rows ==> s.rows[k].status == Pending && SameRequest(s.rows[k], orgID, operation, tuple)
  {
    if PendingRequest(s.rows, orgID, operation, tuple) {
      k :| k in s.rows && s.rows[k].status == Pending && SameRequest(s.rows[k], orgID, operation, tuple)
           && s'.rows == s.rows[k := s.rows[k].(edgeID := edgeID)];
    } else {
      k := id;
    }
  }

  lemma OtherTuplesUntouched(rows: Rows, rows': Rows, k: nat, u: Tuple)
    requires k in rows' && rows' == rows[k := rows'[k]]
    requires rows'[k].tuple != u && (k in rows ==> rows[k].tuple != u)
    ensures forall operation :: PendingOn(rows', operation, u) <==> PendingOn(rows, operation, u)
    ensures DeadOn(rows', u) <==> DeadOn(rows, u)
  {
    forall id ensures id != k ==> (id in rows <==> id in rows') && (id in rows ==> rows[id] == rows'[id]) {
    }
  }

  /** Leases change neither what is pending nor what is dead. */
  lemma ClaimingKeepsPending(rows: Rows, ids: set<nat>, until: int)
    ensures forall operation, t :: PendingOn(Claimed(rows, ids, until), operation, t) <==> PendingOn(rows, operation, t)
    ensures forall t :: DeadOn(Claimed(rows, ids, until), t) <==> DeadOn(rows, t)
  {
    var rows' := Claimed(rows, ids, until);
    assert forall id :: id in rows ==> rows'[id] == rows[id].(leaseUntil := rows'[id].leaseUntil);
    forall operation, t ensures PendingOn(rows', operation, t) <==> PendingOn(rows, operation, t) {
    }
    forall t ensures DeadOn(rows', t) <==> DeadOn(rows, t) {
    }
  }

  lemma EnqueueKeepsIntent(start: set<Tuple>, max: int, s: State, a: Action, s': State)
    requires a.Enqueue? && Step(max, s, a, s') && Unopposed(s, a)
    requires HandIsPending(s) && IntentKept(start, s)
    ensures IntentKept(start, s')
  {
    var t := a.tuple;
    var k := EnqueueTouchesOneRow(s, s', a.id, a.orgID, a.operation, t, a.edgeID);
    assert s'.log[..|s'.log| - 1] == s.log;
    assert Replay(start, s'.log) == ApplyOp(Replay(start, s.log), a.operation, t);
    assert PendingOn(s'.rows, a.operation, t);
    forall u | u != t
      ensures forall operation :: PendingOn(s'.rows, operation, u) <==> PendingOn(s.rows, operation, u)
      ensures DeadOn(s'.rows, u) <==> DeadOn(s.rows, u)
    {
      OtherTuplesUntouched(s.rows, s'.rows, k, u);
    }
    forall id | id in s'.rows && s'.rows[id].status == Pending
      ensures s'.rows[id].tuple in Replay(start, s'.log) <==> s'.rows[id].operation == Write
    {
      if id != k && s'.rows[id].tuple == t {
        assert s.rows[id] == s'.rows[id];
        assert PendingOn(s.rows, s.rows[id].operation, t);
      }
    }
  }

  lemma ApplyKeepsIntent(start: set<Tuple>, max: int, s: State, a: Action, s': State)
    requires a.Apply? && Step(max, s, a, s')
    requires HandIsPending(s) && IntentKept(start, s)
    ensures IntentKept(start, s')
  {
    var r := s.rows[s.hand[0]];
    assert PendingOn(s.rows, r.operation, r.tuple);
  }

  lemma MarkKeepsIntent(start: set<Tuple>, max: int, s: State, a: Action, s': State)
    requires a.Mark? && Step(max, s, a, s')
    requires HandIsPending(s) && IntentKept(start, s)
    ensures IntentKept(start, s')
  {
    var id := s.hand[0];
    var r := s.rows[id];
    forall t | !PendingOn(s'.rows, Write, t) && !PendingOn(s'.rows, Delete, t) && !DeadOn(s'.rows, t)
      ensures t in s'.store <==> t in Replay(start, s'.log)
    {
      if t != r.tuple {
        OtherTuplesUntouched(s.rows, s'.rows, id, t);
      } else {
        assert s'.rows[id].status == Applied;
      }
    }
  }

  lemma StepKeepsIntent(start: set<Tuple>, max: int, s: State, a: Action, s': State)
    requires Step(max, s, a, s') && Unopposed(s, a)
    requires HandIsPending(s) && IntentKept(start, s)
    ensures IntentKept(start, s')
  {
    match a
    case Enqueue(_, _, _, _, _) => EnqueueKeepsIntent(start, max, s, a, s');
    case Apply(_) => ApplyKeepsIntent(start, max, s, a, s');
    case Mark => MarkKeepsIntent(start, max, s, a, s');
    case Claim(_) =>
      ClaimingKeepsPending(s.rows, AsSet(a.ids), s.clock + LEASE);
    case _ =>
  }

  lemma {:induction false} RunKeepsIntent(max: int, run: Run)
    requires max >= 1 && run.Valid(max) && Initial(run.states[0])
    requires forall i :: 0 <= i < |run.actions| ==> Unopposed(run.states[i], run.actions[i])
    ensures Healthy(max, run.Last()) && IntentKept(run.states[0].store, run.Last())
    decreases |run.actions|
  {
    if run.actions != [] {
      var n := |run.actions|;
      var shorter := Run(run.states[..n], run.actions[..n - 1]);
      RunKeepsIntent(max, shorter);
      StepKeepsHealthy(max, run.states[n - 1], run.actions[n - 1], run.states[n]);
      StepKeepsIntent(run.states[0].store, max, run.states[n - 1], run.actions[n - 1], run.states[n]);
    }
  }

  /** A settled outbox: nothing waits and nothing was given up. */
  ghost predicate Settled(s: State) {
    forall id :: id in s.rows ==> s.rows[id].status == Applied
  }

  /** However often calls failed, succeeded unnoticed, were repeated or crashed: once the outbox
      settles, the store is what applying every enqueued operation once, in order, gives. */
  lemma AtLeastOnceRefinesExactlyOnce(max: int, run: Run)
    requires max >= 1 && run.Valid(max) && Initial(run.states[0])
    requires forall i :: 0 <= i < |run.actions| ==> Unopposed(run.states[i], run.actions[i])
    requires Settled(run.Last())
    ensures run.Last().store == Replay(run.states[0].store, run.Last().log)
  {
    RunKeepsIntent(max, run);
    forall t ensures t in run.Last().store <==> t in Replay(run.states[0].store, run.Last().log) {
      assert !PendingOn(run.Last().rows, Write, t) && !PendingOn(run.Last().rows, Delete, t);
    }
  }

  /* ---------- stretches of a run ---------- */

  ghost function Extend(run: Run, a: Action, s: State): Run {
    Run(run.states + [s], run.actions + [a])
  }

  lemma ExtendIsValid(max: int, run: Run, a: Action, s: State)
    requires run.Valid(max) && Step(max, run.Last(), a, s)
    ensures Extend(run, a, s).Valid(max) && Extend(run, a, s).Last() == s
    ensures Extend(run, a, s).states[0] == run.states[0]
  {
    var n := |run.actions|;
    var longer := Extend(run, a, s);
    forall i | 0 <= i < n + 1 ensures Step(max, longer.states[i], longer.actions[i], longer.states[i + 1]) {
      if i < n {
        assert longer.states[i] == run.states[i] && longer.states[i + 1] == run.states[i + 1];
      }
    }
  }

  ghost predicate Prefixes(run0: Run, run: Run) {
    run0.states <= run.states && run0.actions <= run.actions && run0.states != []
  }

  /** `run` continues `run0` with nothing but one organization's enqueues, up to the given rows and history. */
  ghost predicate Continues(max: int, orgID: string, run0: Run, run: Run, rows: Rows, log: seq<(Operation, Tuple)>) {
    && run0.Valid(max) && run.Valid(max) && Prefixes(run0, run)
    && (forall i :: |run0.actions| <= i < |run.actions| ==> run.actions[i].Enqueue? && run.actions[i].orgID == orgID)
    && run.Last() == run0.Last().(rows := rows, log := log)
  }

  lemma EnqueueContinues(max: int, run0: Run, id: nat, orgID: string, operation: Operation, t: Tuple, edgeID: string, rows: Rows) returns (run: Run)
    requires run0.Valid(max) && Enqueued(run0.Last().rows, rows, id, orgID, operation, t, edgeID, run0.Last().clock)
    ensures Continues(max, orgID, run0, run, rows, run0.Last().log + [(operation, t)])
  {
    var action, s := Enqueue(id, orgID, operation, t, edgeID), run0.Last().(rows := rows, log := run0.Last().log + [(operation, t)]);
    ExtendIsValid(max, run0, action, s);
    run := Extend(run0, action, s);
  }

  lemma ContinuesFurther(max: int, orgID: string, run0: Run, run1: Run, rows1: Rows, log1: seq<(Operation, Tuple)>,
                         run2: Run, rows2: Rows, log2: seq<(Operation, Tuple)>)
    requires Continues(max, orgID, run0, run1, rows1, log1) && Continues(max, orgID, run1, run2, rows2, log2)
    ensures Continues(max, orgID, run0, run2, rows2, log2)
  {
    forall i | |run0.actions| <= i < |run2.actions| ensures run2.actions[i].Enqueue? && run2.actions[i].orgID == orgID {
      assert i < |run1.actions| ==> run2.actions[i] == run1.actions[i];
    }
  }

  /** What enqueueing some work does to the pending rows: exactly the work joins them. */
  ghost predicate Gains(rows: Rows, rows': Rows, work: seq<(Operation, Tuple)>) {
    forall operation, t :: PendingOn(rows', operation, t) <==> PendingOn(rows, operation, t) || (operation, t) in work
  }

  /** Every piece of work waits under the organization. */
  ghost predicate Waits(rows: Rows, orgID: string, work: seq<(Operation, Tuple)>) {
    forall op :: op in work ==> PendingRequest(rows, orgID, op.0, op.1)
  }

  lemma EnqueueGains(rows: Rows, rows': Rows, id: nat, orgID: string, operation: Operation, t: Tuple, edgeID: string, now: int)
    requires Enqueued(rows, rows', id, orgID, operation, t, edgeID, now)
    ensures Gains(rows, rows', [(operation, t)]) && PendingRequest(rows', orgID, operation, t)
    ensures forall op, u :: PendingRequest(rows, orgID, op, u) ==> PendingRequest(rows', orgID, op, u)
  {
    var idle := State(rows, {}, now, [], Idle, []);
    var k := EnqueueTouchesOneRow(idle, idle.(rows := rows'), id, orgID, operation, t, edgeID);
    assert PendingOn(rows', operation, t);
    forall op, u ensures PendingOn(rows, op, u) ==> PendingOn(rows', op, u) {
      if PendingOn(rows, op, u) {
        var j :| j in rows && rows[j].status == Pending && rows[j].operation == op && rows[j].tuple == u;
        assert j in rows' && rows'[j].status == Pending && rows'[j].operation == op && rows'[j].tuple == u;
      }
    }
    forall op, u ensures PendingRequest(rows, orgID, op, u) ==> PendingRequest(rows', orgID, op, u) {
      if PendingRequest(rows, orgID, op, u) {
        var j :| j in rows && rows[j].status == Pending && SameRequest(rows[j], orgID, op, u);
        assert j in rows' && rows'[j].status == Pending && SameRequest(rows'[j], orgID, op, u);
      }
    }
  }

  lemma GainsMore(rows: Rows, rows1: Rows, rows2: Rows, work: seq<(Operation, Tuple)>, more: seq<(Operation, Tuple)>)
    requires Gains(rows, rows1, work) && Gains(rows1, rows2, more)
    ensures Gains(rows, rows2, work + more)
  {
  }

  /** The state before the last step of such a stretch. */
  lemma OneStepEarlier(max: int, orgID: string, run0: Run, run: Run, rows: Rows, log: seq<(Operation, Tuple)>) returns (before: Run)
    requires Continues(max, orgID, run0, run, rows, log) && |run0.actions| < |run.actions|
    ensures |before.actions| == |run.actions| - 1 && Prefixes(before, run)
    ensures Continues(max, orgID, run0, before, before.Last().rows, before.Last().log)
    ensures var a := run.actions[|run.actions| - 1];
            && a.Enqueue? && a.orgID == orgID && log == before.Last().log + [(a.operation, a.tuple)]
            && Enqueued(before.Last().rows, rows, a.id, orgID, a.operation, a.tuple, a.edgeID, before.Last().clock)
  {
    var n := |run.actions|;
    before := Run(run.states[..n], run.actions[..n - 1]);
    assert Step(max, run.states[n - 1], run.actions[n - 1], run.states[n]);
  }

  /** A stretch of enqueues leaves exactly its work waiting besides what was. */
  lemma {:induction false} ContinuesGains(max: int, orgID: string, run0: Run, run: Run, rows: Rows, log: seq<(Operation, Tuple)>)
    requires Continues(max, orgID, run0, run, rows, log)
    ensures run0.Last().log <= log
    ensures var work := log[|run0.Last().log|..];
            Gains(run0.Last().rows, rows, work) && Waits(rows, orgID, work)
    decreases |run.actions|
  {
    var log0 := run0.Last().log;
    if |run.actions| == |run0.actions| {
      assert run.Last() == run0.Last();
    } else {
      var before := OneStepEarlier(max, orgID, run0, run, rows, log);
      ContinuesGains(max, orgID, run0, before, before.Last().rows, before.Last().log);
      var a, rows1, log1 := run.actions[|run.actions| - 1], before.Last().rows, before.Last().log;
      EnqueueGains(rows1, rows, a.id, orgID, a.operation, a.tuple, a.edgeID, before.Last().clock);
      GainsMore(run0.Last().rows, rows1, rows, log1[|log0|..], [(a.operation, a.tuple)]);
      assert log[|log0|..] == log1[|log0|..] + [(a.operation, a.tuple)];
    }
  }

  /** Finishing two pending rows back to back, without failures. */
  function TwoRows(s: State, first: nat, second: nat): State
    requires first in s.rows && second in s.rows
  {
    var rows := Claimed(s.rows, {first, second}, s.clock + LEASE);
    var r1, r2 := s.rows[first], s.rows[second];
    s.(rows := rows[first := MarkedApplied(rows[first])][second := MarkedApplied(rows[second])],
       store := ApplyOp(ApplyOp(s.store, r1.operation, r1.tuple), r2.operation, r2.tuple),
       hand := [], phase := Idle)
  }

  lemma TwoRowsIsARun(max: int, s: State, first: nat, second: nat) returns (run: Run)
    requires s.hand == [] && s.phase == Idle && first != second
    requires first in s.rows && second in s.rows && Eligible(s.rows[first], s.clock) && Eligible(s.rows[second], s.clock)
    ensures run.Valid(max) && run.states[0] == s && run.Last() == TwoRows(s, first, second)
    ensures forall a :: a in run.actions ==> !a.Enqueue?
  {
    var rows := Claimed(s.rows, {first, second}, s.clock + LEASE);
    var r1, r2 := s.rows[first], s.rows[second];
    var s1 := s.(rows := rows, hand := [first, second]);
    var s2 := s1.(store := ApplyOp(s.store, r1.operation, r1.tuple), phase := Succeeded);
    var s3 := s2.(rows := rows[first := MarkedApplied(rows[first])], hand := [second], phase := Idle);
    var s4 := s3.(store := ApplyOp(s2.store, r2.operation, r2.tuple), phase := Succeeded);
    var s5 := TwoRows(s, first, second);
    assert AsSet([first, second]) == {first, second};
    assert [first, second][1..] == [second] && [second][1..] == [];
    run := Run([s, s1, s2, s3, s4, s5], [Claim([first, second]), Apply(true), Mark, Apply(true), Mark]);
    assert Step(max, s, Claim([first, second]), s1);
    assert Step(max, s1, Apply(true), s2) && Step(max, s2, Mark, s3);
    assert Step(max, s3, Apply(true), s4) && Step(max, s4, Mark, s5);
  }

  /** The hypothesis is needed wherever it fails: once a write and a delete of one tuple are both
      pending and claimable, the same failure-free worker can finish them with the tuple stored or
      with it gone, so one of the two outcomes contradicts the order of the enqueues. */
  lemma OpposedWorkIsUnordered(max: int, s: State, write: nat, delete: nat) returns (kept: Run, lost: Run)
    requires s.hand == [] && s.phase == Idle
    requires write in s.rows && delete in s.rows && s.rows[write].tuple == s.rows[delete].tuple
    requires s.rows[write].operation == Write && s.rows[delete].operation == Delete
    requires Eligible(s.rows[write], s.clock) && Eligible(s.rows[delete], s.clock)
    ensures kept.Valid(max) && lost.Valid(max) && kept.states[0] == s && lost.states[0] == s
    ensures kept.Last().rows == lost.Last().rows && kept.Last().log == lost.Last().log
    ensures s.rows[write].tuple in kept.Last().store && s.rows[write].tuple !in lost.Last().store
  {
    kept := TwoRowsIsARun(max, s, delete, write);
    lost := TwoRowsIsARun(max, s, write, delete);
    assert {delete, write} == {write, delete};
  }
}
