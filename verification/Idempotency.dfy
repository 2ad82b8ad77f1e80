/** Concurrent intakes of one organization (internal/ingest/ingest.go) as interleaved steps over a
    ledger, transactional (internal/adapters/postgres/store.go) or in memory. */
module Idempotency {

  datatype Ids = Ids(eventID: string, resourceID: string, revisionID: string)

  datatype Phase =
    | Begun | LookedUp | Written | Keyed | Conflicted
    | Accepted | Duplicate(ids: Ids) | Failed

  /** ids are the ones this intake would commit. */
  datatype Process = Process(key: string, ids: Ids, phase: Phase)
  {
    predicate Finished() {
      phase.Accepted? || phase.Duplicate? || phase.Failed?
    }

    predicate Succeeded() {
      phase.Accepted? || phase.Duplicate?
    }

    /** The ids a successful caller is told. */
    function Answer(): Ids
      requires Succeeded()
    {
      if phase.Accepted? then ids else phase.ids
    }
  }

  /** durable holds the intakes whose revision, edges and outbox entry are in the ledger; held
      gives the owner of each inserted but uncommitted key. */
  datatype State = State(procs: map<nat, Process>, durable: set<nat>, idem: map<string, Ids>, held: map<string, nat>)

  datatype Action =
    | Arrive(key: string, ids: Ids)
    | Lookup
    | Write
    | PutKey
    | Commit(acknowledged: bool)
    | Recover
    | Fail

  function At(s: State, p: nat, phase: Phase): map<nat, Process>
    requires p in s.procs
  {
    s.procs[p := s.procs[p].(phase := phase)]
  }

  /** One process takes one step.  Any unfinished intake may fail at any point, and a commit may
      take effect without its caller learning of it.  A transactional ledger rolls a failed intake
      back and makes a second insert of an uncommitted key wait; the in-memory ledger does neither. */
  ghost predicate Step(transactional: bool, s: State, p: nat, a: Action, s': State) {
    match a
    case Arrive(key, ids) => p !in s.procs && s' == s.(procs := s.procs[p := Process(key, ids, Begun)])
    case Lookup =>
      && p in s.procs && s.procs[p].phase == Begun
      && var key := s.procs[p].key;
         s' == s.(procs := At(s, p, if key != "" && key in s.idem then Duplicate(s.idem[key]) else LookedUp))
    case Write =>
      && p in s.procs && s.procs[p].phase == LookedUp
      && s' == s.(procs := At(s, p, Written), durable := if transactional then s.durable else s.durable + {p})
    case PutKey =>
      && p in s.procs && s.procs[p].phase == Written && s.procs[p].key != "" && s.procs[p].key !in s.held
      && var key := s.procs[p].key;
         if key in s.idem then s' == s.(procs := At(s, p, Conflicted))
         else if transactional then s' == s.(procs := At(s, p, Keyed), held := s.held[key := p])
         else s' == s.(procs := At(s, p, Keyed), idem := s.idem[key := s.procs[p].ids])
    case Commit(acknowledged) =>
      && p in s.procs && (s.procs[p].phase == Keyed || (s.procs[p].phase == Written && s.procs[p].key == ""))
      && var q := s.procs[p];
         s' == State(At(s, p, if acknowledged then Accepted else Failed), s.durable + {p},
                     if q.key == "" then s.idem else s.idem[q.key := q.ids], s.held - {q.key})
    case Recover =>
      && p in s.procs && s.procs[p].phase == Conflicted
      && var key := s.procs[p].key;
         s' == s.(procs := At(s, p, if key in s.idem then Duplicate(s.idem[key]) else Failed))
    case Fail =>
      && p in s.procs && !s.procs[p].Finished()
      && s' == s.(procs := At(s, p, Failed),
                  held := if s.procs[p].phase == Keyed then s.held - {s.procs[p].key} else s.held)
  }

  datatype Run = Run(states: seq<State>, steps: seq<(nat, Action)>)
  {
    ghost predicate Valid(transactional: bool) {
      && |states| == |steps| + 1
      && states[0] == State(map[], {}, map[], map[])
      && forall i :: 0 <= i < |steps| ==> Step(transactional, states[i], steps[i].0, steps[i].1, states[i + 1])
    }

    function Last(): State
      requires |states| > 0
    {
      states[|states| - 1]
    }
  }

  /* ---------- what every interleaving keeps ---------- */

  /** Only one intake holds a key, and no committed intake has it. */
  ghost predicate HeldKeys(s: State) {
    HeldAreKeyed(s) && KeyedAreHeld(s)
  }

  ghost predicate HeldAreKeyed(s: State) {
    forall key :: key in s.held ==>
      key != "" && key !in s.idem && s.held[key] in s.procs && s.procs[s.held[key]].key == key && s.procs[s.held[key]].phase == Keyed
  }

  ghost predicate KeyedAreHeld(s: State) {
    forall p :: p in s.procs && s.procs[p].phase == Keyed ==> s.procs[p].key in s.held && s.held[s.procs[p].key] == p
  }

  ghost predicate Named(s: State, key: string) {
    exists p :: p in s.durable && p in s.procs && s.procs[p].key == key
  }

  /** A durable intake with a key is the one the key table names. */
  ghost predicate OneOwner(s: State) {
    && DurableAreNamed(s)
    && OneDurablePerKey(s)
    && (forall key :: key in s.idem ==> Named(s, key))
  }

  ghost predicate DurableAreNamed(s: State) {
    && (forall p :: p in s.durable ==> p in s.procs && s.procs[p].Finished())
    && (forall p :: p in s.durable && s.procs[p].key != "" ==> s.procs[p].key in s.idem && s.idem[s.procs[p].key] == s.procs[p].ids)
    && (forall p :: p in s.procs && s.procs[p].phase.Accepted? ==> p in s.durable)
  }

  ghost predicate AnswersMatchTable(s: State) {
    forall p :: p in s.procs && s.procs[p].Succeeded() && s.procs[p].key != "" ==>
      s.procs[p].key in s.idem && s.idem[s.procs[p].key] == s.procs[p].Answer()
  }

  ghost predicate KeysOnlyWhenDuplicate(s: State) {
    forall p :: p in s.procs && (s.procs[p].phase.Duplicate? || s.procs[p].phase.Conflicted? || s.procs[p].phase.Keyed?) ==> s.procs[p].key != ""
  }

  /** A step of an intake leaves the others as they are. */
  lemma OthersStay(transactional: bool, s: State, p: nat, a: Action, s': State)
    requires Step(transactional, s, p, a, s')
    ensures p in s'.procs && s'.procs.Keys == s.procs.Keys + {p} && s'.durable - {p} == s.durable - {p}
    ensures forall q :: q != p && q in s.procs ==> s'.procs[q] == s.procs[q]
    ensures p in s.procs ==> s'.procs[p].key == s.procs[p].key && s'.procs[p].ids == s.procs[p].ids
  {
  }

  /** Nothing but a commit touches what is durable or the key table. */
  lemma OnlyCommitsLast(s: State, p: nat, a: Action, s': State)
    requires HeldKeys(s) && DurableAreNamed(s) && Step(true, s, p, a, s')
    ensures p !in s.durable && (s'.procs[p].phase.Accepted? ==> a.Commit?)
    ensures if a.Commit? then Committed(s, p, s') else s'.durable == s.durable && s'.idem == s.idem
  {
  }

  ghost predicate Committed(s: State, p: nat, s': State) {
    && p in s.procs && p in s'.procs && s'.procs[p].Finished() && s'.durable == s.durable + {p}
    && var key := s.procs[p].key;
       if key == "" then s'.idem == s.idem else key !in s.idem && s'.idem == s.idem[key := s.procs[p].ids]
  }

  lemma StepKeepsDurableNamed(s: State, p: nat, a: Action, s': State)
    requires HeldKeys(s) && DurableAreNamed(s) && Step(true, s, p, a, s')
    ensures DurableAreNamed(s')
  {
    OthersStay(true, s, p, a, s');
    OnlyCommitsLast(s, p, a, s');
    if a.Commit? {
      CommitNamesDurable(s, p, s');
    } else {
      NothingDurable(s, p, s');
    }
  }

  lemma CommitNamesDurable(s: State, p: nat, s': State)
    requires DurableAreNamed(s) && Committed(s, p, s')
    requires s'.procs.Keys == s.procs.Keys + {p} && forall q :: q != p && q in s.procs ==> s'.procs[q] == s.procs[q]
    requires s'.procs[p].key == s.procs[p].key && s'.procs[p].ids == s.procs[p].ids
    ensures DurableAreNamed(s')
  {
  }

  lemma NothingDurable(s: State, p: nat, s': State)
    requires DurableAreNamed(s) && s'.durable == s.durable && s'.idem == s.idem && p !in s.durable
    requires p in s'.procs && s'.procs.Keys == s.procs.Keys + {p} && forall q :: q != p && q in s.procs ==> s'.procs[q] == s.procs[q]
    requires !s'.procs[p].phase.Accepted?
    ensures DurableAreNamed(s')
  {
  }

  ghost predicate OneDurablePerKey(s: State) {
    forall p, q | p in s.durable && q in s.durable && p in s.procs && q in s.procs && s.procs[p].key == s.procs[q].key != "" :: p == q
  }

  lemma StepKeepsOneOwner(s: State, p: nat, a: Action, s': State)
    requires HeldKeys(s) && OneOwner(s) && Step(true, s, p, a, s')
    ensures OneOwner(s')
  {
    OthersStay(true, s, p, a, s');
    OnlyCommitsLast(s, p, a, s');
    StepKeepsDurableNamed(s, p, a, s');
    StillOneDurable(s, p, s');
    StepKeepsTableNamed(s, p, a, s');
  }

  lemma StillOneDurable(s: State, p: nat, s': State)
    requires DurableAreNamed(s) && OneDurablePerKey(s) && s'.durable - {p} == s.durable - {p} && p !in s.durable
    requires p in s'.procs && forall q :: q != p && q in s.procs ==> q in s'.procs && s'.procs[q] == s.procs[q]
    requires p in s'.durable ==> p in s.procs && s'.procs[p].key == s.procs[p].key && (s.procs[p].key == "" || s.procs[p].key !in s.idem)
    ensures OneDurablePerKey(s')
  {
    forall q | q in s'.durable && q != p ensures q in s.durable && q in s.procs {
      assert q in s'.durable - {p};
    }
  }

  lemma StepKeepsTableNamed(s: State, p: nat, a: Action, s': State)
    requires DurableAreNamed(s) && (forall key :: key in s.idem ==> Named(s, key))
    requires Step(true, s, p, a, s') && p !in s.durable
    ensures forall key :: key in s'.idem ==> Named(s', key)
  {
    OthersStay(true, s, p, a, s');
    forall key | key in s'.idem ensures Named(s', key) {
      if key in s.idem {
        var q :| q in s.durable && q in s.procs && s.procs[q].key == key;
        assert q in s'.durable && s'.procs[q].key == key;
      } else {
        assert p in s'.durable && s'.procs[p].key == key;
      }
    }
  }

  lemma StepKeepsHeldKeys(s: State, p: nat, a: Action, s': State)
    requires HeldKeys(s) && Step(true, s, p, a, s')
    ensures HeldKeys(s')
  {
    StepKeepsHeld(s, p, a, s');
    StepKeepsKeyed(s, p, a, s');
  }

  lemma StepKeepsHeld(s: State, p: nat, a: Action, s': State)
    requires HeldKeys(s) && Step(true, s, p, a, s')
    ensures HeldAreKeyed(s')
  {
    OthersStay(true, s, p, a, s');
  }

  lemma StepKeepsKeyed(s: State, p: nat, a: Action, s': State)
    requires HeldKeys(s) && Step(true, s, p, a, s')
    ensures KeyedAreHeld(s')
  {
    OthersStay(true, s, p, a, s');
  }

  lemma StepKeepsAnswers(transactional: bool, s: State, p: nat, a: Action, s': State)
    requires AnswersMatchTable(s) && KeysOnlyWhenDuplicate(s) && Step(transactional, s, p, a, s')
    requires transactional ==> HeldKeys(s)
    requires !transactional ==> forall q :: q in s.procs && s.procs[q].phase == Keyed ==>
               s.procs[q].key in s.idem && s.idem[s.procs[q].key] == s.procs[q].ids
    ensures AnswersMatchTable(s') && KeysOnlyWhenDuplicate(s')
  {
  }

  lemma {:induction false} TransactionalRun(run: Run)
    requires run.Valid(true)
    ensures HeldKeys(run.Last()) && OneOwner(run.Last()) && AnswersMatchTable(run.Last()) && KeysOnlyWhenDuplicate(run.Last())
    decreases |run.steps|
  {
    if run.steps != [] {
      var n := |run.steps|;
      TransactionalRun(Run(run.states[..n], run.steps[..n - 1]));
      var s, p, a, s' := run.states[n - 1], run.steps[n - 1].0, run.steps[n - 1].1, run.states[n];
      StepKeepsHeldKeys(s, p, a, s');
      StepKeepsOneOwner(s, p, a, s');
      StepKeepsAnswers(true, s, p, a, s');
    }
  }

  ghost predicate Left(s: State, p: nat, key: string, ids: Ids) {
    p in s.procs && s.procs[p].key == key && s.procs[p].ids == ids
  }

  /** Over a transactional ledger, whatever the interleaving and however many intakes share a key:
      at most one of them leaves anything behind, and every caller that succeeds is told that one's ids. */
  lemma AtMostOneIntakePerKey(run: Run, p: nat, q: nat)
    requires run.Valid(true)
    requires p in run.Last().procs && q in run.Last().procs
    requires run.Last().procs[p].key == run.Last().procs[q].key != ""
    ensures p in run.Last().durable && q in run.Last().durable ==> p == q
    ensures run.Last().procs[p].Succeeded() && run.Last().procs[q].Succeeded() ==>
              run.Last().procs[p].Answer() == run.Last().procs[q].Answer()
    ensures run.Last().procs[p].Succeeded() ==>
              exists owner :: owner in run.Last().durable && Left(run.Last(), owner, run.Last().procs[p].key, run.Last().procs[p].Answer())
  {
    TransactionalRun(run);
  }

  /* ---------- the in-memory ledger ---------- */

  ghost predicate KeyedMeansNamed(s: State) {
    && s.held == map[]
    && forall p :: p in s.procs && s.procs[p].phase == Keyed ==>
         s.procs[p].key in s.idem && s.idem[s.procs[p].key] == s.procs[p].ids
  }

  lemma {:induction false} InMemoryRun(run: Run)
    requires run.Valid(false)
    ensures KeyedMeansNamed(run.Last()) && AnswersMatchTable(run.Last()) && KeysOnlyWhenDuplicate(run.Last())
    decreases |run.steps|
  {
    if run.steps != [] {
      var n := |run.steps|;
      InMemoryRun(Run(run.states[..n], run.steps[..n - 1]));
      StepKeepsAnswers(false, run.states[n - 1], run.steps[n - 1].0, run.steps[n - 1].1, run.states[n]);
    }
  }

  /** Callers agree on the ids over the in-memory ledger too ... */
  lemma InMemoryAnswersAgree(run: Run, p: nat, q: nat)
    requires run.Valid(false)
    requires p in run.Last().procs && q in run.Last().procs
    requires run.Last().procs[p].key == run.Last().procs[q].key != ""
    requires run.Last().procs[p].Succeeded() && run.Last().procs[q].Succeeded()
    ensures run.Last().procs[p].Answer() == run.Last().procs[q].Answer()
  {
    InMemoryRun(run);
  }

  /** An intake that has looked its key up and not yet inserted it. */
  ghost predicate Between(s: State, p: nat, key: string) {
    p in s.procs && s.procs[p].key == key && (s.procs[p].phase == LookedUp || s.procs[p].phase == Written)
  }

  ghost predicate OneAtATime(run: Run, key: string) {
    forall i, p, q | 0 <= i < |run.states| && Between(run.states[i], p, key) && Between(run.states[i], q, key) :: p == q
  }

  ghost predicate FailsWritten(s: State, p: nat, a: Action, key: string) {
    a.Fail? && p in s.procs && s.procs[p].key == key && s.procs[p].phase == Written
  }

  ghost predicate NoneFailsWritten(run: Run, key: string) {
    forall i | 0 <= i < |run.steps| && i < |run.states| :: !FailsWritten(run.states[i], run.steps[i].0, run.steps[i].1, key)
  }

  ghost predicate Durable(s: State, p: nat, key: string) {
    p in s.durable && p in s.procs && s.procs[p].key == key
  }

  /** What the ledger holds of a key while its intakes come one at a time. */
  ghost predicate InTurn(s: State, key: string) {
    && (forall p :: p in s.durable ==> p in s.procs)
    && (forall p :: Durable(s, p, key) ==> key in s.idem || s.procs[p].phase == Written)
    && (forall p, q :: Durable(s, p, key) && Between(s, q, key) ==> p == q && s.procs[p].phase == Written)
    && (forall p, q :: Durable(s, p, key) && Durable(s, q, key) ==> p == q)
    && (forall p :: Durable(s, p, key) ==> s.procs[p].phase != Begun)
    && (forall p :: p in s.procs && s.procs[p].key == key && (s.procs[p].phase == Written || s.procs[p].phase == Keyed) ==> p in s.durable)
  }

  ghost predicate AtMostOneBetween(s: State, key: string) {
    forall p, q :: Between(s, p, key) && Between(s, q, key) ==> p == q
  }

  lemma OthersStayInTurn(s: State, p: nat, a: Action, s': State, key: string)
    requires Step(false, s, p, a, s')
    ensures forall q :: q != p ==> (Durable(s', q, key) <==> Durable(s, q, key)) && (Between(s', q, key) <==> Between(s, q, key))
    ensures forall k :: k in s.idem ==> k in s'.idem
  {
    OthersStay(false, s, p, a, s');
  }

  lemma WriteKeepsInTurn(s: State, p: nat, s': State, key: string)
    requires InTurn(s, key) && Step(false, s, p, Write, s') && AtMostOneBetween(s, key)
    ensures InTurn(s', key)
  {
    OthersStay(false, s, p, Write, s');
    OthersStayInTurn(s, p, Write, s', key);
    if s.procs[p].key == key {
      assert Between(s, p, key);
      assert forall q :: !Durable(s, q, key);
    }
  }

  lemma LookupKeepsInTurn(s: State, p: nat, s': State, key: string)
    requires InTurn(s, key) && Step(false, s, p, Lookup, s') && AtMostOneBetween(s', key) && key != ""
    ensures InTurn(s', key)
  {
    OthersStay(false, s, p, Lookup, s');
    OthersStayInTurn(s, p, Lookup, s', key);
    forall q | Durable(s, q, key) && key !in s.idem ensures q != p && Between(s', q, key) {
      assert Between(s, q, key);
    }
    assert Between(s', p, key) ==> forall q :: !Durable(s, q, key);
  }

  lemma OtherStepKeepsInTurn(s: State, p: nat, a: Action, s': State, key: string)
    requires InTurn(s, key) && KeyedMeansNamed(s) && Step(false, s, p, a, s') && key != "" && !FailsWritten(s, p, a, key)
    requires !a.Write? && !a.Lookup?
    ensures InTurn(s', key)
  {
    OthersStay(false, s, p, a, s');
    OthersStayInTurn(s, p, a, s', key);
    assert !Between(s', p, key);
    assert Durable(s', p, key) ==> Durable(s, p, key) && key in s'.idem;
  }

  /** Over the in-memory ledger at most one intake per key leaves anything behind if its intakes are
      between lookup and insertion one at a time and none of them fails between write and insertion. */
  lemma {:induction false} InMemoryLeavesOne(run: Run, key: string)
    requires run.Valid(false) && key != "" && OneAtATime(run, key) && NoneFailsWritten(run, key)
    ensures InTurn(run.Last(), key)
    ensures forall p, q :: Durable(run.Last(), p, key) && Durable(run.Last(), q, key) ==> p == q
    decreases |run.steps|
  {
    if run.steps != [] {
      var n := |run.steps|;
      var before := Run(run.states[..n], run.steps[..n - 1]);
      assert OneAtATime(before, key) by {
        assert forall i :: 0 <= i < n ==> before.states[i] == run.states[i];
      }
      assert NoneFailsWritten(before, key) by {
        assert forall i :: 0 <= i < n - 1 ==> before.states[i] == run.states[i] && before.steps[i] == run.steps[i];
      }
      InMemoryLeavesOne(before, key);
      InMemoryRun(before);
      var s, p, a, s' := run.states[n - 1], run.steps[n - 1].0, run.steps[n - 1].1, run.states[n];
      if a.Write? {
        WriteKeepsInTurn(s, p, s', key);
      } else if a.Lookup? {
        LookupKeepsInTurn(s, p, s', key);
      } else {
        OtherStepKeepsInTurn(s, p, a, s', key);
      }
    }
  }

  /** Two intakes with one key, in the order that goes wrong. */
  function Scene(key: string, first: Ids, second: Ids, k: nat): State {
    var p, q := Process(key, first, if k < 3 then Begun else if k < 5 then LookedUp else if k < 7 then Written else if k < 8 then Keyed else Accepted),
                Process(key, second, if k < 4 then Begun else if k < 6 then LookedUp else if k < 9 then Written else if k < 10 then Conflicted else Duplicate(first));
    State(if k == 0 then map[] else if k == 1 then map[0 := p] else map[0 := p, 1 := q],
          if k < 5 then {} else if k < 6 then {0} else {0, 1}, if k < 7 then map[] else map[key := first], map[])
  }

  function Move(key: string, first: Ids, second: Ids, k: nat): (nat, Action) {
    match k
    case 0 => (0, Arrive(key, first))
    case 1 => (1, Arrive(key, second))
    case 2 => (0, Lookup)
    case 3 => (1, Lookup)
    case 4 => (0, Write)
    case 5 => (1, Write)
    case 6 => (0, PutKey)
    case 7 => (0, Commit(true))
    case 8 => (1, PutKey)
    case _ => (1, Recover)
  }

  ghost predicate SceneSteps(key: string, first: Ids, second: Ids, k: nat)
    requires k < 10
  {
    var (p, a) := Move(key, first, second, k);
    Step(false, Scene(key, first, second, k), p, a, Scene(key, first, second, k + 1)) && !a.Fail?
  }

  lemma EarlySceneMoves(key: string, first: Ids, second: Ids, k: nat)
    requires k < 5 && key != ""
    ensures SceneSteps(key, first, second, k)
  {
  }

  lemma LateSceneMoves(key: string, first: Ids, second: Ids, k: nat)
    requires 5 <= k < 10 && key != ""
    ensures SceneSteps(key, first, second, k)
  {
  }

  lemma SceneMoves(key: string, first: Ids, second: Ids, k: nat)
    requires k < 10 && key != ""
    ensures SceneSteps(key, first, second, k)
  {
    if k < 5 {
      EarlySceneMoves(key, first, second, k);
    } else {
      LateSceneMoves(key, first, second, k);
    }
  }

  /** The first condition is needed: two intakes that both look the key up before either inserts it
      both leave their revision and outbox entry behind, though neither fails. */
  lemma InMemoryLeavesTwo(key: string, first: Ids, second: Ids) returns (run: Run)
    requires key != ""
    ensures run.Valid(false) && NoneFailsWritten(run, key) && run.Last().durable == {0, 1}
    ensures run.Last().procs == map[0 := Process(key, first, Accepted), 1 := Process(key, second, Duplicate(first))]
  {
    run := Run(seq(11, k requires 0 <= k => Scene(key, first, second, k)), seq(10, k requires 0 <= k => Move(key, first, second, k)));
    forall k | 0 <= k < 10
      ensures Step(false, run.states[k], run.steps[k].0, run.steps[k].1, run.states[k + 1]) && !FailsWritten(run.states[k], run.steps[k].0, run.steps[k].1, key)
    {
      SceneMoves(key, first, second, k);
    }
  }

  /** One intake fails after its writes; a second one with its key follows. */
  function LaterScene(key: string, first: Ids, second: Ids, k: nat): State {
    var p, q := Process(key, first, if k < 2 then Begun else if k < 3 then LookedUp else if k < 4 then Written else Failed),
                Process(key, second, if k < 6 then Begun else if k < 7 then LookedUp else if k < 8 then Written else if k < 9 then Keyed else Accepted);
    State(if k == 0 then map[] else if k < 5 then map[0 := p] else map[0 := p, 1 := q],
          if k < 3 then {} else if k < 7 then {0} else {0, 1}, if k < 8 then map[] else map[key := second], map[])
  }

  function LaterMove(key: string, first: Ids, second: Ids, k: nat): (nat, Action) {
    match k
    case 0 => (0, Arrive(key, first))
    case 1 => (0, Lookup)
    case 2 => (0, Write)
    case 3 => (0, Fail)
    case 4 => (1, Arrive(key, second))
    case 5 => (1, Lookup)
    case 6 => (1, Write)
    case 7 => (1, PutKey)
    case _ => (1, Commit(true))
  }

  lemma LaterSceneMoves(key: string, first: Ids, second: Ids, k: nat)
    requires k < 9 && key != ""
    ensures var (p, a) := LaterMove(key, first, second, k);
            Step(false, LaterScene(key, first, second, k), p, a, LaterScene(key, first, second, k + 1))
  {
    var (p, a) := LaterMove(key, first, second, k);
    assert Step(false, LaterScene(key, first, second, k), p, a, LaterScene(key, first, second, k + 1));
  }

  /** So is the second: an intake that fails between write and insertion stays behind without its
      key, and a retry that starts after it has ended leaves another. */
  lemma FailedIntakeStaysBehind(key: string, first: Ids, second: Ids) returns (run: Run)
    requires key != ""
    ensures run.Valid(false) && OneAtATime(run, key) && run.Last().durable == {0, 1}
    ensures run.Last().procs == map[0 := Process(key, first, Failed), 1 := Process(key, second, Accepted)]
  {
    run := Run(seq(10, k requires 0 <= k => LaterScene(key, first, second, k)), seq(9, k requires 0 <= k => LaterMove(key, first, second, k)));
    forall k | 0 <= k < 9
      ensures Step(false, run.states[k], run.steps[k].0, run.steps[k].1, run.states[k + 1])
    {
      LaterSceneMoves(key, first, second, k);
    }
    forall i, p, q | 0 <= i < 10 && Between(run.states[i], p, key) && Between(run.states[i], q, key) ensures p == q {
      assert run.states[i] == LaterScene(key, first, second, i);
    }
  }
}
