/** The event outbox and its relay (internal/application/worker.go over
    internal/adapters/memory/ledger.go): leases, publish failures and crashes, any number of workers. */
module Relay {
  import opened Ports
  import opened Sorting
  import opened SearchIndex

  /** Entry ids stand for the source's event ids; payload None does not decode. */
  datatype Entry = Entry(id: string, payload: Option<Payload>, published: bool)

  const LEASE: nat := 30 * SECOND

  predicate Claimable(e: Entry, leases: map<string, int>, now: int) {
    !e.published && (e.id in leases ==> leases[e.id] <= now)
  }

  function Leased(leases: map<string, int>, ids: seq<string>, until: int): (r: map<string, int>)
    ensures forall id :: id in r <==> id in leases || id in ids
    ensures forall id :: id in r ==> r[id] == if id in ids then until else leases[id]
  {
    if ids == [] then leases else Leased(leases, ids[..|ids| - 1], until)[ids[|ids| - 1] := until]
  }

  function AsSet(ids: seq<string>): set<string> {
    set id | id in ids
  }

  function Published(entries: seq<Entry>, ids: seq<string>): seq<Entry> {
    seq(|entries|, i requires 0 <= i < |entries| => if entries[i].id in ids then entries[i].(published := true) else entries[i])
  }

  function EntryIDs(entries: seq<Entry>): (ids: seq<string>)
    ensures |ids| == |entries| && forall i :: 0 <= i < |ids| ==> ids[i] == entries[i].id
  {
    if entries == [] then [] else EntryIDs(entries[..|entries| - 1]) + [entries[|entries| - 1].id]
  }

  /* ---------- the step machine ---------- */

  /** A worker's batch: entries still to publish, and those the bus has taken. */
  datatype Hand = Hand(todo: seq<string>, done: seq<string>)

  /** accepted is what the bus holds; claims records every claim with its time. */
  datatype State = State(entries: seq<Entry>, leases: map<string, int>, clock: int,
                         accepted: set<string>, hands: map<nat, Hand>, claims: seq<(string, int)>)

  datatype Action =
    | Enqueue(e: Entry)
    | Tick(elapsed: nat)
    | Claim(worker: nat, ids: seq<string>)
    | Publish(worker: nat, ok: bool)
    | Mark(worker: nat)
    | Crash(worker: nat)

  predicate Holds(entries: seq<Entry>, id: string) {
    exists i :: 0 <= i < |entries| && entries[i].id == id
  }

  ghost predicate CanClaim(s: State, id: string) {
    exists i :: 0 <= i < |s.entries| && s.entries[i].id == id && Claimable(s.entries[i], s.leases, s.clock)
  }

  ghost predicate Step(s: State, a: Action, s': State) {
    match a
    case Enqueue(e) => !Holds(s.entries, e.id) && !e.published && s' == s.(entries := s.entries + [e])
    case Tick(elapsed) => s' == s.(clock := s.clock + elapsed)
    case Claim(worker, ids) =>
      && worker !in s.hands && Distinct(ids) && (forall id :: id in ids ==> CanClaim(s, id))
      && s' == s.(leases := Leased(s.leases, ids, s.clock + LEASE), hands := s.hands[worker := Hand(ids, [])],
                  claims := s.claims + ClaimsAt(ids, s.clock))
    case Publish(worker, ok) =>
      && worker in s.hands && s.hands[worker].todo != []
      && var h := s.hands[worker];
         // a failed publish may have reached the bus; it ends the batch
         && (s'.accepted == s.accepted + {h.todo[0]} || (!ok && s'.accepted == s.accepted))
         && s' == s.(accepted := s'.accepted,
                     hands := if ok then s.hands[worker := Hand(h.todo[1..], h.done + [h.todo[0]])] else s.hands - {worker})
    case Mark(worker) =>
      && worker in s.hands && s.hands[worker].todo == []
      && var ids := s.hands[worker].done;
         s' == s.(entries := Published(s.entries, ids), leases := s.leases - AsSet(ids), hands := s.hands - {worker})
    case Crash(worker) => worker in s.hands && s' == s.(hands := s.hands - {worker})
  }

  function ClaimsAt(ids: seq<string>, now: int): seq<(string, int)> {
    seq(|ids|, i requires 0 <= i < |ids| => (ids[i], now))
  }

  datatype Run = Run(states: seq<State>, actions: seq<Action>)
  {
    ghost predicate Valid() {
      && |states| == |actions| + 1
      && forall i :: 0 <= i < |actions| ==> Step(states[i], actions[i], states[i + 1])
    }

    function Last(): State
      requires |states| > 0
    {
      states[|states| - 1]
    }
  }

  ghost predicate Initial(s: State) {
    s.entries == [] && s.leases == map[] && s.hands == map[] && s.claims == []
  }

  /* ---------- invariants of every run ---------- */

  /** Published entries, and those a worker is about to mark, are with the bus. */
  ghost predicate MarkedIsAccepted(s: State) {
    && (forall i :: 0 <= i < |s.entries| && s.entries[i].published ==> s.entries[i].id in s.accepted)
    && (forall w, id :: w in s.hands && id in s.hands[w].done ==> id in s.accepted)
  }

  ghost predicate DistinctEntries(entries: seq<Entry>) {
    forall i, j :: 0 <= i < j < |entries| ==> entries[i].id != entries[j].id
  }

  /** No lease reaches further than one lease time from now. */
  ghost predicate LeasesAreShort(s: State) {
    forall id :: id in s.leases ==> s.leases[id] <= s.clock + LEASE
  }

  predicate IsPublished(entries: seq<Entry>, id: string) {
    exists i :: 0 <= i < |entries| && entries[i].id == id && entries[i].published
  }

  /** A claimed entry is published or still under a lease at least as long as that claim's. */
  ghost predicate ClaimsAreCovered(s: State) {
    forall k :: 0 <= k < |s.claims| ==>
      || IsPublished(s.entries, s.claims[k].0)
      || (s.claims[k].0 in s.leases && s.claims[k].1 + LEASE <= s.leases[s.claims[k].0])
  }

  /** Two claims of one entry are at least a lease apart. */
  ghost predicate ClaimsAreSpaced(s: State) {
    forall j, k :: 0 <= j < k < |s.claims| && s.claims[j].0 == s.claims[k].0 ==> s.claims[j].1 + LEASE <= s.claims[k].1
  }

  /** Workers hold entries of the table only. */
  ghost predicate HandsAreEntries(s: State) {
    forall w, id :: w in s.hands && (id in s.hands[w].todo || id in s.hands[w].done) ==> Holds(s.entries, id)
  }

  ghost predicate Healthy(s: State) {
    MarkedIsAccepted(s) && HandsAreEntries(s) && DistinctEntries(s.entries) && LeasesAreShort(s) && ClaimsAreCovered(s) && ClaimsAreSpaced(s)
  }

  lemma ClaimableIsFree(s: State, id: string, k: nat)
    requires Healthy(s) && CanClaim(s, id) && k < |s.claims| && s.claims[k].0 == id
    ensures !IsPublished(s.entries, id) && s.claims[k].1 + LEASE <= s.clock
  {
    var i :| 0 <= i < |s.entries| && s.entries[i].id == id && Claimable(s.entries[i], s.leases, s.clock);
    forall j | 0 <= j < |s.entries| && s.entries[j].id == id ensures j == i {
    }
  }

  lemma ClaimKeepsHealthy(s: State, a: Action, s': State)
    requires a.Claim? && Healthy(s) && Step(s, a, s')
    ensures Healthy(s')
  {
    assert forall j, k :: |s.claims| <= j < k < |s'.claims| ==> s'.claims[j].0 != s'.claims[k].0;
    forall j, k | 0 <= j < k < |s'.claims| && s'.claims[j].0 == s'.claims[k].0
      ensures s'.claims[j].1 + LEASE <= s'.claims[k].1
    {
      if k >= |s.claims| {
        ClaimableIsFree(s, s'.claims[k].0, j);
      }
    }
    forall k | 0 <= k < |s'.claims|
      ensures IsPublished(s'.entries, s'.claims[k].0)
              || (s'.claims[k].0 in s'.leases && s'.claims[k].1 + LEASE <= s'.leases[s'.claims[k].0])
    {
      if k < |s.claims| {
        assert s'.claims[k] == s.claims[k];
        if s.claims[k].0 in a.ids {
          ClaimableIsFree(s, s.claims[k].0, k);
        }
      } else {
        assert s'.claims[k].0 == a.ids[k - |s.claims|];
      }
    }
  }

  lemma MarkingPublishes(entries: seq<Entry>, ids: seq<string>, id: string)
    ensures Holds(Published(entries, ids), id) <==> Holds(entries, id)
    ensures IsPublished(Published(entries, ids), id) <==> IsPublished(entries, id) || (id in ids && Holds(entries, id))
  {
    var entries' := Published(entries, ids);
    forall i | 0 <= i < |entries| ensures entries'[i].id == entries[i].id {
    }
    if IsPublished(entries, id) {
      var i :| 0 <= i < |entries| && entries[i].id == id && entries[i].published;
      assert entries'[i].id == id && entries'[i].published;
    }
    if Holds(entries, id) {
      var i :| 0 <= i < |entries| && entries[i].id == id;
      assert entries'[i].id == id && (id in ids ==> entries'[i].published);
    }
  }

  lemma MarkKeepsHealthy(s: State, a: Action, s': State)
    requires a.Mark? && Healthy(s) && Step(s, a, s')
    ensures Healthy(s')
  {
    var ids := s.hands[a.worker].done;
    forall k | 0 <= k < |s'.claims|
      ensures IsPublished(s'.entries, s'.claims[k].0)
              || (s'.claims[k].0 in s'.leases && s'.claims[k].1 + LEASE <= s'.leases[s'.claims[k].0])
    {
      MarkingPublishes(s.entries, ids, s.claims[k].0);
    }
    forall w, id | w in s'.hands && (id in s'.hands[w].todo || id in s'.hands[w].done) ensures Holds(s'.entries, id) {
      MarkingPublishes(s.entries, ids, id);
    }
  }

  lemma EnqueueKeepsHealthy(s: State, a: Action, s': State)
    requires a.Enqueue? && Healthy(s) && Step(s, a, s')
    ensures Healthy(s')
  {
    forall i | 0 <= i < |s.entries| ensures s'.entries[i] == s.entries[i] && s.entries[i].id != a.e.id {
    }
    forall id ensures Holds(s.entries, id) ==> Holds(s'.entries, id)
      ensures IsPublished(s.entries, id) ==> IsPublished(s'.entries, id)
    {
    }
  }

  lemma StepKeepsHealthy(s: State, a: Action, s': State)
    requires Healthy(s) && Step(s, a, s')
    ensures Healthy(s')
  {
    match a
    case Enqueue(_) => EnqueueKeepsHealthy(s, a, s');
    case Claim(_, _) => ClaimKeepsHealthy(s, a, s');
    case Mark(_) => MarkKeepsHealthy(s, a, s');
    case _ =>
  }

  /** Whatever publishes fail, workers crash or overlap: only entries the bus holds are marked, and
      no entry is claimed twice within a lease. */
  lemma {:induction false} RunKeepsHealthy(run: Run)
    requires run.Valid() && Initial(run.states[0])
    ensures Healthy(run.Last())
    decreases |run.actions|
  {
    if run.actions != [] {
      var n := |run.actions|;
      RunKeepsHealthy(Run(run.states[..n], run.actions[..n - 1]));
      StepKeepsHealthy(run.states[n - 1], run.actions[n - 1], run.states[n]);
    }
  }

  /** Nothing is lost: in every reachable state each unpublished entry can be claimed, at the
      latest once a lease time has passed without another claim. */
  lemma UnpublishedComesBack(run: Run, i: nat, elapsed: nat)
    requires run.Valid() && Initial(run.states[0]) && i < |run.Last().entries| && !run.Last().entries[i].published
    requires elapsed >= LEASE
    ensures CanClaim(run.Last().(clock := run.Last().clock + elapsed), run.Last().entries[i].id)
  {
    RunKeepsHealthy(run);
    var later := run.Last().(clock := run.Last().clock + elapsed);
    assert Claimable(later.entries[i], later.leases, later.clock);
  }

  /** Entries stay, with their payload, and a published one stays published. */
  lemma {:induction false} EntriesPersist(run: Run, k: nat, i: nat)
    requires run.Valid() && k < |run.states| && i < |run.states[k].entries|
    ensures i < |run.Last().entries| && run.Last().entries[i].id == run.states[k].entries[i].id
    ensures run.Last().entries[i].payload == run.states[k].entries[i].payload
    ensures run.states[k].entries[i].published ==> run.Last().entries[i].published
    decreases |run.actions|
  {
    var n := |run.actions|;
    if k < n {
      EntriesPersist(Run(run.states[..n], run.actions[..n - 1]), k, i);
      assert Step(run.states[n - 1], run.actions[n - 1], run.states[n]);
    }
  }

  ghost function Extend(run: Run, a: Action, s: State): Run {
    Run(run.states + [s], run.actions + [a])
  }

  lemma ExtendIsValid(run: Run, a: Action, s: State)
    requires run.Valid() && Step(run.Last(), a, s)
    ensures Extend(run, a, s).Valid() && Extend(run, a, s).Last() == s && Extend(run, a, s).states[0] == run.states[0]
  {
    var n, longer := |run.actions|, Extend(run, a, s);
    forall i | 0 <= i < n + 1 ensures Step(longer.states[i], longer.actions[i], longer.states[i + 1]) {
      if i < n {
        assert longer.states[i] == run.states[i] && longer.states[i + 1] == run.states[i + 1];
      }
    }
  }

  /* ---------- the relay ---------- */

  function Free(leases: map<string, int>, now: int): Entry -> bool {
    e => Claimable(e, leases, now)
  }

  /** The leases after taking a batch one entry at a time. */
  function Taken(leases: map<string, int>, batch: seq<Entry>, until: int): map<string, int> {
    if batch == [] then leases else Taken(leases, batch[..|batch| - 1], until)[batch[|batch| - 1].id := until]
  }

  lemma {:induction false} TakenIsLeased(leases: map<string, int>, batch: seq<Entry>, until: int)
    ensures Taken(leases, batch, until) == Leased(leases, EntryIDs(batch), until)
  {
    if batch != [] {
      TakenIsLeased(leases, batch[..|batch| - 1], until);
      assert EntryIDs(batch) == EntryIDs(batch[..|batch| - 1]) + [batch[|batch| - 1].id];
    }
  }

  lemma {:induction false} TakenElsewhere(leases: map<string, int>, batch: seq<Entry>, until: int, e: Entry, now: int)
    requires forall k :: 0 <= k < |batch| ==> batch[k].id != e.id
    ensures Claimable(e, Taken(leases, batch, until), now) == Claimable(e, leases, now)
  {
    if batch != [] {
      TakenElsewhere(leases, batch[..|batch| - 1], until, e, now);
    }
  }

  lemma ClaimStep(entries: seq<Entry>, i: nat, leases: map<string, int>, now: int, batch: seq<Entry>)
    requires DistinctEntries(entries) && i < |entries| && batch == Filter(entries[..i], Free(leases, now))
    ensures Claimable(entries[i], Taken(leases, batch, now + LEASE), now) == Claimable(entries[i], leases, now)
    ensures Taken(leases, batch + [entries[i]], now + LEASE) == Taken(leases, batch, now + LEASE)[entries[i].id := now + LEASE]
    ensures Filter(entries[..i + 1], Free(leases, now)) == batch + if Claimable(entries[i], leases, now) then [entries[i]] else []
  {
    FilterStep(entries, i, Free(leases, now));
    FilterMembers(entries[..i], Free(leases, now));
    forall k | 0 <= k < |batch| ensures batch[k].id != entries[i].id {
      assert batch[k] in entries[..i];
    }
    TakenElsewhere(leases, batch, now + LEASE, entries[i], now);
    assert (batch + [entries[i]])[..|batch|] == batch;
  }

  /** The entries that a claim takes: the first claimable ones, in outbox order. */
  function Batch(entries: seq<Entry>, leases: map<string, int>, now: int, limit: int): seq<Entry> {
    Cut(Filter(entries, Free(leases, now)), if limit <= 0 then 10 else limit)
  }

  lemma BatchIsFull(entries: seq<Entry>, leases: map<string, int>, now: int, limit: int, i: nat)
    requires i <= |entries| && |Filter(entries[..i], Free(leases, now))| == if limit <= 0 then 10 else limit
    ensures Filter(entries[..i], Free(leases, now)) == Batch(entries, leases, now, limit)
  {
    FilterPrefix(entries, i, Free(leases, now));
  }

  lemma BatchIsAll(entries: seq<Entry>, leases: map<string, int>, now: int, limit: int)
    requires |Filter(entries[..|entries|], Free(leases, now))| < if limit <= 0 then 10 else limit
    ensures Filter(entries[..|entries|], Free(leases, now)) == Batch(entries, leases, now, limit)
  {
    assert entries[..|entries|] == entries;
  }

  /** The claim loop: an entry is leased and taken as soon as it is seen to be claimable. */
  method LeaseFirst(entries: seq<Entry>, leases0: map<string, int>, now: int, limit: int) returns (batch: seq<Entry>, leases: map<string, int>)
    requires DistinctEntries(entries)
    ensures batch == Batch(entries, leases0, now, limit)
    ensures leases == Taken(leases0, batch, now + LEASE)
  {
    var max := if limit <= 0 then 10 else limit;
    batch, leases := [], leases0;
    for i := 0 to |entries|
      invariant batch == Filter(entries[..i], Free(leases0, now)) && |batch| < max
      invariant leases == Taken(leases0, batch, now + LEASE)
    {
      var e := entries[i];
      ClaimStep(entries, i, leases0, now, batch);
      if Claimable(e, leases, now) {
        batch, leases := batch + [e], leases[e.id := now + LEASE];
        if |batch| >= max {
          BatchIsFull(entries, leases0, now, limit, i + 1);
          return;
        }
      }
    }
    BatchIsAll(entries, leases0, now, limit);
  }

  /** An event bus whose publishes may fail, with or without effect; a reliable one never fails.
      calls keeps every publish with its answer. */
  class Bus {
    const reliable: bool
    var accepted: set<string>
    ghost var calls: seq<(string, bool)>

    constructor (reliable: bool)
      ensures this.reliable == reliable && accepted == {} && calls == []
    {
      this.reliable, accepted, calls := reliable, {}, [];
    }

    method Publish(id: string) returns (ok: bool)
      modifies this`accepted, this`calls
      ensures calls == old(calls) + [(id, ok)]
      ensures reliable ==> ok
      ensures accepted == old(accepted) + {id} || (!ok && accepted == old(accepted))
    {
      ok := true;
      if !reliable {
        ok :| true;
      }
      var reached: bool :| true;
      if ok || reached {
        accepted := accepted + {id};
      }
      calls := calls + [(id, ok)];
    }
  }

  class Outbox {
    var entries: seq<Entry>
    var leases: map<string, int>
    var clock: int
    ghost var hands: map<nat, Hand>
    ghost var claims: seq<(string, int)>

    constructor ()
      ensures entries == [] && leases == map[] && hands == map[] && claims == []
    {
      entries, leases, clock, hands, claims := [], map[], 0, map[], [];
    }

    ghost function View(bus: Bus): State
      reads this, bus
    {
      State(entries, leases, clock, bus.accepted, hands, claims)
    }

    /** Leases the first claimable entries, in outbox order. */
    method ClaimOutbox(limit: int, ghost worker: nat) returns (batch: seq<Entry>)
      requires DistinctEntries(entries)
      modifies this`leases, this`hands, this`claims
      ensures batch == Batch(entries, old(leases), clock, limit)
      ensures leases == Taken(old(leases), batch, clock + LEASE)
      ensures hands == old(hands)[worker := Hand(EntryIDs(batch), [])] && claims == old(claims) + ClaimsAt(EntryIDs(batch), clock)
    {
      var held;
      batch, held := LeaseFirst(entries, leases, clock, limit);
      ghost var ids := EntryIDs(batch);
      leases, hands, claims := held, hands[worker := Hand(ids, [])], claims + ClaimsAt(ids, clock);
    }

    method MarkOutboxPublished(ids: seq<string>)
      modifies this`entries, this`leases
      ensures entries == Published(old(entries), ids) && leases == old(leases) - AsSet(ids)
    {
      leases := leases - AsSet(ids);
      ghost var was := entries;
      for i := 0 to |entries|
        invariant |entries| == |was| && entries[..i] == Published(was, ids)[..i] && entries[i..] == was[i..]
        modifies this`entries
      {
        if entries[i].id in ids {
          entries := entries[i := entries[i].(published := true)];
        }
      }
    }
  }

  /** A batch can be claimed: its ids are distinct and each has a claimable entry. */
  lemma BatchIsClaimable(s: State, limit: int)
    requires DistinctEntries(s.entries)
    ensures var ids := EntryIDs(Batch(s.entries, s.leases, s.clock, limit));
            Distinct(ids) && forall id :: id in ids ==> CanClaim(s, id)
  {
    var free := Free(s.leases, s.clock);
    var all := Filter(s.entries, free);
    var batch := Batch(s.entries, s.leases, s.clock, limit);
    FilterMembers(s.entries, free);
    var differ := (x: Entry, y: Entry) => x.id != y.id;
    assert SortedBy(differ, s.entries);
    FilterKeepsPairs(s.entries, free, differ);
    assert forall i, j :: 0 <= i < j < |batch| ==> differ(all[i], all[j]) && batch[i] == all[i] && batch[j] == all[j];
    forall k | 0 <= k < |batch| ensures CanClaim(s, batch[k].id) {
      assert batch[k] == all[k] && all[k] in s.entries;
    }
  }

  /** The event of an entry is in the inbox, or there was nothing to project. */
  ghost predicate Projected(e: Entry, projector: Projector)
    reads projector
  {
    || Ignored(e.payload, projector.inbox)
    || (e.payload.value.resourceID != "" && projector.Find(e.payload.value.orgID, e.payload.value.resourceID).None?)
  }

  /** `run` leads to the present state and continues `run0`. */
  ghost predicate Leads(run0: Run, run: Run, outbox: Outbox, bus: Bus)
    reads outbox, bus
  {
    run0.Valid() && run.Valid() && run.Last() == outbox.View(bus) && run.states[0] == run0.states[0]
  }

  function Acknowledged(ids: seq<string>, n: nat): (calls: seq<(string, bool)>)
    requires n <= |ids|
  {
    seq(n, i requires 0 <= i < n => (ids[i], true))
  }

  /** The first n events were acknowledged; the next one, if there is one, failed. */
  function Answers(ids: seq<string>, n: nat): (calls: seq<(string, bool)>)
    requires n <= |ids|
  {
    Acknowledged(ids, n) + if n < |ids| then [(ids[n], false)] else []
  }

  /** The first n entries are with the bus, and in the index unless a projection failed. */
  ghost predicate RelayedTo(batch: seq<Entry>, n: nat, bus: Bus, projector: Projector, indexFails: nat -> bool, inboxFails: nat -> bool)
    requires n <= |batch|
    reads bus, projector
  {
    && (forall k :: 0 <= k < n ==> batch[k].id in bus.accepted)
    && (NeverFail(indexFails, inboxFails) ==> forall k :: 0 <= k < n ==> Projected(batch[k], projector))
  }

  /** One pass of the relay for one worker: claim, publish and project one by one, then mark the
      whole batch.  A failed publish, after n acknowledged ones, abandons the batch unmarked; failed
      projections are ignored. */
  method RelayOnce(outbox: Outbox, bus: Bus, projector: Projector, limit: int, indexFails: nat -> bool, inboxFails: nat -> bool,
                   ghost worker: nat, ghost run0: Run)
    returns (ok: bool, ghost run: Run, ghost n: nat)
    requires DistinctEntries(outbox.entries) && projector.Valid() && worker !in outbox.hands && Leads(run0, run0, outbox, bus)
    modifies outbox, bus`accepted, bus`calls, projector`inbox, projector`history, projector.index
    ensures projector.Valid() && old(projector.inbox) <= projector.inbox
    ensures Leads(run0, run, outbox, bus) && outbox.hands == old(outbox.hands)
    ensures bus.reliable ==> ok
    ensures var batch := Batch(old(outbox.entries), old(outbox.leases), old(outbox.clock), limit);
            && n <= |batch| && (ok <==> n == |batch|)
            && bus.calls == old(bus.calls) + Answers(EntryIDs(batch), n)
            && RelayedTo(batch, n, bus, projector, indexFails, inboxFails)
            && outbox.entries == if ok then Published(old(outbox.entries), EntryIDs(batch)) else old(outbox.entries)
  {
    ghost var hands := outbox.hands;
    var batch;
    batch, run := Take(outbox, bus, limit, worker, run0);
    ok, run, n := PublishBatch(outbox, bus, projector, batch, indexFails, inboxFails, worker, run);
    if ok {
      run := MarkBatch(outbox, bus, batch, worker, run);
    }
    HandedBack(hands, worker, Hand(EntryIDs(batch), []));
    HandedBack(hands, worker, Hand([], EntryIDs(batch)));
  }

  ghost predicate NeverFail(indexFails: nat -> bool, inboxFails: nat -> bool) {
    forall k: nat :: !indexFails(k) && !inboxFails(k)
  }

  method Take(outbox: Outbox, bus: Bus, limit: int, ghost worker: nat, ghost run0: Run) returns (batch: seq<Entry>, ghost run: Run)
    requires DistinctEntries(outbox.entries) && worker !in outbox.hands && Leads(run0, run0, outbox, bus)
    modifies outbox`leases, outbox`hands, outbox`claims
    ensures batch == Batch(outbox.entries, old(outbox.leases), outbox.clock, limit)
    ensures Leads(run0, run, outbox, bus) && outbox.hands == old(outbox.hands)[worker := Hand(EntryIDs(batch), [])]
  {
    ghost var before := outbox.View(bus);
    BatchIsClaimable(before, limit);
    batch := outbox.ClaimOutbox(limit, worker);
    ghost var action := Claim(worker, EntryIDs(batch));
    TakingIsAStep(before, worker, batch, outbox.View(bus));
    ExtendIsValid(run0, action, outbox.View(bus));
    run := Extend(run0, action, outbox.View(bus));
  }

  lemma TakingIsAStep(s: State, worker: nat, batch: seq<Entry>, s': State)
    requires worker !in s.hands && Distinct(EntryIDs(batch)) && forall id :: id in EntryIDs(batch) ==> CanClaim(s, id)
    requires s' == s.(leases := Taken(s.leases, batch, s.clock + LEASE), hands := s.hands[worker := Hand(EntryIDs(batch), [])],
                      claims := s.claims + ClaimsAt(EntryIDs(batch), s.clock))
    ensures Step(s, Claim(worker, EntryIDs(batch)), s')
  {
    TakenIsLeased(s.leases, batch, s.clock + LEASE);
  }

  method MarkBatch(outbox: Outbox, bus: Bus, batch: seq<Entry>, ghost worker: nat, ghost run0: Run) returns (ghost run: Run)
    requires Leads(run0, run0, outbox, bus) && worker in outbox.hands && outbox.hands[worker] == Hand([], EntryIDs(batch))
    modifies outbox`entries, outbox`leases, outbox`hands
    ensures Leads(run0, run, outbox, bus) && outbox.hands == old(outbox.hands) - {worker}
    ensures outbox.entries == Published(old(outbox.entries), EntryIDs(batch))
  {
    ghost var before := outbox.View(bus);
    outbox.MarkOutboxPublished(EntryIDs(batch));
    outbox.hands := outbox.hands - {worker};
    assert Step(before, Mark(worker), outbox.View(bus));
    ExtendIsValid(run0, Mark(worker), outbox.View(bus));
    run := Extend(run0, Mark(worker), outbox.View(bus));
  }

  lemma NextInHand(ids: seq<string>, i: nat)
    requires i < |ids|
    ensures ids[i..][1..] == ids[i + 1..] && ids[..i] + [ids[i]] == ids[..i + 1]
  {
  }

  /** The publish loop of a pass. */
  method PublishBatch(outbox: Outbox, bus: Bus, projector: Projector, batch: seq<Entry>, indexFails: nat -> bool, inboxFails: nat -> bool,
                      ghost worker: nat, ghost run0: Run)
    returns (ok: bool, ghost run: Run, ghost n: nat)
    requires projector.Valid() && Leads(run0, run0, outbox, bus)
    requires worker in outbox.hands && outbox.hands[worker] == Hand(EntryIDs(batch), [])
    modifies outbox`hands, bus`accepted, bus`calls, projector`inbox, projector`history, projector.index
    ensures projector.Valid() && old(projector.inbox) <= projector.inbox && Leads(run0, run, outbox, bus)
    ensures bus.reliable ==> ok
    ensures ok ==> outbox.hands == old(outbox.hands)[worker := Hand([], EntryIDs(batch))]
    ensures !ok ==> outbox.hands == old(outbox.hands) - {worker}
    ensures n <= |batch| && (ok <==> n == |batch|)
    ensures bus.calls == old(bus.calls) + Answers(EntryIDs(batch), n)
    ensures RelayedTo(batch, n, bus, projector, indexFails, inboxFails)
  {
    run, n := run0, 0;
    ghost var ids := EntryIDs(batch);
    ghost var hands := outbox.hands;
    assert ids[0..] == ids && ids[..0] == [];
    for i := 0 to |batch|
      invariant projector.Valid() && old(projector.inbox) <= projector.inbox && Leads(run0, run, outbox, bus)
      invariant outbox.hands == hands[worker := Hand(ids[i..], ids[..i])]
      invariant n == i && Heard(old(bus.calls), bus.calls, ids, n)
      invariant RelayedTo(batch, n, bus, projector, indexFails, inboxFails)
    {
      ghost var calls := bus.calls;
      OneMoreHeard(old(bus.calls), calls, ids, n);
      ok, run := PublishNext(outbox, bus, projector, batch, i, indexFails, inboxFails, worker, run);
      if !ok {
        return;
      }
      n := n + 1;
    }
    ok := true;
    assert ids[|batch|..] == [] && ids[..|batch|] == ids;
  }

  ghost predicate Heard(calls: seq<(string, bool)>, calls': seq<(string, bool)>, ids: seq<string>, n: nat)
    requires n <= |ids|
  {
    calls' == calls + Acknowledged(ids, n)
  }

  lemma OneMoreHeard(calls: seq<(string, bool)>, calls': seq<(string, bool)>, ids: seq<string>, n: nat)
    requires n < |ids| && Heard(calls, calls', ids, n)
    ensures Heard(calls, calls' + [(ids[n], true)], ids, n + 1)
    ensures calls' + [(ids[n], false)] == calls + Answers(ids, n)
  {
    assert Acknowledged(ids, n + 1) == Acknowledged(ids, n) + [(ids[n], true)];
  }

  lemma HandedBack(hands: map<nat, Hand>, worker: nat, h: Hand)
    requires worker !in hands
    ensures hands[worker := h] - {worker} == hands
  {
  }

  /** Publishes and projects the next entry of the batch. */
  method PublishNext(outbox: Outbox, bus: Bus, projector: Projector, batch: seq<Entry>, i: nat, indexFails: nat -> bool, inboxFails: nat -> bool,
                     ghost worker: nat, ghost run0: Run)
    returns (ok: bool, ghost run: Run)
    requires projector.Valid() && Leads(run0, run0, outbox, bus) && i < |batch|
    requires worker in outbox.hands && outbox.hands[worker] == Hand(EntryIDs(batch)[i..], EntryIDs(batch)[..i])
    requires RelayedTo(batch, i, bus, projector, indexFails, inboxFails)
    modifies outbox`hands, bus`accepted, bus`calls, projector`inbox, projector`history, projector.index
    ensures projector.Valid() && old(projector.inbox) <= projector.inbox && Leads(run0, run, outbox, bus)
    ensures (bus.reliable ==> ok) && bus.calls == old(bus.calls) + [(batch[i].id, ok)]
    ensures ok ==> outbox.hands == old(outbox.hands)[worker := Hand(EntryIDs(batch)[i + 1..], EntryIDs(batch)[..i + 1])]
    ensures !ok ==> outbox.hands == old(outbox.hands) - {worker}
    ensures RelayedTo(batch, if ok then i + 1 else i, bus, projector, indexFails, inboxFails)
  {
    NextInHand(EntryIDs(batch), i);
    ok, run := PublishOne(outbox, bus, batch[i].id, worker, run0);
    if ok {
      ProjectEntry(projector, batch[i], indexFails(i), inboxFails(i));
    }
  }

  /** Projects one relayed event; an error is only logged. */
  method ProjectEntry(projector: Projector, e: Entry, indexFails: bool, inboxFails: bool)
    requires projector.Valid()
    modifies projector`inbox, projector`history, projector.index
    ensures projector.Valid() && old(projector.inbox) <= projector.inbox
    ensures !indexFails && !inboxFails ==> Projected(e, projector)
    ensures forall x :: old(Projected(x, projector)) ==> Projected(x, projector)
  {
    var _ := projector.ProjectPayload(e.payload, indexFails, inboxFails);
  }

  method PublishOne(outbox: Outbox, bus: Bus, id: string, ghost worker: nat, ghost run0: Run) returns (ok: bool, ghost run: Run)
    requires Leads(run0, run0, outbox, bus)
    requires worker in outbox.hands && outbox.hands[worker].todo != [] && outbox.hands[worker].todo[0] == id
    modifies outbox`hands, bus`accepted, bus`calls
    ensures bus.calls == old(bus.calls) + [(id, ok)]
    ensures Leads(run0, run, outbox, bus) && old(bus.accepted) <= bus.accepted
    ensures (bus.reliable ==> ok) && (ok ==> id in bus.accepted)
    ensures !ok ==> outbox.hands == old(outbox.hands) - {worker}
    ensures ok ==> var h := old(outbox.hands)[worker];
              outbox.hands == old(outbox.hands)[worker := Hand(h.todo[1..], h.done + [id])]
  {
    ghost var before := outbox.View(bus);
    ok := bus.Publish(id);
    ghost var h := outbox.hands[worker];
    outbox.hands := if ok then outbox.hands[worker := Hand(h.todo[1..], h.done + [id])] else outbox.hands - {worker};
    assert Step(before, Publish(worker, ok), outbox.View(bus));
    ExtendIsValid(run0, Publish(worker, ok), outbox.View(bus));
    run := Extend(run0, Publish(worker, ok), outbox.View(bus));
  }
}
