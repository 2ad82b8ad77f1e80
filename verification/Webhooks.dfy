/** Webhook delivery of internal/changes/changes.go: retries, backoff and dead-lettering driven by
    nothing but a per-organization delivery log that keeps its last thousand entries.

    The step machine keeps the log, the full history and the posts really sent; the service's
    methods, up to the pass over the change feed, are runs of it. */
module Webhooks {
  import opened Ports
  import opened Sorting
  import ChangeFeed

  datatype DeliveryStatus = Pending | Delivered | DuplicateIgnored | Dead

  datatype Pair = Pair(subscriptionID: string, eventID: string)

  datatype Attempt = Attempt(pair: Pair, attempt: nat, success: bool, status: DeliveryStatus,
                             nextAttempt: Option<int>, createdAt: int)

  /** One POST that was really sent: when it started and when its outcome was recorded. */
  datatype Post = Post(pair: Pair, attempt: nat, success: bool, started: int, ended: int)

  const MAX_DELIVERY_LOG: nat := 1000

  function EffectiveMax(maxAttempts: int): (n: nat)
    ensures n > 0
  {
    if maxAttempts <= 0 then 8 else maxAttempts
  }

  function Trim(log: seq<Attempt>): seq<Attempt> {
    if |log| > MAX_DELIVERY_LOG then log[|log| - MAX_DELIVERY_LOG..] else log
  }

  /** The entry RecordDelivery writes. */
  function Recorded(max: int, pair: Pair, attempt: nat, success: bool, now: int): Attempt {
    if success then Attempt(pair, attempt, true, Delivered, None, now)
    else if attempt >= EffectiveMax(max) then Attempt(pair, attempt, false, Dead, None, now)
    else Attempt(pair, attempt, false, Pending, Some(now + BackoffSeconds(attempt) * SECOND), now)
  }

  function Duplicate(pair: Pair, now: int): Attempt {
    Attempt(pair, 0, true, DuplicateIgnored, None, now)
  }

  /* ---------- what the protocol reads back from the log ---------- */

  function HasSuccess(log: seq<Attempt>, pair: Pair): bool {
    exists i :: 0 <= i < |log| && log[i].pair == pair && log[i].success
  }

  function FailedCount(log: seq<Attempt>, pair: Pair): nat {
    if log == [] then 0
    else
      var n, d := FailedCount(log[..|log| - 1], pair), log[|log| - 1];
      if d.pair == pair && !d.success && d.status != DuplicateIgnored && d.attempt > n then d.attempt else n
  }

  function NextAttemptAt(log: seq<Attempt>, pair: Pair): Option<int> {
    if log == [] then None
    else
      var latest, d := NextAttemptAt(log[..|log| - 1], pair), log[|log| - 1];
      if d.pair == pair && d.nextAttempt.Some? && (latest.None? || d.nextAttempt.value > latest.value) then d.nextAttempt else latest
  }

  /** A push may be sent now: no success yet, no waiting time left, attempts left. */
  predicate MayPost(max: int, log: seq<Attempt>, pair: Pair, now: int) {
    && !HasSuccess(log, pair)
    && (NextAttemptAt(log, pair).Some? ==> NextAttemptAt(log, pair).value <= now)
    && FailedCount(log, pair) + 1 <= EffectiveMax(max)
  }

  /* ---------- runs ---------- */

  /** log is what the service keeps, history everything ever recorded, posts everything ever sent. */
  datatype State = State(log: seq<Attempt>, history: seq<Attempt>, posts: seq<Post>, clock: int)

  datatype Action =
    | Tick(elapsed: nat)
    | Push(pair: Pair, success: bool, duration: nat)
    | RecordSuccess(pair: Pair)

  function Append(s: State, d: Attempt): State {
    s.(log := Trim(s.log + [d]), history := s.history + [d])
  }

  /** One push: nothing but a duplicate mark after a success, nothing at all while waiting or when
      dead, otherwise a POST whose outcome is recorded. */
  function Pushed(max: int, s: State, pair: Pair, success: bool, duration: nat): State {
    if HasSuccess(s.log, pair) then Append(s, Duplicate(pair, s.clock))
    else if !MayPost(max, s.log, pair, s.clock) then s
    else
      var attempt, ended := FailedCount(s.log, pair) + 1, s.clock + duration;
      Append(s, Recorded(max, pair, attempt, success, ended)).(
        posts := s.posts + [Post(pair, attempt, success, s.clock, ended)], clock := ended)
  }

  /** Replays and locally signed deliveries record a success without sending anything. */
  function Next(max: int, s: State, a: Action): State {
    match a
    case Tick(elapsed) => s.(clock := s.clock + elapsed)
    case Push(pair, success, duration) => Pushed(max, s, pair, success, duration)
    case RecordSuccess(pair) => Append(s, Recorded(max, pair, 1, true, s.clock))
  }

  function Run(max: int, s: State, actions: seq<Action>): State {
    if actions == [] then s
    else Next(max, Run(max, s, actions[..|actions| - 1]), actions[|actions| - 1])
  }

  function PostsOf(posts: seq<Post>, pair: Pair): seq<Post> {
    Filter(posts, (p: Post) => p.pair == pair)
  }

  /** The retry protocol as a subscriber sees it: posts are numbered from one without gaps, at most
      max of them, each sent no sooner than the backoff of the one before, and none after a success. */
  ghost predicate WellSpaced(max: int, q: seq<Post>) {
    && |q| <= EffectiveMax(max)
    && (forall i :: 0 <= i < |q| ==> q[i].attempt == i + 1 && q[i].started <= q[i].ended)
    && (forall i :: 0 <= i < |q| - 1 ==> !q[i].success)
    && (forall i, j :: 0 <= i < |q| && j == i + 1 < |q| ==> q[j].started >= q[i].ended + BackoffSeconds(i + 1) * SECOND)
  }

  /** How the whole history remembers the posts of a pair. */
  ghost predicate Remembers(max: int, history: seq<Attempt>, pair: Pair, q: seq<Post>) {
    && (q != [] && q[|q| - 1].success ==> HasSuccess(history, pair))
    && (!HasSuccess(history, pair) ==> FailedCount(history, pair) == |q|)
    && (q != [] && !q[|q| - 1].success && |q| < EffectiveMax(max) ==>
          NotBefore(NextAttemptAt(history, pair), q[|q| - 1].ended + BackoffSeconds(|q|) * SECOND))
  }

  predicate NotBefore(t: Option<int>, bound: int) {
    t.Some? && t.value >= bound
  }

  ghost predicate Invariant(max: int, s: State, pair: Pair) {
    var q := PostsOf(s.posts, pair);
    && WellSpaced(max, q) && Remembers(max, s.history, pair, q)
  }

  lemma HistoryAppend(history: seq<Attempt>, d: Attempt, pair: Pair)
    ensures HasSuccess(history + [d], pair) <==> HasSuccess(history, pair) || (d.pair == pair && d.success)
    ensures FailedCount(history + [d], pair) ==
              if d.pair == pair && !d.success && d.status != DuplicateIgnored && d.attempt > FailedCount(history, pair)
              then d.attempt else FailedCount(history, pair)
    ensures NextAttemptAt(history, pair).Some? ==> NotBefore(NextAttemptAt(history + [d], pair), NextAttemptAt(history, pair).value)
    ensures d.pair == pair && d.nextAttempt.Some? ==> NotBefore(NextAttemptAt(history + [d], pair), d.nextAttempt.value)
  {
    var h := history + [d];
    assert h[..|h| - 1] == history;
    assert forall i :: 0 <= i < |history| ==> h[i] == history[i];
    assert h[|history|] == d;
  }

  lemma PostsAppend(posts: seq<Post>, p: Post, pair: Pair)
    ensures PostsOf(posts + [p], pair) == PostsOf(posts, pair) + if p.pair == pair then [p] else []
  {
    assert (posts + [p])[..|posts|] == posts;
  }

  /** Recording anything but a failed post keeps the invariant. */
  lemma SuccessKeepsInvariant(max: int, s: State, d: Attempt, pair: Pair)
    requires Invariant(max, s, pair) && d.success
    ensures Invariant(max, Append(s, d), pair)
  {
    HistoryAppend(s.history, d, pair);
  }

  lemma NextPostIsSpaced(max: int, q: seq<Post>, p: Post)
    requires WellSpaced(max, q) && (q != [] ==> !q[|q| - 1].success)
    requires p.attempt == |q| + 1 <= EffectiveMax(max) && p.started <= p.ended
    requires q != [] ==> p.started >= q[|q| - 1].ended + BackoffSeconds(|q|) * SECOND
    ensures WellSpaced(max, q + [p])
  {
  }

  lemma PostIsRemembered(max: int, history: seq<Attempt>, pair: Pair, q: seq<Post>, p: Post)
    requires Remembers(max, history, pair, q) && !HasSuccess(history, pair)
    requires p.attempt == |q| + 1
    ensures Remembers(max, history + [Recorded(max, pair, p.attempt, p.success, p.ended)], pair, q + [p])
  {
    HistoryAppend(history, Recorded(max, pair, p.attempt, p.success, p.ended), pair);
  }

  lemma OtherPostIsIgnored(max: int, history: seq<Attempt>, pair: Pair, q: seq<Post>, d: Attempt)
    requires Remembers(max, history, pair, q) && d.pair != pair
    ensures Remembers(max, history + [d], pair, q)
  {
    HistoryAppend(history, d, pair);
  }

  /** When a post may be sent, the log shows every earlier post of the pair as a failure now due. */
  lemma PostIsDue(max: int, log: seq<Attempt>, pair: Pair, now: int, q: seq<Post>)
    requires WellSpaced(max, q) && Remembers(max, log, pair, q) && MayPost(max, log, pair, now)
    ensures q != [] ==> !q[|q| - 1].success && now >= q[|q| - 1].ended + BackoffSeconds(|q|) * SECOND
    ensures FailedCount(log, pair) == |q| < EffectiveMax(max)
  {
  }

  lemma PostedState(max: int, s: State, a: Action, p: Post)
    requires a.Push? && MayPost(max, s.log, a.pair, s.clock)
    requires p == Post(a.pair, FailedCount(s.log, a.pair) + 1, a.success, s.clock, s.clock + a.duration)
    ensures Next(max, s, a).posts == s.posts + [p]
    ensures Next(max, s, a).history == s.history + [Recorded(max, p.pair, p.attempt, p.success, p.ended)]
  {
  }

  /** The log answers about the pair as the whole history would. */
  ghost predicate SameMemory(log: seq<Attempt>, history: seq<Attempt>, pair: Pair) {
    && HasSuccess(log, pair) == HasSuccess(history, pair)
    && FailedCount(log, pair) == FailedCount(history, pair)
    && NextAttemptAt(log, pair) == NextAttemptAt(history, pair)
  }

  lemma OwnPostKeepsInvariant(max: int, s: State, a: Action)
    requires a.Push? && SameMemory(s.log, s.history, a.pair) && MayPost(max, s.log, a.pair, s.clock)
    requires Invariant(max, s, a.pair)
    ensures Invariant(max, Next(max, s, a), a.pair)
  {
    var p := Post(a.pair, FailedCount(s.log, a.pair) + 1, a.success, s.clock, s.clock + a.duration);
    var q := PostsOf(s.posts, a.pair);
    PostedState(max, s, a, p);
    PostsAppend(s.posts, p, a.pair);
    PostIsDue(max, s.history, a.pair, s.clock, q);
    NextPostIsSpaced(max, q, p);
    PostIsRemembered(max, s.history, a.pair, q, p);
  }

  lemma OtherPostKeepsInvariant(max: int, s: State, a: Action, pair: Pair)
    requires a.Push? && a.pair != pair && MayPost(max, s.log, a.pair, s.clock)
    requires Invariant(max, s, pair)
    ensures Invariant(max, Next(max, s, a), pair)
  {
    var p := Post(a.pair, FailedCount(s.log, a.pair) + 1, a.success, s.clock, s.clock + a.duration);
    PostedState(max, s, a, p);
    OthersRemember(max, s.posts, s.history, pair, p, Recorded(max, p.pair, p.attempt, p.success, p.ended));
  }

  lemma OthersRemember(max: int, posts: seq<Post>, history: seq<Attempt>, pair: Pair, p: Post, d: Attempt)
    requires p.pair != pair && d.pair != pair && WellSpaced(max, PostsOf(posts, pair)) && Remembers(max, history, pair, PostsOf(posts, pair))
    ensures WellSpaced(max, PostsOf(posts + [p], pair)) && Remembers(max, history + [d], pair, PostsOf(posts + [p], pair))
  {
    PostsAppend(posts, p, pair);
    OtherPostIsIgnored(max, history, pair, PostsOf(posts, pair), d);
  }

  lemma TrimAppend(history: seq<Attempt>, d: Attempt)
    ensures Trim(Trim(history) + [d]) == Trim(history + [d])
  {
  }

  /** What a step records, if anything. */
  lemma StepRecords(max: int, s: State, a: Action) returns (d: Option<Attempt>)
    ensures d.None? ==> Next(max, s, a).log == s.log && Next(max, s, a).history == s.history
    ensures d.Some? ==> Next(max, s, a).log == Trim(s.log + [d.value]) && Next(max, s, a).history == s.history + [d.value]
    ensures d.Some? && a.Push? ==> d.value.pair == a.pair
  {
    match a
    case Tick(_) => d := None;
    case RecordSuccess(pair) => d := Some(Recorded(max, pair, 1, true, s.clock));
    case Push(pair, success, duration) => d := PushRecords(max, s, pair, success, duration);
  }

  lemma PushRecords(max: int, s: State, pair: Pair, success: bool, duration: nat) returns (d: Option<Attempt>)
    ensures var s' := Next(max, s, Push(pair, success, duration));
            if d.None? then s'.log == s.log && s'.history == s.history
            else s'.log == Trim(s.log + [d.value]) && s'.history == s.history + [d.value] && d.value.pair == pair
  {
    d := None;
    if HasSuccess(s.log, pair) {
      d := Some(Duplicate(pair, s.clock));
    } else if MayPost(max, s.log, pair, s.clock) {
      d := Some(Recorded(max, pair, FailedCount(s.log, pair) + 1, success, s.clock + duration));
    }
  }

  lemma StepKeepsSuffix(max: int, s: State, a: Action)
    requires s.log == Trim(s.history)
    ensures Next(max, s, a).log == Trim(Next(max, s, a).history)
  {
    var d := StepRecords(max, s, a);
    if d.Some? {
      TrimAppend(s.history, d.value);
    }
  }

  /** Trimming always leaves a suffix of everything ever recorded: all of it up to the cap, and the
      latest thousand entries after that. */
  lemma {:induction false} LogIsSuffix(max: int, s: State, actions: seq<Action>)
    requires s.log == Trim(s.history)
    ensures Run(max, s, actions).log == Trim(Run(max, s, actions).history)
  {
    if actions != [] {
      LogIsSuffix(max, s, actions[..|actions| - 1]);
      StepKeepsSuffix(max, Run(max, s, actions[..|actions| - 1]), actions[|actions| - 1]);
    }
  }

  /** No record of the pair has been trimmed yet. */
  ghost predicate Untrimmed(history: seq<Attempt>, pair: Pair) {
    forall i :: 0 <= i < |history| - MAX_DELIVERY_LOG ==> history[i].pair != pair
  }

  lemma {:induction false} OthersAreIgnored(before: seq<Attempt>, log: seq<Attempt>, pair: Pair)
    requires forall i :: 0 <= i < |before| ==> before[i].pair != pair
    ensures FailedCount(before + log, pair) == FailedCount(log, pair)
    ensures NextAttemptAt(before + log, pair) == NextAttemptAt(log, pair)
  {
    if log == [] {
      NothingRemembered(before, pair);
      assert before + log == before;
    } else {
      var n := |log| - 1;
      OthersAreIgnored(before, log[..n], pair);
      assert (before + log)[..|before| + n] == before + log[..n];
    }
  }

  lemma UntrimmedIsRemembered(history: seq<Attempt>, pair: Pair)
    requires Untrimmed(history, pair)
    ensures SameMemory(Trim(history), history, pair)
  {
    if |history| > MAX_DELIVERY_LOG {
      var k := |history| - MAX_DELIVERY_LOG;
      OthersAreIgnored(history[..k], history[k..], pair);
      assert history[..k] + history[k..] == history;
      forall i | 0 <= i < |history| && history[i].pair == pair ensures k <= i && history[k..][i - k] == history[i] {
      }
    }
  }

  /** Over every run, however long, in which no record of the pair was trimmed: no POST of a
      delivered pair, attempts numbered without gaps up to the maximum, nothing after the dead one,
      and backoff between attempts. */
  lemma {:induction false} ProtocolHolds(max: int, clock: int, actions: seq<Action>, pair: Pair)
    requires Untrimmed(Run(max, State([], [], [], clock), actions).history, pair)
    ensures Invariant(max, Run(max, State([], [], [], clock), actions), pair)
    decreases |actions|
  {
    if actions != [] {
      var n, start := |actions| - 1, State([], [], [], clock);
      var s, a := Run(max, start, actions[..n]), actions[n];
      var d := StepRecords(max, s, a);
      assert Untrimmed(s.history, pair) by {
        forall i | 0 <= i < |s.history| - MAX_DELIVERY_LOG ensures s.history[i].pair != pair {
          assert Next(max, s, a).history[i] == s.history[i];
        }
      }
      LogIsSuffix(max, start, actions[..n]);
      UntrimmedIsRemembered(s.history, pair);
      ProtocolHolds(max, clock, actions[..n], pair);
      StepKeepsInvariant(max, s, a, pair);
    }
  }

  lemma StepKeepsInvariant(max: int, s: State, a: Action, pair: Pair)
    requires SameMemory(s.log, s.history, pair) && Invariant(max, s, pair)
    ensures Invariant(max, Next(max, s, a), pair)
  {
    match a
    case Tick(_) =>
    case RecordSuccess(p) => SuccessKeepsInvariant(max, s, Recorded(max, p, 1, true, s.clock), pair);
    case Push(p, _, _) =>
      if HasSuccess(s.log, p) {
        SuccessKeepsInvariant(max, s, Duplicate(p, s.clock), pair);
      } else if MayPost(max, s.log, p, s.clock) {
        if p == pair {
          OwnPostKeepsInvariant(max, s, a);
        } else {
          OtherPostKeepsInvariant(max, s, a, pair);
        }
      }
  }

  /** One delivery, then as many records of another pair. */
  function Crowded(pair: Pair, other: Pair, k: nat): seq<Action> {
    [Push(pair, true, 0)] + seq(k, _ => RecordSuccess(other))
  }

  lemma {:induction false} CrowdedRun(max: int, clock: int, pair: Pair, other: Pair, k: nat)
    requires pair != other
    ensures var s := Run(max, State([], [], [], clock), Crowded(pair, other, k));
            && s.posts == [Post(pair, 1, true, clock, clock)] && |s.history| == k + 1
            && s.history[0].pair == pair && s.history[0].success
            && forall i :: 0 < i <= k ==> s.history[i].pair == other
  {
    var start, all := State([], [], [], clock), Crowded(pair, other, k);
    if k == 0 {
      assert all == [Push(pair, true, 0)] && all[..0] == [];
      assert Run(max, start, all[..0]) == start;
    } else {
      CrowdedRun(max, clock, pair, other, k - 1);
      assert all[..k] == Crowded(pair, other, k - 1) && all[k] == RecordSuccess(other);
    }
  }

  /** Beyond the thousand entries the promise ends: a delivery, a thousand records of another pair,
      and the delivered pair is posted once more. */
  lemma DeliveredIsPostedAgain(max: int, clock: int, pair: Pair, other: Pair) returns (actions: seq<Action>)
    requires pair != other
    ensures var s := Run(max, State([], [], [], clock), actions);
            |s.posts| == 2 && s.posts[0].pair == s.posts[1].pair == pair && s.posts[0].success
  {
    var crowd := Crowded(pair, other, MAX_DELIVERY_LOG);
    var s := Run(max, State([], [], [], clock), crowd);
    CrowdedRun(max, clock, pair, other, MAX_DELIVERY_LOG);
    LogIsSuffix(max, State([], [], [], clock), crowd);
    TrimmedIsForgotten(max, s.history, pair, s.clock);
    var again := Push(pair, true, 0);
    actions := crowd + [again];
    assert actions[..|actions| - 1] == crowd;
    PostedState(max, s, again, Post(pair, FailedCount(s.log, pair) + 1, true, s.clock, s.clock));
  }

  /** A pair without a record among the last thousand may be posted, whatever lies further back. */
  lemma TrimmedIsForgotten(max: int, history: seq<Attempt>, pair: Pair, now: int)
    requires |history| >= MAX_DELIVERY_LOG
    requires forall i :: |history| - MAX_DELIVERY_LOG <= i < |history| ==> history[i].pair != pair
    ensures MayPost(max, Trim(history), pair, now)
    ensures forall i :: 0 <= i < |Trim(history)| ==> Trim(history)[i].pair != pair
  {
    var kept := Trim(history);
    forall i | 0 <= i < |kept| ensures kept[i].pair != pair {
      assert kept[i] == history[|history| - MAX_DELIVERY_LOG + i];
    }
    NothingRemembered(kept, pair);
  }

  /** A pair whose last record is a success may be posted again exactly when that record has been
      trimmed. */
  lemma DeliveredIsForgottenIff(max: int, history: seq<Attempt>, i: nat, pair: Pair, now: int)
    requires i < |history| && history[i].pair == pair && history[i].success
    requires forall j :: i < j < |history| ==> history[j].pair != pair
    ensures MayPost(max, Trim(history), pair, now) <==> i < |history| - MAX_DELIVERY_LOG
  {
    if i < |history| - MAX_DELIVERY_LOG {
      TrimmedIsForgotten(max, history, pair, now);
    } else {
      var k := if |history| > MAX_DELIVERY_LOG then |history| - MAX_DELIVERY_LOG else 0;
      assert Trim(history)[i - k] == history[i];
    }
  }

  lemma {:induction false} NothingRemembered(log: seq<Attempt>, pair: Pair)
    requires forall i :: 0 <= i < |log| ==> log[i].pair != pair
    ensures !HasSuccess(log, pair) && FailedCount(log, pair) == 0 && NextAttemptAt(log, pair) == None
  {
    if log != [] {
      NothingRemembered(log[..|log| - 1], pair);
    }
  }

  /* ---------- a delivery pass ---------- */

  lemma {:induction false} SuffixRemembersLess(log: seq<Attempt>, k: nat, pair: Pair)
    requires k <= |log|
    ensures FailedCount(log[k..], pair) <= FailedCount(log, pair)
    ensures NextAttemptAt(log[k..], pair).Some? ==> NotBefore(NextAttemptAt(log, pair), NextAttemptAt(log[k..], pair).value)
    ensures HasSuccess(log[k..], pair) ==> HasSuccess(log, pair)
    decreases |log|
  {
    if k < |log| {
      var n := |log| - 1;
      SuffixRemembersLess(log[..n], k, pair);
      assert log[k..][..n - k] == log[..n][k..];
    }
    forall i | 0 <= i < |log| - k ensures log[k..][i] == log[k + i] {
    }
  }

  /** Records of other pairs, and trimming, never take away the right to post. */
  lemma MayPostPersists(max: int, log: seq<Attempt>, d: Attempt, pair: Pair, now: int, later: int)
    requires MayPost(max, log, pair, now) && now <= later && d.pair != pair
    ensures MayPost(max, Trim(log + [d]), pair, later)
  {
    var longer := log + [d];
    assert longer[..|log|] == log;
    assert forall i :: 0 <= i < |log| ==> longer[i] == log[i];
    SuffixRemembersLess(longer, if |longer| > MAX_DELIVERY_LOG then |longer| - MAX_DELIVERY_LOG else 0, pair);
    assert longer[0..] == longer;
  }

  ghost predicate Posted(from: State, s: State, pair: Pair) {
    exists k :: |from.posts| <= k < |s.posts| && s.posts[k].pair == pair
  }

  /** A pair that could be posted when the pass began has been posted, or still can be. */
  ghost predicate Open(max: int, from: State, s: State, pair: Pair) {
    MayPost(max, from.log, pair, from.clock) ==> Posted(from, s, pair) || MayPost(max, s.log, pair, s.clock)
  }

  /** A pair that could be posted when the pass began has been posted. */
  ghost predicate Served(max: int, from: State, s: State, pair: Pair) {
    MayPost(max, from.log, pair, from.clock) ==> Posted(from, s, pair)
  }

  ghost predicate StillServed(max: int, from: State, s: State, s': State) {
    forall q :: Served(max, from, s, q) ==> Served(max, from, s', q)
  }

  /** s is where the pushes of a pass lead. */
  ghost predicate Pass(max: int, from: State, s: State, actions: seq<Action>) {
    && s == Run(max, from, actions) && from.posts <= s.posts
    && (forall i :: 0 <= i < |actions| ==> actions[i].Push?)
    && forall q :: Open(max, from, s, q)
  }

  lemma PushKeepsOpen(max: int, from: State, s: State, a: Action, q: Pair)
    requires a.Push? && from.posts <= s.posts && Open(max, from, s, q)
    ensures Open(max, from, Next(max, s, a), q)
    ensures q == a.pair ==> Served(max, from, Next(max, s, a), q)
    ensures Served(max, from, s, q) ==> Served(max, from, Next(max, s, a), q)
  {
    var s' := Next(max, s, a);
    PostsOnlyGrow(max, s, a);
    if Posted(from, s, q) {
      var k :| |from.posts| <= k < |s.posts| && s.posts[k].pair == q;
      assert s'.posts[k] == s.posts[k];
    } else if MayPost(max, from.log, q, from.clock) {
      if q == a.pair {
        PostedState(max, s, a, Post(q, FailedCount(s.log, q) + 1, a.success, s.clock, s.clock + a.duration));
        assert s'.posts[|s.posts|].pair == q;
      } else {
        var d := StepRecords(max, s, a);
        if d.Some? {
          MayPostPersists(max, s.log, d.value, q, s.clock, s'.clock);
        }
      }
    }
  }

  lemma PostsOnlyGrow(max: int, s: State, a: Action)
    requires a.Push?
    ensures s.posts <= Next(max, s, a).posts && s.clock <= Next(max, s, a).clock
  {
  }

  lemma PassExtends(max: int, from: State, s: State, actions: seq<Action>, a: Action)
    requires Pass(max, from, s, actions) && a.Push?
    ensures Pass(max, from, Next(max, s, a), actions + [a]) && Served(max, from, Next(max, s, a), a.pair)
    ensures StillServed(max, from, s, Next(max, s, a))
  {
    assert (actions + [a])[..|actions|] == actions;
    PostsOnlyGrow(max, s, a);
    forall q
      ensures Open(max, from, Next(max, s, a), q) && (q == a.pair ==> Served(max, from, Next(max, s, a), q))
      ensures Served(max, from, s, q) ==> Served(max, from, Next(max, s, a), q)
    {
      PushKeepsOpen(max, from, s, a, q);
    }
  }

  /* ---------- the service ---------- */

  datatype Subscription = Subscription(id: string, events: seq<string>)

  function ChangeType(action: string): string {
    if action == "" || action == "upsert" then "resource.accepted" else action
  }

  predicate EventMatches(filter: seq<string>, action: string) {
    filter == [] || exists f :: f in filter && (f == ChangeType(action) || f == action || f == "*")
  }

  /** Some subscription wants the event. */
  ghost predicate Wanted(events: seq<ChangeFeed.ChangeEvent>, subs: seq<Subscription>, pair: Pair) {
    exists e, sub :: e in events && sub in subs && EventMatches(sub.events, e.action) && pair == Pair(sub.id, e.eventID)
  }

  ghost predicate AllWanted(events: seq<ChangeFeed.ChangeEvent>, subs: seq<Subscription>, actions: seq<Action>) {
    forall i :: 0 <= i < |actions| && actions[i].Push? ==> Wanted(events, subs, actions[i].pair)
  }

  /** Every wanted pair of these events and subscriptions that could be posted has been. */
  ghost predicate AllServed(max: int, from: State, s: State, events: seq<ChangeFeed.ChangeEvent>, subs: seq<Subscription>) {
    forall e, sub | e in events && sub in subs && EventMatches(sub.events, e.action) :: Served(max, from, s, Pair(sub.id, e.eventID))
  }

  /** One organization's deliveries.  What the network answers, and how long it takes, is arbitrary. */
  class Service {
    const maxAttempts: int
    var deliv: seq<Attempt>
    var clock: int
    ghost var history: seq<Attempt>
    ghost var posts: seq<Post>

    constructor (maxAttempts: int, clock: int)
      ensures View() == State([], [], [], clock) && this.maxAttempts == maxAttempts
    {
      this.maxAttempts, this.clock := maxAttempts, clock;
      deliv, history, posts := [], [], [];
    }

    ghost function View(): State
      reads this
    {
      State(deliv, history, posts, clock)
    }

    method Record(d: Attempt)
      modifies this`deliv, this`history
      ensures View() == Append(old(View()), d)
    {
      history := history + [d];
      deliv := deliv + [d];
      if |deliv| > MAX_DELIVERY_LOG {
        deliv := deliv[|deliv| - MAX_DELIVERY_LOG..];
      }
    }

    method RecordDelivery(pair: Pair, attempt: nat, success: bool)
      modifies this`deliv, this`history
      ensures View() == Append(old(View()), Recorded(maxAttempts, pair, attempt, success, clock))
    {
      var max := if maxAttempts <= 0 then 8 else maxAttempts;
      var status, next := if success then Delivered else Pending, None;
      if !success {
        if attempt >= max {
          status := Dead;
        } else {
          next := Some(clock + BackoffSeconds(attempt) * SECOND);
        }
      }
      Record(Attempt(pair, attempt, success, status, next, clock));
    }

    method FailedAttemptCount(pair: Pair) returns (n: nat)
      ensures n == FailedCount(deliv, pair)
    {
      n := 0;
      for i := 0 to |deliv|
        invariant n == FailedCount(deliv[..i], pair)
      {
        assert deliv[..i + 1][..i] == deliv[..i];
        var d := deliv[i];
        if d.pair == pair && !d.success && d.status != DuplicateIgnored {
          if d.attempt > n {
            n := d.attempt;
          }
        }
      }
      assert deliv[..|deliv|] == deliv;
    }

    method NextAttempt(pair: Pair) returns (latest: Option<int>)
      ensures latest == NextAttemptAt(deliv, pair)
    {
      latest := None;
      for i := 0 to |deliv|
        invariant latest == NextAttemptAt(deliv[..i], pair)
      {
        assert deliv[..i + 1][..i] == deliv[..i];
        var d := deliv[i];
        if d.pair == pair && d.nextAttempt.Some? {
          if latest.None? || d.nextAttempt.value > latest.value {
            latest := d.nextAttempt;
          }
        }
      }
      assert deliv[..|deliv|] == deliv;
    }

    method HasSuccessfulDelivery(pair: Pair) returns (found: bool)
      ensures found <==> HasSuccess(deliv, pair)
    {
      for i := 0 to |deliv|
        invariant !HasSuccess(deliv[..i], pair)
      {
        if deliv[i].pair == pair && deliv[i].success {
          return true;
        }
      }
      assert deliv[..|deliv|] == deliv;
      found := false;
    }

    /** One push is one step of the protocol; it reports success for a delivery or a duplicate. */
    method PushOne(pair: Pair) returns (ok: bool, ghost action: Action)
      modifies this
      ensures action.Push? && action.pair == pair
      ensures View() == Next(maxAttempts, old(View()), action)
      ensures ok <==> HasSuccess(old(deliv), pair) || (action.success && MayPost(maxAttempts, old(deliv), pair, old(clock)))
    {
      var duration: nat :| true;
      var success: bool :| true;
      action := Push(pair, success, duration);
      var done := HasSuccessfulDelivery(pair);
      if done {
        Record(Duplicate(pair, clock));
        return true, action;
      }
      var failed := FailedAttemptCount(pair);
      var next := NextAttempt(pair);
      if next.Some? && next.value > clock {
        return false, action;
      }
      var max := if maxAttempts <= 0 then 8 else maxAttempts;
      if failed + 1 > max {
        return false, action;
      }
      Send(pair, failed + 1, success, duration);
      ok := success;
    }

    /** One POST: it takes its time, and its outcome is recorded. */
    method Send(pair: Pair, attempt: nat, success: bool, duration: nat)
      modifies this
      ensures View() == Append(old(View()), Recorded(maxAttempts, pair, attempt, success, old(clock) + duration)).(
                          posts := old(posts) + [Post(pair, attempt, success, old(clock), old(clock) + duration)],
                          clock := old(clock) + duration)
    {
      posts := posts + [Post(pair, attempt, success, clock, clock + duration)];
      clock := clock + duration;
      RecordDelivery(pair, attempt, success);
    }

    /** Offers one event to one subscription. */
    method Offer(e: ChangeFeed.ChangeEvent, sub: Subscription, ghost from: State, ghost actions0: seq<Action>)
      returns (ok: bool, ghost actions: seq<Action>)
      requires Pass(maxAttempts, from, View(), actions0)
      modifies this
      ensures Pass(maxAttempts, from, View(), actions)
      ensures EventMatches(sub.events, e.action) ==> Served(maxAttempts, from, View(), Pair(sub.id, e.eventID))
      ensures StillServed(maxAttempts, from, old(View()), View())
      ensures Successes(posts) == Successes(old(posts)) + if ok then 1 else 0
      ensures actions == actions0 || PushedOne(actions0, actions, e, sub)
    {
      ok, actions := false, actions0;
      var pair := Pair(sub.id, e.eventID);
      var done := HasSuccessfulDelivery(pair);
      if done {
        assert Open(maxAttempts, from, View(), pair);
        return;
      }
      if !EventMatches(sub.events, e.action) {
        return;
      }
      ghost var before := View();
      ghost var action;
      ok, action := PushOne(pair);
      PushCountsOnce(maxAttempts, before, action);
      PassExtends(maxAttempts, from, before, actions0, action);
      actions := actions0 + [action];
    }

    /** Offers one event to every subscription, up to the limit. */
    method OfferAll(e: ChangeFeed.ChangeEvent, subs: seq<Subscription>, limit: nat, delivered0: nat, ghost events: seq<ChangeFeed.ChangeEvent>,
                    ghost from: State, ghost actions0: seq<Action>)
      returns (delivered: nat, ghost actions: seq<Action>)
      requires delivered0 <= limit && Pass(maxAttempts, from, View(), actions0)
      requires e in events && AllWanted(events, subs, actions0)
      modifies this
      ensures Pass(maxAttempts, from, View(), actions) && delivered0 <= delivered <= limit
      ensures delivered - delivered0 == Successes(posts) - Successes(old(posts))
      ensures StillServed(maxAttempts, from, old(View()), View())
      ensures delivered < limit ==> AllServed(maxAttempts, from, View(), [e], subs)
      ensures AllWanted(events, subs, actions)
    {
      delivered, actions := delivered0, actions0;
      var j := 0;
      while j < |subs| && delivered < limit
        invariant 0 <= j <= |subs| && delivered0 <= delivered <= limit
        invariant Pass(maxAttempts, from, View(), actions)
        invariant delivered - delivered0 == Successes(posts) - Successes(old(posts))
        invariant StillServed(maxAttempts, from, old(View()), View())
        invariant delivered < limit ==> AllServed(maxAttempts, from, View(), [e], subs[..j])
        invariant AllWanted(events, subs, actions)
      {
        ghost var before, s := actions, View();
        var ok;
        ok, actions := Offer(e, subs[j], from, actions);
        OneMoreWanted(events, subs, before, actions, e, subs[j]);
        if delivered < limit {
          OneMoreServed(maxAttempts, from, s, View(), e, subs, j);
        }
        if ok {
          delivered := delivered + 1;
        }
        j := j + 1;
      }
      assert j == |subs| ==> subs[..j] == subs;
    }

    /** Offers the events of one page, up to the limit. */
    method DeliverPage(page: seq<ChangeFeed.ChangeEvent>, subs: seq<Subscription>, limit: nat, delivered0: nat,
                       ghost events: seq<ChangeFeed.ChangeEvent>, ghost from: State, ghost actions0: seq<Action>)
      returns (delivered: nat, ghost actions: seq<Action>)
      requires delivered0 <= limit && Pass(maxAttempts, from, View(), actions0)
      requires AllWanted(events, subs, actions0) && forall e :: e in page ==> e in events
      modifies this
      ensures Pass(maxAttempts, from, View(), actions) && delivered0 <= delivered <= limit
      ensures delivered - delivered0 == Successes(posts) - Successes(old(posts))
      ensures StillServed(maxAttempts, from, old(View()), View())
      ensures delivered < limit ==> AllServed(maxAttempts, from, View(), page, subs)
      ensures AllWanted(events, subs, actions)
    {
      delivered, actions := delivered0, actions0;
      var i := 0;
      while i < |page| && delivered < limit
        invariant 0 <= i <= |page| && delivered0 <= delivered <= limit
        invariant Pass(maxAttempts, from, View(), actions)
        invariant delivered - delivered0 == Successes(posts) - Successes(old(posts))
        invariant StillServed(maxAttempts, from, old(View()), View())
        invariant delivered < limit ==> AllServed(maxAttempts, from, View(), page[..i], subs)
        invariant AllWanted(events, subs, actions)
      {
        ghost var s := View();
        delivered, actions := OfferAll(page[i], subs, limit, delivered, events, from, actions);
        if delivered < limit {
          OneMoreEvent(maxAttempts, from, s, View(), page, i, subs);
        }
        i := i + 1;
      }
      assert i == |page| ==> page[..i] == page;
    }

    /** Walks the whole feed, a hundred events at a time.  The pass is a run of pushes of wanted
        pairs; it counts exactly the successful posts it made, at most the limit, and below the limit
        every wanted pair that could be posted when it began has been posted. */
    method DeliverPending(events: seq<ChangeFeed.ChangeEvent>, subs: seq<Subscription>, limit: int)
      returns (delivered: nat, ghost actions: seq<Action>)
      requires ChangeFeed.DistinctKeys(events)
      modifies this
      ensures View() == Run(maxAttempts, old(View()), actions)
      ensures forall a :: a in actions ==> a.Push? && Wanted(events, subs, a.pair)
      ensures old(posts) <= posts
      ensures delivered <= BatchLimit(limit)
      ensures delivered == Successes(posts) - Successes(old(posts))
      ensures delivered < BatchLimit(limit) ==> AllServed(maxAttempts, old(View()), View(), events, subs)
    {
      delivered, actions := 0, [];
      if subs == [] {
        return;
      }
      ghost var from := View();
      var max := BatchLimit(limit);
      var cursor := ChangeFeed.Start;
      ghost var reader := ChangeFeed.Reader(events, ChangeFeed.Start, []);
      ChangeFeed.StartsInStep(events);
      ChangeFeed.FeedIsSorted(events);
      while delivered < max
        invariant Pass(maxAttempts, from, View(), actions) && AllWanted(events, subs, actions)
        invariant delivered <= max && delivered == Successes(posts) - Successes(from.posts)
        invariant ChangeFeed.InStep(reader) && reader.events == events && reader.cursor == cursor
        invariant delivered < max ==> AllServed(maxAttempts, from, View(), reader.seen, subs)
        decreases |Filter(ChangeFeed.Feed(events), ChangeFeed.Unread(cursor))|
      {
        var page, next := ChangeFeed.ListChanges(events, cursor, 100);
        ChangeFeed.CaughtUp(reader, 100);
        if page == [] {
          break;
        }
        ChangeFeed.ReadStaysInStep(reader, 100);
        PageIsOfFeed(events, cursor, page);
        delivered, actions := DeliverPage(page, subs, max, delivered, events, from, actions);
        reader := ChangeFeed.Next(reader, ChangeFeed.Read(100));
        cursor := next;
      }
    }
  }

  lemma PageIsOfFeed(events: seq<ChangeFeed.ChangeEvent>, cursor: ChangeFeed.Cursor, page: seq<ChangeFeed.ChangeEvent>)
    requires ChangeFeed.DistinctKeys(events) && page == ChangeFeed.Page(events, cursor, 100)
    ensures forall e :: e in page ==> e in events
  {
    ChangeFeed.FeedIsSorted(events);
    var unread := Filter(ChangeFeed.Feed(events), ChangeFeed.Unread(cursor));
    FilterMembers(ChangeFeed.Feed(events), ChangeFeed.Unread(cursor));
    forall e | e in page ensures e in unread {
    }
  }

  lemma OneMoreServed(max: int, from: State, s: State, s': State, e: ChangeFeed.ChangeEvent, subs: seq<Subscription>, j: nat)
    requires j < |subs| && AllServed(max, from, s, [e], subs[..j]) && StillServed(max, from, s, s')
    requires EventMatches(subs[j].events, e.action) ==> Served(max, from, s', Pair(subs[j].id, e.eventID))
    ensures AllServed(max, from, s', [e], subs[..j + 1])
  {
    assert subs[..j + 1] == subs[..j] + [subs[j]];
  }

  lemma OneMoreEvent(max: int, from: State, s: State, s': State, page: seq<ChangeFeed.ChangeEvent>, i: nat, subs: seq<Subscription>)
    requires i < |page| && AllServed(max, from, s, page[..i], subs) && StillServed(max, from, s, s')
    requires AllServed(max, from, s', [page[i]], subs)
    ensures AllServed(max, from, s', page[..i + 1], subs)
  {
    assert page[..i + 1] == page[..i] + [page[i]] && page[i] in [page[i]];
  }

  /** One push of a wanted pair was added. */
  ghost predicate PushedOne(actions0: seq<Action>, actions: seq<Action>, e: ChangeFeed.ChangeEvent, sub: Subscription) {
    && EventMatches(sub.events, e.action) && |actions| == |actions0| + 1 && actions0 <= actions
    && actions[|actions0|].Push? && actions[|actions0|].pair == Pair(sub.id, e.eventID)
  }

  lemma OneMoreWanted(events: seq<ChangeFeed.ChangeEvent>, subs: seq<Subscription>, actions0: seq<Action>, actions: seq<Action>,
                      e: ChangeFeed.ChangeEvent, sub: Subscription)
    requires e in events && sub in subs && AllWanted(events, subs, actions0)
    requires actions == actions0 || PushedOne(actions0, actions, e, sub)
    ensures AllWanted(events, subs, actions)
  {
  }

  function BatchLimit(limit: int): (n: nat)
    ensures n > 0
  {
    if limit <= 0 then 20 else limit
  }

  ghost function Successes(posts: seq<Post>): nat {
    |Filter(posts, (p: Post) => p.success)|
  }

  lemma PushCountsOnce(max: int, s: State, a: Action)
    requires a.Push? && !HasSuccess(s.log, a.pair)
    ensures Successes(Next(max, s, a).posts) == Successes(s.posts) + if a.success && MayPost(max, s.log, a.pair, s.clock) then 1 else 0
  {
    var posts' := Next(max, s, a).posts;
    if posts' != s.posts {
      assert posts'[..|posts'| - 1] == s.posts;
    }
  }
}
