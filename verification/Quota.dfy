/** The token-bucket limiter of internal/quota/quota.go.  Times are seconds and amounts are exact
    reals; the retry hint, which the source truncates to whole nanoseconds, is left out. */
module Quota {

  datatype Operation = Search | Intake | Export | Other

  datatype Key = Key(orgID: string, sourceID: string, principalID: string, op: Operation)

  datatype Limits = Limits(searchPerMinute: real, intakePerMinute: real, exportPerMinute: real, burst: real)

  /** Default limits and the per-organization overrides. */
  datatype Config = Config(defaults: Limits, overrides: map<string, Limits>)

  datatype Bucket = Bucket(tokens: real, capacity: real, refillRate: real, last: real)

  type Buckets = map<Key, Bucket>

  const MAX_BUCKETS: nat := 100_000
  const IDLE_SECONDS: real := 600.0

  function WithBurst(l: Limits): Limits {
    if l.burst <= 0.0 then l.(burst := 1.0) else l
  }

  function Effective(c: Config, orgID: string): Limits {
    if orgID in c.overrides then c.overrides[orgID] else c.defaults
  }

  function Burst(c: Config, key: Key): (b: real)
    ensures b > 0.0
  {
    WithBurst(Effective(c, key.orgID)).burst
  }

  /** Tokens per minute; an unknown operation has none and is never limited. */
  function Rate(c: Config, key: Key): real {
    var l := Effective(c, key.orgID);
    match key.op
    case Search => l.searchPerMinute
    case Intake => l.intakePerMinute
    case Export => l.exportPerMinute
    case Other => 0.0
  }

  function PerSecond(c: Config, key: Key): real {
    Rate(c, key) / 60.0
  }

  function Min(a: real, b: real): real {
    if a > b then b else a
  }

  function Fresh(c: Config, key: Key, now: real): Bucket {
    Bucket(Burst(c, key), Burst(c, key), PerSecond(c, key), now)
  }

  /** A level after waiting: it gains at the rate and stops at the capacity. */
  function Grow(capacity: real, rate: real, level: real, wait: real): real {
    Min(capacity, level + wait * rate)
  }

  function Refilled(b: Bucket, now: real): Bucket {
    if now > b.last then b.(tokens := Grow(b.capacity, b.refillRate, b.tokens, now - b.last), last := now) else b
  }

  /** Drops buckets idle for over ten minutes. */
  function Swept(bs: Buckets, now: real): Buckets {
    map k | k in bs && !(now - bs[k].last > IDLE_SECONDS) :: bs[k]
  }

  datatype Outcome<S> = Outcome(ok: bool, next: S)

  /** One call.  `evict` says whether a full table is swept before a new bucket is added. */
  function Admit(c: Config, bs: Buckets, key: Key, now: real, evict: bool): Outcome<Buckets> {
    if Rate(c, key) <= 0.0 then Outcome(true, bs)
    else
      var table := Prepared(c, bs, key, now, evict);
      var b := Refilled(table[key], now);
      if b.tokens < 1.0 then Outcome(false, table[key := b])
      else Outcome(true, table[key := b.(tokens := b.tokens - 1.0)])
  }

  /** The table with a bucket for the key. */
  function Prepared(c: Config, bs: Buckets, key: Key, now: real, evict: bool): (table: Buckets)
    ensures key in table
  {
    if key in bs then bs
    else (if evict && |bs| >= MAX_BUCKETS then Swept(bs, now) else bs)[key := Fresh(c, key, now)]
  }

  /** Nothing but white space. */
  predicate Blank(s: string) {
    forall i :: 0 <= i < |s| ==> s[i] in {' ', '\t', '\n', '\r'}
  }

  class Limiter {
    var config: Config
    var buckets: Buckets

    constructor (limits: Limits)
      ensures config == Config(WithBurst(limits), map[]) && buckets == map[]
    {
      config, buckets := Config(WithBurst(limits), map[]), map[];
    }

    /** Overrides an organization's limits and forgets its buckets. */
    method SetOrgLimits(orgID: string, limits: Limits)
      modifies this
      ensures Blank(orgID) ==> config == old(config) && buckets == old(buckets)
      ensures !Blank(orgID) ==> config == old(config).(overrides := old(config).overrides[orgID := WithBurst(limits)])
      ensures forall now :: Consistent(old(config), old(buckets), now) ==> Consistent(config, buckets, now)
      ensures forall k :: k in buckets <==> k in old(buckets) && (Blank(orgID) || k.orgID != orgID)
      ensures forall k :: k in buckets ==> buckets[k] == old(buckets)[k]
    {
      if Blank(orgID) {
        return;
      }
      config := config.(overrides := config.overrides[orgID := WithBurst(limits)]);
      ghost var was := buckets;
      var keys := buckets.Keys;
      while keys != {}
        invariant keys <= was.Keys
        invariant buckets == map k | k in was && (k in keys || k.orgID != orgID) :: was[k]
        invariant config == old(config).(overrides := old(config).overrides[orgID := WithBurst(limits)])
      {
        var k :| k in keys;
        keys := keys - {k};
        if k.orgID == orgID {
          buckets := buckets - {k};
        }
      }
    }

    method Allow(key: Key, now: real) returns (ok: bool)
      modifies this`buckets
      ensures ok == Admit(config, old(buckets), key, now, true).ok
      ensures buckets == Admit(config, old(buckets), key, now, true).next
    {
      var limits := Effective(config, key.orgID);
      var burst := if limits.burst <= 0.0 then 1.0 else limits.burst;
      var rate := Rate(config, key);
      if rate <= 0.0 {
        return true;
      }
      if key !in buckets {
        if |buckets| >= MAX_BUCKETS {
          EvictIdle(now);
        }
        buckets := buckets[key := Bucket(burst, burst, rate / 60.0, now)];
      }
      var b := buckets[key];
      var elapsed := now - b.last;
      if elapsed > 0.0 {
        b := b.(tokens := b.tokens + elapsed * b.refillRate);
        if b.tokens > b.capacity {
          b := b.(tokens := b.capacity);
        }
        b := b.(last := now);
      }
      assert b == Refilled(buckets[key], now);
      buckets := buckets[key := b];
      ok := !(b.tokens < 1.0);
      if !ok {
        return;
      }
      buckets := buckets[key := b.(tokens := b.tokens - 1.0)];
    }

    method EvictIdle(now: real)
      modifies this`buckets
      ensures buckets == Swept(old(buckets), now)
    {
      ghost var was := buckets;
      var keys := buckets.Keys;
      while keys != {}
        invariant keys <= was.Keys
        invariant buckets == map k | k in was && (k in keys || !(now - was[k].last > IDLE_SECONDS)) :: was[k]
      {
        var k :| k in keys;
        keys := keys - {k};
        if now - buckets[k].last > IDLE_SECONDS {
          buckets := buckets - {k};
        }
      }
    }
  }

  /* ---------- growth of one level ---------- */

  lemma GrowStaysInside(capacity: real, rate: real, level: real, wait: real)
    requires 0.0 <= level <= capacity && rate > 0.0 && wait >= 0.0
    ensures level <= Grow(capacity, rate, level, wait) <= capacity
    ensures Grow(capacity, rate, level, wait) <= level + wait * rate
    ensures wait == 0.0 || level == capacity ==> Grow(capacity, rate, level, wait) == level
  {
    ProductIsPositive(wait, rate);
  }

  lemma GrowTwice(capacity: real, rate: real, level: real, wait: real, more: real)
    requires 0.0 <= level <= capacity && rate > 0.0 && wait >= 0.0 && more >= 0.0
    ensures Grow(capacity, rate, Grow(capacity, rate, level, wait), more) == Grow(capacity, rate, level, wait + more)
  {
    ProductIsPositive(wait, rate);
    ProductIsPositive(more, rate);
    Distribute(wait, more, rate);
  }

  lemma ProductIsPositive(a: real, b: real)
    requires a >= 0.0 && b >= 0.0
    ensures a * b >= 0.0
  {
  }

  lemma Distribute(a: real, b: real, r: real)
    ensures (a + b) * r == a * r + b * r
  {
  }

  /* ---------- invariant ---------- */

  /** A bucket holds between nothing and its capacity, agrees with the effective limits, and was
      last touched in the past. */
  predicate Sane(c: Config, k: Key, b: Bucket, now: real) {
    && 0.0 <= b.tokens <= b.capacity == Burst(c, k)
    && b.refillRate == PerSecond(c, k) && b.refillRate > 0.0
    && b.last <= now
  }

  ghost predicate Consistent(c: Config, bs: Buckets, now: real) {
    forall k :: k in bs ==> Sane(c, k, bs[k], now)
  }

  lemma RefilledIsSane(c: Config, k: Key, b: Bucket, now: real)
    requires Sane(c, k, b, now)
    ensures Sane(c, k, Refilled(b, now), now) && Refilled(b, now).last == now
    ensures Refilled(b, now).tokens >= 1.0 ==> Sane(c, k, Refilled(b, now).(tokens := Refilled(b, now).tokens - 1.0), now)
  {
    GrowStaysInside(b.capacity, b.refillRate, b.tokens, now - b.last);
  }

  lemma AdmitKeepsConsistent(c: Config, bs: Buckets, key: Key, now: real, evict: bool)
    requires Consistent(c, bs, now)
    ensures Consistent(c, Admit(c, bs, key, now, evict).next, now)
  {
    if Rate(c, key) > 0.0 {
      var table := Prepared(c, bs, key, now, evict);
      assert Sane(c, key, table[key], now);
      RefilledIsSane(c, key, table[key], now);
    }
  }

  /* ---------- what a caller can observe: the level of a key ---------- */

  /** Tokens available for a key at a time, should it be asked then. */
  function Level(c: Config, bs: Buckets, key: Key, at: real): real {
    if key in bs then Refilled(bs[key], at).tokens else Burst(c, key)
  }

  lemma LevelIsBounded(c: Config, bs: Buckets, key: Key, now: real)
    requires Consistent(c, bs, now)
    ensures 0.0 <= Level(c, bs, key, now) <= Burst(c, key)
  {
    if key in bs {
      RefilledIsSane(c, key, bs[key], now);
    }
  }

  lemma RefillTwice(b: Bucket, now: real, at: real)
    requires 0.0 <= b.tokens <= b.capacity && b.refillRate > 0.0 && b.last <= now <= at
    ensures Refilled(b, at).tokens == Grow(b.capacity, b.refillRate, Refilled(b, now).tokens, at - now)
  {
    if now == b.last {
      GrowStaysInside(b.capacity, b.refillRate, b.tokens, at - now);
    } else {
      GrowTwice(b.capacity, b.refillRate, b.tokens, now - b.last, at - now);
      assert (now - b.last) + (at - now) == at - b.last;
    }
  }

  /** Levels grow at the refill rate and stop at the burst. */
  lemma LevelGrows(c: Config, bs: Buckets, key: Key, now: real, at: real)
    requires Consistent(c, bs, now) && now <= at && Rate(c, key) > 0.0
    ensures Level(c, bs, key, at) == Grow(Burst(c, key), PerSecond(c, key), Level(c, bs, key, now), at - now)
  {
    if key in bs {
      assert Sane(c, key, bs[key], now);
      RefillTwice(bs[key], now, at);
    } else {
      GrowStaysInside(Burst(c, key), PerSecond(c, key), Burst(c, key), at - now);
    }
  }

  /** Idle for over ten minutes at ten times the rate at least the burst: the bucket is full again,
      exactly as if it had never existed. */
  lemma SweepKeepsLevels(c: Config, bs: Buckets, now: real, key: Key, at: real)
    requires Consistent(c, bs, now) && now <= at && 10.0 * Rate(c, key) >= Burst(c, key)
    ensures Level(c, Swept(bs, now), key, at) == Level(c, bs, key, at)
  {
    if key in bs && key !in Swept(bs, now) {
      assert Sane(c, key, bs[key], now);
      FullAfterIdling(Burst(c, key), Rate(c, key), bs[key].tokens, at - bs[key].last);
    }
  }

  lemma FullAfterIdling(capacity: real, perMinute: real, level: real, wait: real)
    requires 0.0 <= level && perMinute > 0.0 && 10.0 * perMinute >= capacity && wait >= IDLE_SECONDS
    ensures Grow(capacity, perMinute / 60.0, level, wait) == capacity
  {
    var rate := perMinute / 60.0;
    Distribute(IDLE_SECONDS, wait - IDLE_SECONDS, rate);
    ProductIsPositive(wait - IDLE_SECONDS, rate);
    assert IDLE_SECONDS * rate == 10.0 * perMinute;
    assert IDLE_SECONDS + (wait - IDLE_SECONDS) == wait;
  }

  /** The bound on the rate is exactly what makes sweeping invisible: below it, an emptied bucket
      idle just over ten minutes would come back fuller than it went. */
  lemma SweepIsInvisibleIff(c: Config, key: Key)
    requires Rate(c, key) > 0.0
    ensures 10.0 * Rate(c, key) >= Burst(c, key) <==>
            forall bs, now :: Consistent(c, bs, now) ==> Level(c, Swept(bs, now), key, now) == Level(c, bs, key, now)
  {
    if 10.0 * Rate(c, key) >= Burst(c, key) {
      forall bs, now | Consistent(c, bs, now) ensures Level(c, Swept(bs, now), key, now) == Level(c, bs, key, now) {
        SweepKeepsLevels(c, bs, now, key, now);
      }
    } else {
      EmptiedBucketComesBackFuller(c, key);
    }
  }

  lemma EmptiedBucketComesBackFuller(c: Config, key: Key)
    requires Rate(c, key) > 0.0 && 10.0 * Rate(c, key) < Burst(c, key)
    ensures exists bs, now :: Consistent(c, bs, now) && Level(c, Swept(bs, now), key, now) != Level(c, bs, key, now)
  {
    var r := PerSecond(c, key);
    var gap := Burst(c, key) - 10.0 * Rate(c, key);
    var extra := gap / (2.0 * r);
    var now := IDLE_SECONDS + extra;
    var bs: Buckets := map[key := Bucket(0.0, Burst(c, key), r, 0.0)];
    Distribute(IDLE_SECONDS, extra, r);
    assert extra * r == gap / 2.0;
    assert Consistent(c, bs, now);
    assert key !in Swept(bs, now);
    assert Level(c, bs, key, now) < Burst(c, key);
  }

  /** A call is decided by the key's level alone, and one admitted takes exactly one token from it. */
  lemma AdmitSpends(c: Config, bs: Buckets, key: Key, now: real, evict: bool)
    requires Consistent(c, bs, now) && Rate(c, key) > 0.0
    ensures Admit(c, bs, key, now, evict).ok <==> Level(c, bs, key, now) >= 1.0
    ensures Level(c, Admit(c, bs, key, now, evict).next, key, now)
              == if Admit(c, bs, key, now, evict).ok then Level(c, bs, key, now) - 1.0 else Level(c, bs, key, now)
  {
    var table := Prepared(c, bs, key, now, evict);
    assert Sane(c, key, table[key], now);
    RefilledIsSane(c, key, table[key], now);
  }

  /** A call leaves the levels of all other keys alone. */
  lemma AdmitSparesOthers(c: Config, bs: Buckets, key: Key, now: real, evict: bool, other: Key, at: real)
    requires Consistent(c, bs, now) && now <= at && other != key
    requires evict ==> 10.0 * Rate(c, other) >= Burst(c, other)
    ensures Level(c, Admit(c, bs, key, now, evict).next, other, at) == Level(c, bs, other, at)
  {
    if evict {
      SweepKeepsLevels(c, bs, now, other, at);
    }
  }

  /* ---------- runs ---------- */

  datatype Call = Call(key: Key, at: real)

  ghost predicate Monotone(calls: seq<Call>, from: real) {
    && (forall i :: 0 <= i < |calls| ==> from <= calls[i].at)
    && (forall i, j :: 0 <= i < j < |calls| ==> calls[i].at <= calls[j].at)
  }

  /** The limiter as a step function. */
  function Limit(c: Config, evict: bool): (Buckets, Call) -> Outcome<Buckets> {
    (bs: Buckets, call: Call) => Admit(c, bs, call.key, call.at, evict)
  }

  /** The decisions of a run, oldest first. */
  function Decisions<S>(step: (S, Call) -> Outcome<S>, s: S, calls: seq<Call>): (ds: seq<bool>)
    ensures |ds| == |calls|
    decreases |calls|
  {
    if calls == [] then [] else [step(s, calls[0]).ok] + Decisions(step, step(s, calls[0]).next, calls[1..])
  }

  /** How many calls on the key were admitted, as an amount of tokens. */
  function Admitted(key: Key, calls: seq<Call>, decisions: seq<bool>): real
    requires |calls| == |decisions|
  {
    if calls == [] then 0.0
    else (if calls[0].key == key && decisions[0] then 1.0 else 0.0) + Admitted(key, calls[1..], decisions[1..])
  }

  /** Two steppers that keep a relation, and decide alike while it holds, decide every run alike. */
  lemma {:induction false} RelatedRunsAgree<S(!new), T(!new)>(
      one: (S, Call) -> Outcome<S>, two: (T, Call) -> Outcome<T>, related: (S, T, real) -> bool,
      s: S, t: T, from: real, calls: seq<Call>)
    requires Monotone(calls, from) && related(s, t, from)
    requires forall s, t, from, call: Call :: related(s, t, from) && from <= call.at ==>
               one(s, call).ok == two(t, call).ok && related(one(s, call).next, two(t, call).next, call.at)
    ensures Decisions(one, s, calls) == Decisions(two, t, calls)
    decreases |calls|
  {
    if calls != [] {
      LaterCalls(calls, from);
      RelatedRunsAgree(one, two, related, one(s, calls[0]).next, two(t, calls[0]).next, calls[0].at, calls[1..]);
    }
  }

  lemma LaterCalls(calls: seq<Call>, from: real)
    requires calls != [] && Monotone(calls, from)
    ensures from <= calls[0].at && Monotone(calls[1..], calls[0].at)
  {
  }

  function Cost(key: Key, call: Call, ok: bool): real {
    if call.key == key && ok then 1.0 else 0.0
  }

  /** Calls keep the limiter in order, now and later. */
  ghost predicate StaysGood<S(!new)>(step: (S, Call) -> Outcome<S>, good: (S, real) -> bool) {
    && (forall s, t, t' :: good(s, t) && t <= t' ==> good(s, t'))
    && (forall s, call: Call :: good(s, call.at) ==> good(step(s, call).next, call.at))
  }

  /** An admitted call takes its token from the key's level; nothing else changes that level. */
  ghost predicate Spends<S(!new)>(step: (S, Call) -> Outcome<S>, level: (S, real) -> real, good: (S, real) -> bool, key: Key) {
    forall s, call: Call :: good(s, call.at) ==>
      Cost(key, call, step(s, call).ok) + level(step(s, call).next, call.at) == level(s, call.at)
  }

  /** With time the level gains no more than the gain. */
  ghost predicate Grows<S(!new)>(level: (S, real) -> real, gain: (real, real) -> real, good: (S, real) -> bool) {
    forall s, t, t' :: good(s, t) && t <= t' ==> level(s, t') <= level(s, t) + gain(t, t')
  }

  ghost predicate StaysWithin<S(!new)>(level: (S, real) -> real, good: (S, real) -> bool, burst: real) {
    forall s, t :: good(s, t) ==> 0.0 <= level(s, t) <= burst
  }

  ghost predicate GainsAddUp(gain: (real, real) -> real) {
    && (forall a, b :: a <= b ==> gain(a, b) >= 0.0)
    && (forall a, b, c :: a <= b <= c ==> gain(a, b) + gain(b, c) <= gain(a, c))
  }

  /** Then the admissions of a window are covered by the level at its start and the gain over it. */
  lemma {:induction false} AdmittedIsPaidFor<S(!new)>(
      step: (S, Call) -> Outcome<S>, level: (S, real) -> real, gain: (real, real) -> real, good: (S, real) -> bool, key: Key, burst: real,
      s: S, from: real, until: real, calls: seq<Call>)
    requires StaysGood(step, good) && Spends(step, level, good, key) && Grows(level, gain, good)
    requires StaysWithin(level, good, burst) && GainsAddUp(gain)
    requires good(s, from) && Monotone(calls, from)
    requires from <= until && forall i :: 0 <= i < |calls| ==> calls[i].at <= until
    ensures Admitted(key, calls, Decisions(step, s, calls)) <= level(s, from) + gain(from, until)
    ensures Admitted(key, calls, Decisions(step, s, calls)) <= burst + gain(from, until)
    decreases |calls|
  {
    if calls != [] {
      var o, now := step(s, calls[0]), calls[0].at;
      LaterCalls(calls, from);
      assert good(s, now);
      AdmittedIsPaidFor(step, level, gain, good, key, burst, o.next, now, until, calls[1..]);
      assert Decisions(step, s, calls)[1..] == Decisions(step, o.next, calls[1..]);
      assert gain(from, now) + gain(now, until) <= gain(from, until);
    }
  }

  /* ---------- the two main results ---------- */

  /** Every limited key refills its burst within the ten idle minutes. */
  ghost predicate RefillsWhenIdle(c: Config) {
    forall k :: Rate(c, k) > 0.0 ==> 10.0 * Rate(c, k) >= Burst(c, k)
  }

  /** No one can tell the two tables apart from this time on. */
  ghost predicate SameLevels(c: Config, a: Buckets, b: Buckets, from: real) {
    && Consistent(c, a, from) && Consistent(c, b, from)
    && forall k, at :: Rate(c, k) > 0.0 && from <= at ==> Level(c, a, k, at) == Level(c, b, k, at)
  }

  lemma SameLevelsStep(c: Config, a: Buckets, b: Buckets, from: real, call: Call)
    requires RefillsWhenIdle(c) && from <= call.at && SameLevels(c, a, b, from)
    ensures Admit(c, a, call.key, call.at, true).ok == Admit(c, b, call.key, call.at, false).ok
    ensures SameLevels(c, Admit(c, a, call.key, call.at, true).next, Admit(c, b, call.key, call.at, false).next, call.at)
  {
    var Call(key, now) := call;
    var a', b' := Admit(c, a, key, now, true), Admit(c, b, key, now, false);
    assert Consistent(c, a, now) && Consistent(c, b, now);
    AdmitKeepsConsistent(c, a, key, now, true);
    AdmitKeepsConsistent(c, b, key, now, false);
    if Rate(c, key) > 0.0 {
      assert Level(c, a, key, now) == Level(c, b, key, now);
      AdmitSpends(c, a, key, now, true);
      AdmitSpends(c, b, key, now, false);
      forall k, at | Rate(c, k) > 0.0 && now <= at
        ensures Level(c, a'.next, k, at) == Level(c, b'.next, k, at)
      {
        SameLevelAfter(c, a, b, key, now, k, at);
      }
    }
  }

  lemma SameLevelAfter(c: Config, a: Buckets, b: Buckets, key: Key, now: real, k: Key, at: real)
    requires Consistent(c, a, now) && Consistent(c, b, now) && Rate(c, key) > 0.0 && Rate(c, k) > 0.0 && now <= at
    requires 10.0 * Rate(c, k) >= Burst(c, k)
    requires Level(c, a, k, at) == Level(c, b, k, at) && Level(c, a, key, now) == Level(c, b, key, now)
    ensures Level(c, Admit(c, a, key, now, true).next, k, at) == Level(c, Admit(c, b, key, now, false).next, k, at)
  {
    var a', b' := Admit(c, a, key, now, true), Admit(c, b, key, now, false);
    if k == key {
      AdmitSpends(c, a, key, now, true);
      AdmitSpends(c, b, key, now, false);
      AdmitKeepsConsistent(c, a, key, now, true);
      AdmitKeepsConsistent(c, b, key, now, false);
      LevelGrows(c, a'.next, key, now, at);
      LevelGrows(c, b'.next, key, now, at);
    } else {
      AdmitSparesOthers(c, a, key, now, true, k, at);
      AdmitSparesOthers(c, b, key, now, false, k, at);
    }
  }

  /** Eviction is invisible: a limiter that sweeps idle buckets decides every sequence of calls,
      over any keys, exactly like one that never forgets. */
  lemma EvictionIsInvisible(c: Config, from: real, calls: seq<Call>)
    requires RefillsWhenIdle(c) && Monotone(calls, from)
    ensures Decisions(Limit(c, true), map[], calls) == Decisions(Limit(c, false), map[], calls)
  {
    var one, two := Limit(c, true), Limit(c, false);
    var related := (a, b, t) => SameLevels(c, a, b, t);
    forall a, b, t, call: Call | related(a, b, t) && t <= call.at
      ensures one(a, call).ok == two(b, call).ok && related(one(a, call).next, two(b, call).next, call.at)
    {
      SameLevelsStep(c, a, b, t, call);
    }
    RelatedRunsAgree(one, two, related, map[], map[], from, calls);
  }

  /** What a call takes from a key, by level. */
  lemma CallCostsItsToken(c: Config, bs: Buckets, key: Key, call: Call, evict: bool)
    requires Consistent(c, bs, call.at) && Rate(c, key) > 0.0
    requires evict ==> 10.0 * Rate(c, key) >= Burst(c, key)
    ensures Cost(key, call, Admit(c, bs, call.key, call.at, evict).ok) + Level(c, Admit(c, bs, call.key, call.at, evict).next, key, call.at)
              == Level(c, bs, key, call.at)
  {
    if call.key == key {
      AdmitSpends(c, bs, key, call.at, evict);
    } else {
      AdmitSparesOthers(c, bs, call.key, call.at, evict, key, call.at);
    }
  }

  lemma LevelGainsAtMost(c: Config, bs: Buckets, key: Key, from: real, now: real)
    requires Consistent(c, bs, from) && from <= now && Rate(c, key) > 0.0
    ensures Level(c, bs, key, now) <= Level(c, bs, key, from) + (now - from) * PerSecond(c, key)
  {
    LevelGrows(c, bs, key, from, now);
    LevelIsBounded(c, bs, key, from);
    GrowStaysInside(Burst(c, key), PerSecond(c, key), Level(c, bs, key, from), now - from);
  }

  function LevelOf(c: Config, key: Key): (Buckets, real) -> real {
    (bs: Buckets, t: real) => Level(c, bs, key, t)
  }

  /** What the key's rate yields between two times: a sixtieth of the rate per second. */
  function GainOf(c: Config, key: Key): (real, real) -> real {
    (from: real, until: real) => (until - from) * PerSecond(c, key)
  }

  ghost function ConsistentIn(c: Config): (Buckets, real) -> bool {
    (bs: Buckets, t: real) => Consistent(c, bs, t)
  }

  lemma LimiterStaysGood(c: Config, evict: bool)
    ensures StaysGood(Limit(c, evict), ConsistentIn(c))
  {
    forall bs, call: Call | ConsistentIn(c)(bs, call.at) ensures ConsistentIn(c)(Limit(c, evict)(bs, call).next, call.at) {
      AdmitKeepsConsistent(c, bs, call.key, call.at, evict);
    }
  }

  lemma LimiterSpends(c: Config, key: Key, evict: bool)
    requires Rate(c, key) > 0.0 && (evict ==> 10.0 * Rate(c, key) >= Burst(c, key))
    ensures Spends(Limit(c, evict), LevelOf(c, key), ConsistentIn(c), key)
  {
    forall bs, call: Call | ConsistentIn(c)(bs, call.at)
      ensures Cost(key, call, Limit(c, evict)(bs, call).ok) + LevelOf(c, key)(Limit(c, evict)(bs, call).next, call.at) == LevelOf(c, key)(bs, call.at)
    {
      CallCostsItsToken(c, bs, key, call, evict);
    }
  }

  lemma LimiterGrows(c: Config, key: Key)
    requires Rate(c, key) > 0.0
    ensures Grows(LevelOf(c, key), GainOf(c, key), ConsistentIn(c))
  {
    forall bs, t, t' | ConsistentIn(c)(bs, t) && t <= t'
      ensures LevelOf(c, key)(bs, t') <= LevelOf(c, key)(bs, t) + GainOf(c, key)(t, t')
    {
      LevelGainsAtMost(c, bs, key, t, t');
    }
  }

  lemma LimiterStaysWithin(c: Config, key: Key)
    ensures StaysWithin(LevelOf(c, key), ConsistentIn(c), Burst(c, key))
  {
    forall bs, t | ConsistentIn(c)(bs, t) ensures 0.0 <= LevelOf(c, key)(bs, t) <= Burst(c, key) {
      LevelIsBounded(c, bs, key, t);
    }
  }

  lemma ConstantRateAddsUp(c: Config, key: Key)
    requires Rate(c, key) > 0.0
    ensures GainsAddUp(GainOf(c, key))
  {
    var gain := GainOf(c, key);
    forall a, b | a <= b ensures gain(a, b) >= 0.0 {
      ProductIsPositive(b - a, PerSecond(c, key));
    }
    forall a, b, d | a <= b <= d ensures gain(a, b) + gain(b, d) <= gain(a, d) {
      Distribute(b - a, d - b, PerSecond(c, key));
      assert (b - a) + (d - b) == d - a;
    }
  }

  /** Any window of T seconds admits at most burst + rate / 60 * T calls on a key, from every
      consistent state and under any traffic on other keys. */
  lemma WindowBound(c: Config, bs: Buckets, key: Key, from: real, until: real, calls: seq<Call>, evict: bool)
    requires Consistent(c, bs, from) && Monotone(calls, from) && Rate(c, key) > 0.0
    requires from <= until && forall i :: 0 <= i < |calls| ==> calls[i].at <= until
    requires evict ==> 10.0 * Rate(c, key) >= Burst(c, key)
    ensures Admitted(key, calls, Decisions(Limit(c, evict), bs, calls)) <= Burst(c, key) + GainOf(c, key)(from, until)
  {
    LimiterStaysGood(c, evict);
    LimiterSpends(c, key, evict);
    LimiterGrows(c, key);
    LimiterStaysWithin(c, key);
    ConstantRateAddsUp(c, key);
    AdmittedIsPaidFor(Limit(c, evict), LevelOf(c, key), GainOf(c, key), ConsistentIn(c), key, Burst(c, key), bs, from, until, calls);
  }
}
