/** The per-key token bucket of internal/server/middleware.go, over real time. */
module RateLimiter {
  import opened Basics

  /** What requests are keyed by: the client's address. */
  type Key(==, !new)

  datatype Bucket = Bucket(tokens: real, last: real)

  datatype Config = Config(rate: real, burst: real)

  /** `newRateLimiter`: both settings are positive integers. */
  function NewConfig(perMin: nat, burst: nat): Config {
    Config(perMin as real / 60.0, burst as real)
  }

  ghost predicate Sensible(c: Config) {
    c.rate > 0.0 && c.burst >= 1.0
  }

  /** Buckets idle for longer are pruned, in seconds. */
  const IDLE: real := 600.0

  /** `lastGc` is absent before the first call, whose prune is always due. */
  datatype State = State(buckets: map<Key, Bucket>, lastGc: Option<real>)

  function Min(a: real, b: real): real {
    if a <= b then a else b
  }

  /** What an interval refills. */
  function Refill(c: Config, seconds: real): real {
    seconds * c.rate
  }

  lemma RefillSum(c: Config, x: real, y: real)
    ensures Refill(c, x) + Refill(c, y) == Refill(c, x + y)
  {
  }

  lemma RefillPositive(c: Config, x: real)
    requires x >= 0.0 && c.rate >= 0.0
    ensures Refill(c, x) >= 0.0 && Refill(c, 0.0) == 0.0
  {
  }

  /** The bucket a call finds: full when it is new, else refilled for the time since its last call. */
  function Refilled(c: Config, m: map<Key, Bucket>, k: Key, now: real): Bucket {
    if k in m then Bucket(Min(c.burst, m[k].tokens + Refill(c, now - m[k].last)), now) else Bucket(c.burst, now)
  }

  function Pruned(m: map<Key, Bucket>, now: real): map<Key, Bucket> {
    map k | k in m && now - m[k].last <= IDLE :: m[k]
  }

  predicate Due(lastGc: Option<real>, now: real) {
    lastGc.None? || now - lastGc.value > IDLE
  }

  /** `allow`, with or without the pruning. */
  function Allow(c: Config, prune: bool, s: State, k: Key, now: real): (State, bool) {
    var b := Refilled(c, s.buckets, k, now);
    var all := s.buckets[k := b];
    var due := prune && Due(s.lastGc, now);
    var kept := if due then Pruned(all, now) else all;
    var gc := if due then Some(now) else s.lastGc;
    if b.tokens < 1.0 then (State(kept, gc), false) else (State(kept[k := Bucket(b.tokens - 1.0, now)], gc), true)
  }

  /** The limiter as it runs. */
  class Limiter {
    const c: Config
    var buckets: map<Key, Bucket>
    var lastGc: Option<real>

    ghost function Value(): State
      reads this
    {
      State(buckets, lastGc)
    }

    constructor (perMin: nat, burst: nat)
      ensures c == NewConfig(perMin, burst) && Value() == State(map[], None)
    {
      c := NewConfig(perMin, burst);
      buckets, lastGc := map[], None;
    }

    method Prune(now: real)
      modifies this`buckets
      ensures buckets == Pruned(old(buckets), now)
    {
      var todo := buckets.Keys;
      while todo != {}
        invariant todo <= buckets.Keys <= old(buckets.Keys)
        invariant forall k | k in buckets :: buckets[k] == old(buckets)[k]
        invariant forall k | k in old(buckets) && k !in todo :: k in buckets <==> now - old(buckets)[k].last <= IDLE
        decreases |todo|
      {
        var k :| k in todo;
        todo := todo - {k};
        if now - buckets[k].last > IDLE {
          buckets := buckets - {k};
        }
      }
    }

    method TryAllow(k: Key, now: real) returns (ok: bool)
      modifies this
      ensures (Value(), ok) == Allow(c, true, old(Value()), k, now)
      ensures k in buckets && forall q | q != k :: q in buckets <==>
        && q in old(buckets)
        && (now - old(buckets)[q].last <= 600.0 || (old(lastGc).Some? && now - old(lastGc).value <= 600.0))
    {
      var b;
      if k !in buckets {
        b := Bucket(c.burst, now);
      } else {
        var tokens := buckets[k].tokens + Refill(c, now - buckets[k].last);
        b := Bucket(if tokens > c.burst then c.burst else tokens, now);
      }
      buckets := buckets[k := b];
      if lastGc.None? || now - lastGc.value > IDLE {
        Prune(now);
        lastGc := Some(now);
      }
      if b.tokens < 1.0 {
        return false;
      }
      buckets := buckets[k := Bucket(b.tokens - 1.0, now)];
      return true;
    }
  }

  // ---- Runs ----

  datatype Call = Call(key: Key, at: real)

  ghost predicate Timely(calls: seq<Call>) {
    forall i, j | 0 <= i < j < |calls| :: calls[i].at <= calls[j].at
  }

  function After(c: Config, prune: bool, calls: seq<Call>, n: nat): State
    requires n <= |calls|
  {
    if n == 0 then State(map[], None)
    else Allow(c, prune, After(c, prune, calls, n - 1), calls[n - 1].key, calls[n - 1].at).0
  }

  predicate Allowed(c: Config, prune: bool, calls: seq<Call>, n: nat)
    requires n < |calls|
  {
    Allow(c, prune, After(c, prune, calls, n), calls[n].key, calls[n].at).1
  }

  /** How many calls of key `k` among `i..j` were allowed. */
  function AllowedCount(c: Config, prune: bool, calls: seq<Call>, k: Key, i: nat, j: nat): nat
    requires i <= j <= |calls|
    decreases j - i
  {
    if i == j then 0
    else AllowedCount(c, prune, calls, k, i, j - 1)
         + if calls[j - 1].key == k && Allowed(c, prune, calls, j - 1) then 1 else 0
  }

  // ---- Tokens stay in range ----

  ghost predicate InRange(c: Config, s: State, now: real) {
    forall k | k in s.buckets :: 0.0 <= s.buckets[k].tokens <= c.burst && s.buckets[k].last <= now
  }

  lemma RefillInRange(c: Config, s: State, k: Key, was: real, now: real)
    requires Sensible(c) && InRange(c, s, was) && was <= now
    ensures var b := Refilled(c, s.buckets, k, now); 0.0 <= b.tokens <= c.burst
  {
    if k in s.buckets {
      assert 0.0 <= s.buckets[k].tokens && s.buckets[k].last <= was;
      RefillPositive(c, now - s.buckets[k].last);
    }
    hide Refill;
  }

  lemma AllowInRange(c: Config, prune: bool, s: State, k: Key, was: real, now: real)
    requires Sensible(c) && InRange(c, s, was) && was <= now
    ensures InRange(c, Allow(c, prune, s, k, now).0, now)
  {
    RefillInRange(c, s, k, was, now);
    hide Refilled;
  }

  /** For any calls at non-decreasing times every bucket holds between 0 and burst tokens, at every moment. */
  lemma {:induction false} TokensStayInRange(c: Config, prune: bool, calls: seq<Call>, n: nat)
    requires Sensible(c) && Timely(calls) && 0 < n <= |calls|
    ensures InRange(c, After(c, prune, calls, n), calls[n - 1].at)
  {
    hide Allow;
    if n > 1 {
      TokensStayInRange(c, prune, calls, n - 1);
      AllowInRange(c, prune, After(c, prune, calls, n - 1), calls[n - 1].key, calls[n - 2].at, calls[n - 1].at);
    } else {
      assert After(c, prune, calls, 0) == State(map[], None);
      AllowInRange(c, prune, State(map[], None), calls[0].key, calls[0].at, calls[0].at);
    }
  }

  // ---- The bound, without pruning ----

  /** What a call of `k` at `now` would find in its bucket. */
  function Avail(c: Config, s: State, k: Key, now: real): real {
    Refilled(c, s.buckets, k, now).tokens
  }

  lemma AvailGrows(c: Config, s: State, k: Key, t: real, u: real)
    requires Sensible(c) && t <= u
    ensures Avail(c, s, k, u) <= Avail(c, s, k, t) + Refill(c, u - t)
  {
    hide Refill;
    RefillPositive(c, u - t);
    if k in s.buckets {
      RefillSum(c, t - s.buckets[k].last, u - t);
      assert t - s.buckets[k].last + (u - t) == u - s.buckets[k].last;
    }
  }

  lemma AllowSpends(c: Config, s: State, k: Key, other: Key, now: real)
    requires Sensible(c) && Avail(c, s, k, now) <= c.burst
    ensures var (t, ok) := Allow(c, false, s, other, now);
      && Avail(c, t, k, now) == Avail(c, s, k, now) - (if other == k && ok then 1.0 else 0.0)
      && (other == k && ok ==> Avail(c, s, k, now) >= 1.0)
  {
    hide Refill;
    RefillPositive(c, 0.0);
    var (t, ok) := Allow(c, false, s, other, now);
    if other == k {
      assert t.buckets[k].last == now && now - now == 0.0;
    }
  }

  /** Allowed calls plus what is left never exceed what was there plus what has been refilled. */
  lemma {:induction false} PlainLedger(c: Config, calls: seq<Call>, k: Key, i: nat, j: nat)
    requires Sensible(c) && Timely(calls) && i < j <= |calls|
    ensures AllowedCount(c, false, calls, k, i, j) as real + Avail(c, After(c, false, calls, j), k, calls[j - 1].at)
         <= Avail(c, After(c, false, calls, i), k, calls[i].at) + Refill(c, calls[j - 1].at - calls[i].at)
    decreases j - i
  {
    hide Avail, Allow, Allowed, Refill;
    var s := After(c, false, calls, j - 1);
    var now := calls[j - 1].at;
    AvailBounded(c, s, k, now);
    AllowSpends(c, s, k, calls[j - 1].key, now);
    AllowedMeans(c, false, calls, j - 1);
    if j - 1 > i {
      PlainLedger(c, calls, k, i, j - 1);
      AvailGrows(c, s, k, calls[j - 2].at, now);
      RefillSum(c, calls[j - 2].at - calls[i].at, now - calls[j - 2].at);
      assert calls[j - 2].at - calls[i].at + (now - calls[j - 2].at) == now - calls[i].at;
    } else {
      RefillPositive(c, 0.0);
      assert now - now == 0.0;
      assert AllowedCount(c, false, calls, k, i, i) == 0;
    }
  }

  lemma AllowedMeans(c: Config, prune: bool, calls: seq<Call>, n: nat)
    requires n < |calls|
    ensures Allowed(c, prune, calls, n) == Allow(c, prune, After(c, prune, calls, n), calls[n].key, calls[n].at).1
  {
  }

  lemma AvailBounded(c: Config, s: State, k: Key, now: real)
    ensures Avail(c, s, k, now) <= c.burst
  {
  }

  /** Requests of one key allowed in any window: at most the burst plus what the window's length refills. */
  ghost predicate Bounded(c: Config, prune: bool, calls: seq<Call>) {
    forall k, i, j | 0 <= i < j <= |calls| ::
      AllowedCount(c, prune, calls, k, i, j) as real <= c.burst + Refill(c, calls[j - 1].at - calls[i].at)
  }

  lemma PlainIsBounded(c: Config, calls: seq<Call>)
    requires Sensible(c) && Timely(calls)
    ensures Bounded(c, false, calls)
  {
    hide Refill;
    forall k, i, j | 0 <= i < j <= |calls|
      ensures AllowedCount(c, false, calls, k, i, j) as real <= c.burst + Refill(c, calls[j - 1].at - calls[i].at)
    {
      PlainLedger(c, calls, k, i, j);
      AvailBounded(c, After(c, false, calls, i), k, calls[i].at);
      TokensStayInRange(c, false, calls, j);
      RefillInRange(c, After(c, false, calls, j), k, calls[j - 1].at, calls[j - 1].at);
    }
  }

  // ---- No call is refused without need ----

  /** What the calls of `k` from the `i`-th on leave, of a full bucket then. */
  function LeftSince(c: Config, calls: seq<Call>, k: Key, i: nat, n: nat, now: real): real
    requires i < n <= |calls|
  {
    c.burst + Refill(c, now - calls[i].at) - AllowedCount(c, false, calls, k, i, n) as real
  }

  /** Some window ending at `now` has left exactly what is in the bucket - or it is full. */
  ghost predicate Attained(c: Config, calls: seq<Call>, k: Key, n: nat, now: real)
    requires n <= |calls|
  {
    var a := Avail(c, After(c, false, calls, n), k, now);
    a == c.burst || exists i :: 0 <= i < n && calls[i].key == k && a == LeftSince(c, calls, k, i, n, now)
  }

  lemma OtherKeyLeaves(c: Config, s: State, other: Key, at: real, k: Key, now: real)
    requires other != k
    ensures Avail(c, Allow(c, false, s, other, at).0, k, now) == Avail(c, s, k, now)
  {
    hide Refill;
  }

  lemma OwnCallLeaves(c: Config, s: State, k: Key, at: real, now: real)
    ensures var (t, ok) := Allow(c, false, s, k, at);
      Avail(c, t, k, now) == Min(c.burst, Avail(c, s, k, at) - (if ok then 1.0 else 0.0) + Refill(c, now - at))
  {
    hide Refill;
  }

  lemma {:induction false} BucketIsAttained(c: Config, calls: seq<Call>, k: Key, n: nat, now: real)
    requires Sensible(c) && Timely(calls) && n <= |calls| && (n > 0 ==> calls[n - 1].at <= now)
    ensures Attained(c, calls, k, n, now)
  {
    hide Allow, Avail, Refill, Allowed;
    if n == 0 {
      assert Avail(c, State(map[], None), k, now) == c.burst by { NewIsFull(c, k, now); }
    } else {
      var s, call := After(c, false, calls, n - 1), calls[n - 1];
      AllowedMeans(c, false, calls, n - 1);
      if call.key != k {
        BucketIsAttained(c, calls, k, n - 1, now);
        OtherKeyLeaves(c, s, call.key, call.at, k, now);
        if i :| 0 <= i < n - 1 && calls[i].key == k && Avail(c, s, k, now) == LeftSince(c, calls, k, i, n - 1, now) {
          assert LeftSince(c, calls, k, i, n, now) == LeftSince(c, calls, k, i, n - 1, now);
        }
      } else {
        BucketIsAttained(c, calls, k, n - 1, call.at);
        OwnCallLeaves(c, s, k, call.at, now);
        assert AllowedCount(c, false, calls, k, n - 1, n - 1) == 0;
        if Avail(c, s, k, call.at) == c.burst {
          assert Attained(c, calls, k, n, now) by {
            var a := Avail(c, After(c, false, calls, n), k, now);
            assert a == c.burst || a == LeftSince(c, calls, k, n - 1, n, now);
          }
        } else {
          var i :| 0 <= i < n - 1 && calls[i].key == k
                   && Avail(c, s, k, call.at) == LeftSince(c, calls, k, i, n - 1, call.at);
          RefillSum(c, call.at - calls[i].at, now - call.at);
          assert call.at - calls[i].at + (now - call.at) == now - calls[i].at;
          assert AllowedCount(c, false, calls, k, i, n)
              == AllowedCount(c, false, calls, k, i, n - 1) + if Allowed(c, false, calls, n - 1) then 1 else 0;
        }
      }
    }
  }

  lemma NewIsFull(c: Config, k: Key, now: real)
    ensures Avail(c, State(map[], None), k, now) == c.burst
  {
  }

  /** A call can be allowed: no window that begins with a call of its key would exceed the bound by it. */
  ghost predicate Fits(c: Config, prune: bool, calls: seq<Call>, n: nat)
    requires n < |calls|
  {
    var k := calls[n].key;
    forall i | 0 <= i < n && calls[i].key == k ::
      AllowedCount(c, prune, calls, k, i, n) as real + 1.0 <= c.burst + Refill(c, calls[n].at - calls[i].at)
  }

  lemma NeverMoreThanLeft(c: Config, calls: seq<Call>, k: Key, i: nat, n: nat, now: real)
    requires Sensible(c) && Timely(calls) && i < n <= |calls| && calls[n - 1].at <= now
    ensures Avail(c, After(c, false, calls, n), k, now) <= LeftSince(c, calls, k, i, n, now)
  {
    hide Avail, Refill, AllowedCount;
    var s, last := After(c, false, calls, n), calls[n - 1].at;
    PlainLedger(c, calls, k, i, n);
    AvailBounded(c, After(c, false, calls, i), k, calls[i].at);
    AvailGrows(c, s, k, last, now);
    RefillSum(c, last - calls[i].at, now - last);
    assert last - calls[i].at + (now - last) == now - calls[i].at;
  }

  lemma AllowedIfLeft(c: Config, calls: seq<Call>, n: nat)
    requires n < |calls|
    ensures Allowed(c, false, calls, n) <==> Avail(c, After(c, false, calls, n), calls[n].key, calls[n].at) >= 1.0
  {
    hide Refill, After;
  }

  /** The limiter allows exactly what the bound leaves room for: a call is refused only if some window that begins with
      an earlier call of its key would exceed it. */
  lemma PlainAllowsIff(c: Config, calls: seq<Call>, n: nat)
    requires Sensible(c) && Timely(calls) && n < |calls|
    ensures Allowed(c, false, calls, n) <==> Fits(c, false, calls, n)
  {
    hide Avail, Refill, AllowedCount, After, Allowed;
    var k, now := calls[n].key, calls[n].at;
    AllowedIfLeft(c, calls, n);
    var a := Avail(c, After(c, false, calls, n), k, now);
    forall i | 0 <= i < n
      ensures a <= LeftSince(c, calls, k, i, n, now)
      ensures LeftSince(c, calls, k, i, n, now)
           == c.burst + Refill(c, now - calls[i].at) - AllowedCount(c, false, calls, k, i, n) as real
    {
      NeverMoreThanLeft(c, calls, k, i, n, now);
    }
    BucketIsAttained(c, calls, k, n, now);
    if a >= 1.0 {
      forall i | 0 <= i < n && calls[i].key == k
        ensures AllowedCount(c, false, calls, k, i, n) as real + 1.0 <= c.burst + Refill(c, now - calls[i].at)
      {
        assert a <= LeftSince(c, calls, k, i, n, now);
      }
    } else {
      var i :| 0 <= i < n && calls[i].key == k && a == LeftSince(c, calls, k, i, n, now);
      assert AllowedCount(c, false, calls, k, i, n) as real + 1.0 > c.burst + Refill(c, now - calls[i].at);
    }
  }

  // ---- Pruning ----

  /** A pruned bucket would have been full again anyway. */
  ghost predicate Matches(c: Config, pruned: State, plain: State, now: real) {
    && (forall k | k in pruned.buckets :: k in plain.buckets && pruned.buckets[k] == plain.buckets[k])
    && (forall k | k in plain.buckets :: plain.buckets[k].last <= now && 0.0 <= plain.buckets[k].tokens)
    && (forall k | k in plain.buckets && k !in pruned.buckets :: Full(c, plain.buckets[k], now))
  }

  ghost predicate Full(c: Config, b: Bucket, now: real) {
    b.tokens + Refill(c, now - b.last) >= c.burst
  }

  lemma FullStays(c: Config, b: Bucket, t: real, u: real)
    requires Sensible(c) && t <= u && Full(c, b, t)
    ensures Full(c, b, u)
  {
    hide Refill;
    RefillPositive(c, u - t);
    RefillSum(c, t - b.last, u - t);
    assert t - b.last + (u - t) == u - b.last;
  }

  lemma IdleIsFull(c: Config, b: Bucket, now: real)
    requires Sensible(c) && c.burst <= c.rate * IDLE && b.tokens >= 0.0 && now - b.last > IDLE
    ensures Full(c, b, now)
  {
    var more := now - b.last - IDLE;
    RefillPositive(c, more);
    RefillSum(c, IDLE, more);
    assert IDLE + more == now - b.last;
    assert Refill(c, IDLE) == c.rate * IDLE;
    hide Refill;
  }

  lemma MatchesLater(c: Config, s: State, t: State, was: real, now: real)
    requires Sensible(c) && was <= now && Matches(c, s, t, was)
    ensures Matches(c, s, t, now)
  {
    hide Full;
    forall k | k in t.buckets && k !in s.buckets
      ensures Full(c, t.buckets[k], now)
    {
      FullStays(c, t.buckets[k], was, now);
    }
  }

  lemma SameRefill(c: Config, s: State, t: State, k: Key, now: real)
    requires Matches(c, s, t, now)
    ensures Refilled(c, s.buckets, k, now) == Refilled(c, t.buckets, k, now)
  {
  }

  lemma AllowMatches(c: Config, s: State, t: State, k: Key, now: real)
    requires Sensible(c) && c.burst <= c.rate * IDLE && Matches(c, s, t, now)
    requires forall q | q in t.buckets :: t.buckets[q].tokens <= c.burst
    ensures var (s2, ok) := Allow(c, true, s, k, now); var (t2, ok2) := Allow(c, false, t, k, now);
      ok == ok2 && Matches(c, s2, t2, now)
  {
    hide Refilled, Full, Refill;
    SameRefill(c, s, t, k, now);
    forall q | q in t.buckets && now - t.buckets[q].last > IDLE
      ensures Full(c, t.buckets[q], now)
    {
      IdleIsFull(c, t.buckets[q], now);
    }
    assert Refilled(c, t.buckets, k, now).tokens >= 0.0 && Refilled(c, t.buckets, k, now).last == now by {
      RefillNotNegative(c, t, k, now);
    }
  }

  lemma RefillNotNegative(c: Config, s: State, k: Key, now: real)
    requires Sensible(c) && (k in s.buckets ==> s.buckets[k].tokens >= 0.0 && s.buckets[k].last <= now)
    ensures Refilled(c, s.buckets, k, now).tokens >= 0.0 && Refilled(c, s.buckets, k, now).last == now
  {
    hide Refill;
    if k in s.buckets {
      RefillPositive(c, now - s.buckets[k].last);
    }
  }

  lemma {:induction false} RunsMatch(c: Config, calls: seq<Call>, n: nat)
    requires Sensible(c) && c.burst <= c.rate * IDLE && Timely(calls) && n < |calls|
    ensures Matches(c, After(c, true, calls, n), After(c, false, calls, n), calls[n].at)
    ensures Allowed(c, true, calls, n) == Allowed(c, false, calls, n)
  {
    hide Allow, Matches, InRange;
    var s, t := After(c, true, calls, n), After(c, false, calls, n);
    if n > 0 {
      RunsMatch(c, calls, n - 1);
      var s0, t0, call := After(c, true, calls, n - 1), After(c, false, calls, n - 1), calls[n - 1];
      TokensAtMostBurst(c, calls, n - 1);
      AllowMatches(c, s0, t0, call.key, call.at);
      MatchesLater(c, s, t, call.at, calls[n].at);
    } else {
      EmptyMatches(c, calls[0].at);
    }
    TokensAtMostBurst(c, calls, n);
    AllowMatches(c, s, t, calls[n].key, calls[n].at);
    AllowedMeans(c, true, calls, n);
    AllowedMeans(c, false, calls, n);
  }

  lemma EmptyMatches(c: Config, now: real)
    ensures Matches(c, State(map[], None), State(map[], None), now)
  {
  }

  lemma TokensAtMostBurst(c: Config, calls: seq<Call>, n: nat)
    requires Sensible(c) && Timely(calls) && n <= |calls|
    ensures forall q | q in After(c, false, calls, n).buckets :: After(c, false, calls, n).buckets[q].tokens <= c.burst
  {
    if n > 0 {
      TokensStayInRange(c, false, calls, n);
    }
  }

  /** Pruning makes no difference to any decision of these calls. */
  ghost predicate Unobservable(c: Config, calls: seq<Call>) {
    forall n | 0 <= n < |calls| :: Allowed(c, true, calls, n) == Allowed(c, false, calls, n)
  }

  lemma {:induction false} SameCounts(c: Config, calls: seq<Call>, k: Key, i: nat, j: nat)
    requires i <= j <= |calls| && Unobservable(c, calls)
    ensures AllowedCount(c, true, calls, k, i, j) == AllowedCount(c, false, calls, k, i, j)
    decreases j - i
  {
    hide Allowed;
    if i < j {
      SameCounts(c, calls, k, i, j - 1);
    }
  }

  // ---- When the burst outlasts the prune ----

  /** Drain key `a`, let another key call at `t`, and call with `a` again. */
  function Comeback(a: Key, b: Key, n: nat, t: real): seq<Call> {
    seq(2 * n + 1, i requires 0 <= i < 2 * n + 1 =>
      if i < n then Call(a, 0.0) else if i == n then Call(b, t) else Call(a, t))
  }

  lemma {:induction false} Drains(c: Config, a: Key, b: Key, n: nat, t: real, i: nat)
    requires Sensible(c) && c.burst == n as real && t > IDLE && a != b && 0 < i <= n
    ensures var s := After(c, true, Comeback(a, b, n, t), i);
      s.lastGc == Some(0.0) && s.buckets == map[a := Bucket((n - i) as real, 0.0)]
    ensures AllowedCount(c, true, Comeback(a, b, n, t), a, 0, i) == i
  {
    var calls := Comeback(a, b, n, t);
    assert calls[i - 1] == Call(a, 0.0);
    if i > 1 {
      Drains(c, a, b, n, t, i - 1);
      RefillPositive(c, 0.0);
    } else {
      assert After(c, true, calls, 0) == State(map[], None);
      assert AllowedCount(c, true, calls, a, 0, 0) == 0;
    }
  }

  /** The other key's call prunes the drained bucket. */
  lemma OtherCallPrunes(c: Config, a: Key, b: Key, t: real)
    requires Sensible(c) && t > IDLE && a != b
    ensures Allow(c, true, State(map[a := Bucket(0.0, 0.0)], Some(0.0)), b, t)
         == (State(map[b := Bucket(c.burst - 1.0, t)], Some(t)), true)
  {
    var all := map[a := Bucket(0.0, 0.0), b := Bucket(c.burst, t)];
    assert map[a := Bucket(0.0, 0.0)][b := Bucket(c.burst, t)] == all;
    assert Pruned(all, t) == map[b := Bucket(c.burst, t)];
    assert map[b := Bucket(c.burst, t)][b := Bucket(c.burst - 1.0, t)] == map[b := Bucket(c.burst - 1.0, t)];
  }

  /** A call on a fresh bucket, or on one used this very instant. */
  lemma NextCall(c: Config, s: State, a: Key, t: real, left: real)
    requires Sensible(c) && s.lastGc == Some(t) && 1.0 <= left <= c.burst
    requires if a in s.buckets then s.buckets[a] == Bucket(left, t) else left == c.burst
    ensures var (s2, ok) := Allow(c, true, s, a, t);
      ok && s2.lastGc == Some(t) && a in s2.buckets && s2.buckets[a] == Bucket(left - 1.0, t)
  {
    hide Refill;
    RefillPositive(c, 0.0);
    assert t - t == 0.0;
  }

  lemma {:induction false} ComesBack(c: Config, a: Key, b: Key, n: nat, t: real, i: nat)
    requires Sensible(c) && c.burst == n as real && t > IDLE && a != b && i <= n
    ensures var s := After(c, true, Comeback(a, b, n, t), n + 1 + i);
      && s.lastGc == Some(t)
      && (if i == 0 then a !in s.buckets else a in s.buckets && s.buckets[a] == Bucket((n - i) as real, t))
    ensures AllowedCount(c, true, Comeback(a, b, n, t), a, 0, n + 1 + i) == n + i
  {
    hide Allow, Allowed, Comeback;
    var calls := Comeback(a, b, n, t);
    ComebackCalls(a, b, n, t, n + i);
    AllowedMeans(c, true, calls, n + i);
    if i > 0 {
      ComesBack(c, a, b, n, t, i - 1);
      assert n + 1 + (i - 1) == n + i && n - (i - 1) == n - i + 1;
      NextCall(c, After(c, true, calls, n + i), a, t, (n - i + 1) as real);
    } else {
      Drains(c, a, b, n, t, n);
      OtherCallPrunes(c, a, b, t);
    }
  }

  lemma ComebackCalls(a: Key, b: Key, n: nat, t: real, i: nat)
    requires i < 2 * n + 1
    ensures |Comeback(a, b, n, t)| == 2 * n + 1
    ensures Comeback(a, b, n, t)[i] == if i < n then Call(a, 0.0) else if i == n then Call(b, t) else Call(a, t)
  {
  }

  lemma ComebackIsTimely(a: Key, b: Key, n: nat, t: real)
    requires t > IDLE
    ensures Timely(Comeback(a, b, n, t)) && |Comeback(a, b, n, t)| == 2 * n + 1
  {
  }

  /** After the comeback twice the burst has been allowed, in a window that refills less than the burst. */
  lemma ComebackIsNotBounded(c: Config, a: Key, b: Key, n: nat, t: real)
    requires Sensible(c) && c.burst == n as real && n > 0 && t > IDLE && Refill(c, t) < c.burst && a != b
    ensures !Bounded(c, true, Comeback(a, b, n, t)) && !Unobservable(c, Comeback(a, b, n, t))
  {
    hide Allow, Allowed, Bounded, AllowedCount;
    var calls := Comeback(a, b, n, t);
    ComebackIsTimely(a, b, n, t);
    ComesBack(c, a, b, n, t, n);
    assert calls[0].at == 0.0 && calls[2 * n].at == t;
    Exceeds(c, true, calls, a, t, n);
    if Unobservable(c, calls) {
      SameCounts(c, calls, a, 0, 2 * n + 1);
      Exceeds(c, false, calls, a, t, n);
      PlainIsBounded(c, calls);
    }
  }

  lemma Exceeds(c: Config, prune: bool, calls: seq<Call>, k: Key, t: real, n: nat)
    requires n > 0 && |calls| == 2 * n + 1 && c.burst == n as real && Refill(c, t) < c.burst
    requires calls[0].at == 0.0 && calls[2 * n].at == t && AllowedCount(c, prune, calls, k, 0, 2 * n + 1) == 2 * n
    ensures !Bounded(c, prune, calls)
  {
    hide AllowedCount;
    hide Refill;
    assert calls[2 * n + 1 - 1].at - calls[0].at == t;
  }

  /** Pruning can never be observed, and the pruning limiter keeps the bound, exactly when an empty bucket refills
      within the ten minutes after which it may be pruned. */
  lemma PruningIsUnobservableIff(perMin: nat, burst: nat, a: Key, b: Key)
    requires perMin > 0 && burst > 0 && a != b
    ensures var c := NewConfig(perMin, burst);
      && ((forall calls | Timely(calls) :: Unobservable(c, calls)) <==> c.burst <= c.rate * IDLE)
      && ((forall calls | Timely(calls) :: Bounded(c, true, calls)) <==> c.burst <= c.rate * IDLE)
  {
    hide Unobservable, Bounded, Timely;
    var c := NewConfig(perMin, burst);
    if c.burst <= c.rate * IDLE {
      forall calls | Timely(calls)
        ensures Unobservable(c, calls) && Bounded(c, true, calls)
      {
        PruningIsUnobservable(c, calls);
      }
    } else {
      var t := (IDLE + c.burst / c.rate) / 2.0;
      Between(c, t);
      ComebackIsTimely(a, b, burst, t);
      ComebackIsNotBounded(c, a, b, burst, t);
    }
  }

  lemma Between(c: Config, t: real)
    requires c.rate > 0.0 && c.burst > c.rate * IDLE && t == (IDLE + c.burst / c.rate) / 2.0
    ensures t > IDLE && Refill(c, t) < c.burst
  {
    var q := c.burst / c.rate;
    assert Refill(c, q) == c.burst && Refill(c, IDLE) == c.rate * IDLE;
    hide Refill;
    if q <= IDLE {
      RefillPositive(c, IDLE - q);
      RefillSum(c, q, IDLE - q);
    }
    RefillSum(c, IDLE, q);
    RefillSum(c, t, t);
    assert t + t == IDLE + q;
  }

  /** The same of the limiter as it runs, when an empty bucket refills within the ten minutes. */
  lemma AllowsIff(c: Config, calls: seq<Call>, n: nat)
    requires Sensible(c) && c.burst <= c.rate * IDLE && Timely(calls) && n < |calls|
    ensures Allowed(c, true, calls, n) <==> Fits(c, true, calls, n)
  {
    hide Allowed, AllowedCount, Refill, Bounded, Timely;
    PruningIsUnobservable(c, calls);
    PlainAllowsIff(c, calls, n);
    forall i | 0 <= i <= n
      ensures AllowedCount(c, true, calls, calls[n].key, i, n) == AllowedCount(c, false, calls, calls[n].key, i, n)
    {
      SameCounts(c, calls, calls[n].key, i, n);
    }
  }

  lemma PruningIsUnobservable(c: Config, calls: seq<Call>)
    requires Sensible(c) && c.burst <= c.rate * IDLE && Timely(calls)
    ensures Unobservable(c, calls) && Bounded(c, true, calls)
  {
    hide Allowed, Allow, AllowedCount;
    forall n | 0 <= n < |calls|
      ensures Allowed(c, true, calls, n) == Allowed(c, false, calls, n)
    {
      RunsMatch(c, calls, n);
    }
    PlainIsBounded(c, calls);
    forall k, i, j | 0 <= i < j <= |calls|
      ensures AllowedCount(c, true, calls, k, i, j) == AllowedCount(c, false, calls, k, i, j)
    {
      SameCounts(c, calls, k, i, j);
    }
  }
}
