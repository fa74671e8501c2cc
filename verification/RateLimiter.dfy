/**
  The lazy fixed-window limiter of both gateways, and the per-key counter of the public API.

  A window is opened by the first admission after the previous window ended; nothing runs in
  between. The bounds below are about the sats admitted in an arbitrary interval, not in a
  window: at most twice the limit in any interval of one window length (TwiceTheLimit), and
  at most limit * (T/W + 1) in the first T seconds (BoundFromTheStart).
 */
module RateLimiter {
  import opened BridgeTypes

  datatype Limiter = Limiter(limitSats: nat, windowSeconds: nat, startedAt: int, used: nat)

  /** An attempt to admit an amount at a time. */
  datatype Attempt = Attempt(time: int, sats: nat)

  function SetLimit(now: Uint64, newLimitSats: Uint64, newWindowSeconds: Uint64): Outcome<Limiter> {
    if (newLimitSats == 0) != (newWindowSeconds == 0) then Revert(InvalidLimit)
    else Commit(Limiter(newLimitSats, newWindowSeconds, now, 0))
  }

  /** As configured: a window just opened, with nothing used, and both numbers or neither. */
  predicate IsConfiguration(l: Limiter) { l.used == 0 && (l.limitSats == 0 <==> l.windowSeconds == 0) }

  /** The window is restarted when the current one is over. */
  function Refresh(l: Limiter, now: int): Limiter {
    if now >= l.startedAt && now - l.startedAt >= l.windowSeconds then l.(startedAt := now, used := 0) else l
  }

  /** A limit of zero admits everything; the checked addition of two uint64 may overflow. */
  function Consume(l: Limiter, a: Attempt): Outcome<Limiter> {
    if l.limitSats == 0 then Commit(l)
    else
      var r := Refresh(l, a.time);
      if r.used + a.sats >= TWO_64 then Revert(ArithmeticOverflow)
      else if r.used + a.sats > l.limitSats then Revert(LimitExceeded)
      else Commit(r.(used := r.used + a.sats))
  }

  class LimiterContract {
    var limitSats: Uint64
    var limitWindowSeconds: Uint64
    var limitWindowStartedAt: Uint64
    var usedInCurrentWindow: Uint64

    function State(): Limiter
      reads this
    {
      Limiter(limitSats, limitWindowSeconds, limitWindowStartedAt, usedInCurrentWindow)
    }

    /** The contract's constructor sets a limit; a refused one refuses the deployment. */
    constructor (now: Uint64, newLimitSats: Uint64, newWindowSeconds: Uint64)
      requires SetLimit(now, newLimitSats, newWindowSeconds).Commit?
      ensures State() == SetLimit(now, newLimitSats, newWindowSeconds).state
    {
      limitSats, limitWindowSeconds := newLimitSats, newWindowSeconds;
      limitWindowStartedAt, usedInCurrentWindow := now, 0;
    }

    method Set(now: Uint64, newLimitSats: Uint64, newWindowSeconds: Uint64) returns (error: Option<Error>)
      modifies this
      ensures Did(SetLimit(now, newLimitSats, newWindowSeconds), old(State()), State(), error)
    {
      if (newLimitSats == 0 && newWindowSeconds != 0) || (newLimitSats != 0 && newWindowSeconds == 0) {
        return Some(InvalidLimit);
      }
      limitSats := newLimitSats;
      limitWindowSeconds := newWindowSeconds;
      limitWindowStartedAt := now;
      usedInCurrentWindow := 0;
      return None;
    }

    /** Restarting the window is undone when the call then reverts. */
    method Use(now: Uint64, sats: Uint64) returns (error: Option<Error>)
      modifies this
      ensures Did(Consume(old(State()), Attempt(now, sats)), old(State()), State(), error)
    {
      if limitSats == 0 {
        return None;
      }
      var savedStartedAt, savedUsed := limitWindowStartedAt, usedInCurrentWindow;
      var windowStartedAt := limitWindowStartedAt;
      if now >= windowStartedAt && now - windowStartedAt >= limitWindowSeconds {
        limitWindowStartedAt := now;
        usedInCurrentWindow := 0;
      }
      var usedSats := usedInCurrentWindow;
      if usedSats + sats >= TWO_64 {
        limitWindowStartedAt, usedInCurrentWindow := savedStartedAt, savedUsed;
        return Some(ArithmeticOverflow);
      }
      var nextUsedSats := usedSats + sats;
      if nextUsedSats > limitSats {
        limitWindowStartedAt, usedInCurrentWindow := savedStartedAt, savedUsed;
        return Some(LimitExceeded);
      }
      usedInCurrentWindow := nextUsedSats;
      return None;
    }
  }

  // ----- Runs of attempts -----

  /** Attempts in order of time, none before the limiter's current window was opened. */
  ghost predicate Timely(l: Limiter, attempts: seq<Attempt>) {
    && (forall i | 0 <= i < |attempts| :: l.startedAt <= attempts[i].time)
    && (forall i, j | 0 <= i < j < |attempts| :: attempts[i].time <= attempts[j].time)
  }

  function Next(l: Limiter, a: Attempt): Limiter {
    match Consume(l, a) case Commit(s) => s case Revert(_) => l
  }

  /** The sats that a run of attempts gets admitted at times in [from, to). */
  function Admitted(l: Limiter, attempts: seq<Attempt>, from: int, to: int): nat
    decreases |attempts|
  {
    if attempts == [] then 0
    else
      (if Consume(l, attempts[0]).Commit? && from <= attempts[0].time < to then attempts[0].sats else 0)
      + Admitted(Next(l, attempts[0]), attempts[1..], from, to)
  }

  predicate Limiting(l: Limiter) {
    0 < l.limitSats && 0 < l.windowSeconds && l.used <= l.limitSats
  }

  lemma NextIsTimely(l: Limiter, attempts: seq<Attempt>)
    requires Timely(l, attempts) && attempts != [] && Limiting(l)
    ensures Timely(Next(l, attempts[0]), attempts[1..]) && Limiting(Next(l, attempts[0]))
  {
  }

  /** Nothing is admitted in an interval that ends before the attempts begin. */
  lemma {:induction false} NothingTooLate(l: Limiter, attempts: seq<Attempt>, from: int, to: int)
    requires forall i | 0 <= i < |attempts| :: to <= attempts[i].time
    ensures Admitted(l, attempts, from, to) == 0
    decreases |attempts|
  {
    if attempts != [] {
      NothingTooLate(Next(l, attempts[0]), attempts[1..], from, to);
    }
  }

  /** What is left of the window that is open at the start of an interval shorter than it. */
  lemma {:induction false} RestOfWindow(l: Limiter, attempts: seq<Attempt>, from: int, to: int)
    requires Limiting(l) && Timely(l, attempts) && to <= l.startedAt + l.windowSeconds
    ensures Admitted(l, attempts, from, to) <= l.limitSats - l.used
    decreases |attempts|
  {
    if attempts != [] {
      var a := attempts[0];
      NextIsTimely(l, attempts);
      if a.time < to {
        RestOfWindow(Next(l, a), attempts[1..], from, to);
      } else {
        NothingTooLate(Next(l, a), attempts[1..], from, to);
      }
    }
  }

  /** From inside a window: what is left of it, and one fresh window. */
  lemma {:induction false} FromInsideWindow(l: Limiter, attempts: seq<Attempt>, from: int, to: int)
    requires Limiting(l) && Timely(l, attempts) && to <= from + l.windowSeconds
    requires l.startedAt <= from && forall i | 0 <= i < |attempts| :: from <= attempts[i].time
    ensures Admitted(l, attempts, from, to) <= 2 * l.limitSats - l.used
    decreases |attempts|
  {
    if attempts != [] {
      var a := attempts[0];
      NextIsTimely(l, attempts);
      if a.time >= to {
        NothingTooLate(Next(l, a), attempts[1..], from, to);
      } else if Next(l, a).startedAt == l.startedAt {
        FromInsideWindow(Next(l, a), attempts[1..], from, to);
      } else {
        RestOfWindow(Next(l, a), attempts[1..], from, to);
      }
    }
  }

  /**
    In any interval of one window length the limiter admits at most twice its limit: what was
    left of the window open when the interval began, and one fresh window.
   */
  lemma {:induction false} TwiceTheLimit(l: Limiter, attempts: seq<Attempt>, from: int, to: int)
    requires Limiting(l) && Timely(l, attempts) && to <= from + l.windowSeconds
    ensures Admitted(l, attempts, from, to) <= 2 * l.limitSats
    decreases |attempts|
  {
    if from <= l.startedAt {
      RestOfWindow(l, attempts, from, to);
    } else if attempts != [] && attempts[0].time < from {
      NextIsTimely(l, attempts);
      TwiceTheLimit(Next(l, attempts[0]), attempts[1..], from, to);
    } else {
      FromInsideWindow(l, attempts, from, to);
    }
  }

  /** An admission adds to the open window, or opens one when that is over. */
  lemma NextMoves(l: Limiter, a: Attempt)
    requires Limiting(l)
    ensures var n := Next(l, a);
      && n.limitSats == l.limitSats && n.windowSeconds == l.windowSeconds
      && (n.startedAt == l.startedAt || l.startedAt + l.windowSeconds <= n.startedAt == a.time)
      && n.used == (if n.startedAt == l.startedAt then l.used else 0) + (if Consume(l, a).Commit? then a.sats else 0)
  {
  }

  /**
    In the first T seconds of an open window: the rest of that window, and one more full window
    for every window length that has passed.
   */
  lemma {:induction false} BoundFromTheStart(l: Limiter, attempts: seq<Attempt>, t: nat)
    requires Limiting(l) && Timely(l, attempts)
    ensures Admitted(l, attempts, l.startedAt, l.startedAt + t) <= l.limitSats * (t / l.windowSeconds + 1) - l.used
    decreases |attempts|
  {
    var from, to, limit := l.startedAt, l.startedAt + t, l.limitSats;
    var windows := t / l.windowSeconds;
    if attempts != [] {
      var a := attempts[0];
      var n := Next(l, a);
      NextIsTimely(l, attempts);
      NextMoves(l, a);
      hide Consume, Next, Timely;
      if a.time >= to {
        NothingTooLate(n, attempts[1..], from, to);
        AtLeast(limit, windows);
      } else if n.startedAt == l.startedAt {
        BoundFromTheStart(n, attempts[1..], t);
      } else {
        var rest := to - n.startedAt;
        BoundFromTheStart(n, attempts[1..], rest);
        LaterStart(n, attempts[1..], from, n.startedAt, to);
        OneWindowMore(limit, t, rest, l.windowSeconds);
      }
    } else {
      AtLeast(limit, windows);
    }
  }

  /** The start of an interval does not matter where there are no attempts. */
  lemma {:induction false} LaterStart(l: Limiter, attempts: seq<Attempt>, from: int, from': int, to: int)
    requires from <= from' && forall i | 0 <= i < |attempts| :: from' <= attempts[i].time
    ensures Admitted(l, attempts, from, to) == Admitted(l, attempts, from', to)
    decreases |attempts|
  {
    if attempts != [] {
      LaterStart(Next(l, attempts[0]), attempts[1..], from, from', to);
    }
  }

  lemma AtLeast(limit: nat, n: nat)
    ensures limit * (n + 1) >= limit
  {
  }

  lemma AtLeastTimes(limit: nat, n: nat, m: nat)
    requires n <= m
    ensures limit * n <= limit * m && limit * (m + 1) == limit * m + limit
  {
  }

  lemma OneWindowLess(t: nat, rest: nat, w: nat)
    requires 0 < w && rest + w <= t
    ensures rest / w + 1 <= t / w
  {
    var q, p := rest / w, t / w;
    assert rest == w * q + rest % w && t == w * p + t % w;
    if p <= q {
      TimesMonotone(w, p, q);
    }
  }

  lemma OneWindowMore(limit: nat, t: nat, rest: nat, w: nat)
    requires 0 < w && rest + w <= t
    ensures limit * (rest / w + 1) <= limit * (t / w + 1) - limit
  {
    OneWindowLess(t, rest, w);
    AtLeastTimes(limit, rest / w + 1, t / w);
  }

  lemma TimesMonotone(w: nat, p: nat, q: nat)
    requires p <= q
    ensures w * p <= w * q
  {
  }

  // ----- The counter of the public API -----

  datatype Bucket = Bucket(count: nat, resetAt: int)

  /** Buckets by key; limit is None when it is not a safe integer. */
  datatype Counter<K> = Counter(limit: Option<int>, windowMs: nat, buckets: map<K, Bucket>)

  const MAX_SAFE_INTEGER: nat := 0x1f_ffff_ffff_ffff

  /** A refused call counts as well, so a key that keeps calling stays refused until the reset. */
  function AllowCall<K>(c: Counter<K>, key: K, now: int): (Counter<K>, bool) {
    if c.limit.None? || c.limit.value <= 0 then (c, false)
    else if key !in c.buckets || now >= c.buckets[key].resetAt then
      (c.(buckets := c.buckets[key := Bucket(1, now + c.windowMs)]), true)
    else
      var b := c.buckets[key];
      (c.(buckets := c.buckets[key := Bucket(b.count + 1, b.resetAt)]), b.count + 1 <= c.limit.value)
  }

  /**
    A call is let through exactly when there is a positive limit and fewer calls than that came before it
    since the key's bucket was opened; the first call, and any at or after the reset, opens a bucket.
   */
  lemma CallIsCounted<K>(c: Counter<K>, key: K, now: int)
    ensures var (c', allowed) := AllowCall(c, key, now);
      var before := if key in c.buckets && now < c.buckets[key].resetAt then c.buckets[key].count else 0;
      var limited := c.limit.Some? && c.limit.value > 0;
      && (allowed <==> limited && before < c.limit.value)
      && (!limited ==> c' == c)
      && (limited ==>
           && c'.limit == c.limit && c'.windowMs == c.windowMs && c'.buckets.Keys == c.buckets.Keys + {key}
           && (forall k | k in c.buckets && k != key :: c'.buckets[k] == c.buckets[k])
           && c'.buckets[key].count == before + 1
           && c'.buckets[key].resetAt == ResetOf(c, key, now))
  {
  }

  /** When the bucket that this call finds or opens is reset. */
  function ResetOf<K>(c: Counter<K>, key: K, now: int): int {
    if key in c.buckets && now < c.buckets[key].resetAt then c.buckets[key].resetAt else now + c.windowMs
  }

  class FixedWindowCounter<K(==)> {
    const limit: Option<int>
    const windowMs: nat
    var buckets: map<K, Bucket>

    function State(): Counter<K>
      reads this
    {
      Counter(limit, windowMs, buckets)
    }

    constructor (limit: Option<int>, windowMs: nat)
      ensures State() == Counter(limit, windowMs, map[])
    {
      this.limit, this.windowMs, buckets := limit, windowMs, map[];
    }

    method Allow(key: K, now: int) returns (allowed: bool)
      modifies this
      ensures (State(), allowed) == AllowCall(old(State()), key, now)
    {
      if limit.None? || limit.value <= 0 {
        return false;
      }
      if key !in buckets || now >= buckets[key].resetAt {
        buckets := buckets[key := Bucket(1, now + windowMs)];
        return true;
      }
      var bucket := buckets[key];
      bucket := bucket.(count := bucket.count + 1);
      buckets := buckets[key := bucket];
      return bucket.count <= limit.value;
    }
  }

  datatype KeyedCall<K> = KeyedCall(key: K, now: int)

  /** How often a run of calls gets a key through at times in [from, to). */
  function Allowed<K(==)>(c: Counter<K>, calls: seq<KeyedCall<K>>, key: K, from: int, to: int): nat
    decreases |calls|
  {
    if calls == [] then 0
    else
      var (c', ok) := AllowCall(c, calls[0].key, calls[0].now);
      (if ok && calls[0].key == key && from <= calls[0].now < to then 1 else 0)
      + Allowed(c', calls[1..], key, from, to)
  }

  /** The attempts that the calls for one key amount to. */
  function AttemptsOf<K(==)>(calls: seq<KeyedCall<K>>, key: K): seq<Attempt> {
    if calls == [] then []
    else if calls[0].key == key then [Attempt(calls[0].now, 1)] + AttemptsOf(calls[1..], key)
    else AttemptsOf(calls[1..], key)
  }

  /** The limiter that a bucket stands for: refused calls beyond the limit make no difference. */
  function LimiterOf<K>(c: Counter<K>, key: K, before: int): Limiter
    requires c.limit.Some? && c.limit.value > 0
  {
    if key in c.buckets then
      var b := c.buckets[key];
      Limiter(c.limit.value, c.windowMs, b.resetAt - c.windowMs,
              if b.count <= c.limit.value then b.count else c.limit.value)
    else Limiter(c.limit.value, c.windowMs, before - c.windowMs, 0)
  }

  /** A counter refines the limiter: for one key they let the same calls through. */
  lemma {:induction false} CounterRefinesLimiter<K>(c: Counter<K>, calls: seq<KeyedCall<K>>, key: K, from: int,
                                                    to: int, before: int)
    requires c.limit.Some? && 0 < c.limit.value <= MAX_SAFE_INTEGER && 0 < c.windowMs
    requires forall i | 0 <= i < |calls| :: before <= calls[i].now
    ensures Allowed(c, calls, key, from, to) == Admitted(LimiterOf(c, key, before), AttemptsOf(calls, key), from, to)
    decreases |calls|
  {
    if calls != [] {
      var now := calls[0].now;
      var (c', ok) := AllowCall(c, calls[0].key, now);
      CounterRefinesLimiter(c', calls[1..], key, from, to, before);
      if calls[0].key == key {
        var l, a := LimiterOf(c, key, before), Attempt(now, 1);
        assert AttemptsOf(calls, key)[1..] == AttemptsOf(calls[1..], key);
        assert ok == Consume(l, a).Commit?;
        assert LimiterOf(c', key, before) == Next(l, a);
      }
    }
  }

  lemma {:induction false} AttemptsInOrder<K>(calls: seq<KeyedCall<K>>, key: K, low: int)
    requires forall i, j | 0 <= i < j < |calls| :: calls[i].now <= calls[j].now
    requires forall i | 0 <= i < |calls| :: low <= calls[i].now
    ensures forall i | 0 <= i < |AttemptsOf(calls, key)| :: low <= AttemptsOf(calls, key)[i].time
    ensures forall i, j | 0 <= i < j < |AttemptsOf(calls, key)| ::
      AttemptsOf(calls, key)[i].time <= AttemptsOf(calls, key)[j].time
    decreases |calls|
  {
    if calls != [] {
      AttemptsInOrder(calls[1..], key, calls[0].now);
    }
  }

  /** With a clock that does not run backwards, a key gets through at most 2 * limit times in any window length. */
  lemma CounterBound<K>(limit: int, windowMs: nat, calls: seq<KeyedCall<K>>, key: K, from: int)
    requires 0 < limit <= MAX_SAFE_INTEGER && 0 < windowMs
    requires forall i, j | 0 <= i < j < |calls| :: calls[i].now <= calls[j].now
    ensures Allowed(Counter(Some(limit), windowMs, map[]), calls, key, from, from + windowMs) <= 2 * limit
  {
    if calls != [] {
      var c := Counter(Some(limit), windowMs, map[]);
      var low := calls[0].now;
      CounterRefinesLimiter(c, calls, key, from, from + windowMs, low);
      AttemptsInOrder(calls, key, low);
      TwiceTheLimit(LimiterOf(c, key, low), AttemptsOf(calls, key), from, from + windowMs);
    }
  }
}
