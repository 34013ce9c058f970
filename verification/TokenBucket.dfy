/** The token-bucket rate limiter: the TAKE and PEEK scripts as functions on one bucket,
    the bucket store of a whole service, and what the limiter promises over every run. */
module TokenBucket {
  import opened Common

  datatype Options = Options(capacity: real, refillPerSecond: real) {
    /** What the constructor divides by must be positive; a bucket never has a negative size. */
    predicate Valid() {
      capacity >= 0.0 && refillPerSecond > 0.0
    }

    function PerMs(): real {
      refillPerSecond / 1000.0
    }

    function TtlMs(): int
      requires Valid()
    {
      Ceil(capacity / PerMs()) + 1000
    }
  }

  datatype Bucket = Bucket(tokens: real, ts: int)

  /** What one TAKE answers: the flag, the level left, and the wait when refused. */
  datatype Verdict = Verdict(allowed: bool, tokens: real, retryMs: int)

  /** The client-facing result of a take. */
  datatype TakeResult = TakeResult(allowed: bool, remaining: int, limit: real, retryAfterMs: int, resetMs: int, degraded: bool)

  function Min(x: real, y: real): real {
    if x <= y then x else y
  }

  function Ceil(x: real): int {
    -(-x).Floor
  }

  /** The bucket's level at `now`: a bucket nobody has touched is full. */
  function Level(o: Options, b: Option<Bucket>, now: int): real {
    match b
    case None => o.capacity
    case Some(Bucket(tokens, ts)) =>
      Min(o.capacity, tokens + (if now > ts then now - ts else 0) as real * o.PerMs())
  }

  /** The TAKE script: refill, check and take as one atomic step. */
  function Take(o: Options, b: Option<Bucket>, now: int, cost: real): (Verdict, Bucket)
    requires o.Valid()
  {
    var level := Level(o, b, now);
    if level >= cost then
      (Verdict(true, level - cost, 0), Bucket(level - cost, now))
    else
      (Verdict(false, level, Ceil((cost - level) / o.PerMs())), Bucket(level, now))
  }

  /** The PEEK script, floored as the caller sees it. */
  function Peek(o: Options, b: Option<Bucket>, now: int): int {
    Level(o, b, now).Floor
  }

  function ToResult(o: Options, v: Verdict, degraded: bool): TakeResult
    requires o.Valid()
  {
    TakeResult(v.allowed, v.tokens.Floor, o.capacity, v.retryMs, Ceil((o.capacity - v.tokens) / o.PerMs()), degraded)
  }

  /** Retry-After in whole seconds, as the response header carries it: the fewest, and at least one. */
  function RetryAfterSeconds(retryAfterMs: int): (seconds: int)
    ensures seconds >= 1 && 1000 * seconds >= retryAfterMs
    ensures seconds > 1 ==> 1000 * (seconds - 1) < retryAfterMs
  {
    var seconds := Ceil(retryAfterMs as real / 1000.0);
    CeilIsLeast(retryAfterMs as real / 1000.0, seconds);
    CeilIsLeast(retryAfterMs as real / 1000.0, seconds - 1);
    if seconds < 1 then 1 else seconds
  }

  // ---------------------------------------------------------------- arithmetic

  lemma CeilIsLeast(x: real, m: int)
    ensures m >= Ceil(x) <==> m as real >= x
  {
    assert (-x).Floor as real <= -x < (-x).Floor as real + 1.0;
  }

  lemma QuotientBound(m: int, x: real, p: real)
    requires p > 0.0
    ensures m >= Ceil(x / p) <==> m as real * p >= x
  {
    CeilIsLeast(x / p, m);
    var q := x / p;
    assert q * p == x;
    if m as real >= q {
      assert (m as real - q) * p >= 0.0;
    } else {
      assert (q - m as real) * p > 0.0;
    }
  }

  lemma RefillSplits(o: Options, a: int, b: int, c: int)
    requires o.Valid() && a <= b <= c
    ensures (c - a) as real * o.PerMs() == (b - a) as real * o.PerMs() + (c - b) as real * o.PerMs()
    ensures (b - a) as real * o.PerMs() >= 0.0 && (c - b) as real * o.PerMs() >= 0.0
  {
    assert (c - a) as real == (b - a) as real + (c - b) as real;
  }

  // ---------------------------------------------------------------- one bucket

  /** A stored bucket lies between empty and full. */
  predicate Sane(o: Options, b: Option<Bucket>) {
    b.Some? ==> 0.0 <= b.value.tokens <= o.capacity
  }

  /** The level stays in 0..capacity through every take, allowed or refused. */
  lemma TakeKeepsLevel(o: Options, b: Option<Bucket>, now: int, cost: real)
    requires o.Valid() && Sane(o, b) && cost >= 0.0
    ensures 0.0 <= Level(o, b, now) <= o.capacity
    ensures Sane(o, Some(Take(o, b, now, cost).1))
    ensures Take(o, b, now, cost).0.tokens == Take(o, b, now, cost).1.tokens
  {
    if b.Some? && now > b.value.ts {
      RefillSplits(o, b.value.ts, b.value.ts, now);
    }
  }

  /** In whole seconds a stored bucket regains the rate times the seconds, cut off at capacity;
      on a clock that has gone back it regains nothing. */
  lemma SecondsRefill(o: Options, b: Bucket, s: nat)
    requires o.Valid()
    ensures Level(o, Some(b), b.ts + 1000 * s) == Min(o.capacity, b.tokens + s as real * o.refillPerSecond)
    ensures Level(o, Some(b), b.ts - s) == Min(o.capacity, b.tokens)
  {
    var ms := 1000 * s;
    assert ms as real == 1000.0 * s as real;
    assert ms as real * o.PerMs() == s as real * (1000.0 * o.PerMs());
    assert 0 as real * o.PerMs() == 0.0;
  }

  /** The time to live is a second more than the least time in which an empty bucket fills. */
  lemma TtlIsASecondMore(o: Options, ms: int)
    requires o.Valid()
    ensures ms >= o.TtlMs() - 1000 <==> ms as real * o.refillPerSecond >= 1000.0 * o.capacity
  {
    QuotientBound(ms, o.capacity, o.PerMs());
    assert 1000.0 * (ms as real * o.PerMs()) == ms as real * o.refillPerSecond;
  }

  /** Between two instants a bucket gains exactly what the rate gives, cut off at capacity. */
  lemma LevelLater(o: Options, b: Option<Bucket>, now: int, later: int)
    requires o.Valid() && Sane(o, b) && now <= later
    requires b.Some? ==> b.value.ts <= now
    ensures Level(o, b, later) == Min(o.capacity, Level(o, b, now) + (later - now) as real * o.PerMs())
  {
    RefillSplits(o, now, now, later);
    if b.Some? {
      RefillSplits(o, b.value.ts, now, later);
    }
  }

  /** A request seen by one bucket. */
  datatype Request = TakeAt(now: int, cost: real) | PeekAt(now: int)

  function Touch(o: Options, b: Option<Bucket>, r: Request): Option<Bucket>
    requires o.Valid()
  {
    match r
    case TakeAt(now, cost) => Some(Take(o, b, now, cost).1)
    case PeekAt(_) => b
  }

  function After(o: Options, b: Option<Bucket>, rs: seq<Request>): Option<Bucket>
    requires o.Valid()
    decreases |rs|
  {
    if rs == [] then b else After(o, Touch(o, b, rs[0]), rs[1..])
  }

  /** The cost this one request was granted. */
  function Granted(o: Options, b: Option<Bucket>, r: Request): real
    requires o.Valid()
  {
    if r.TakeAt? && Take(o, b, r.now, r.cost).0.allowed then r.cost else 0.0
  }

  /** Total cost granted to requests made between `from` and `to`, both included. */
  function GrantedIn(o: Options, b: Option<Bucket>, rs: seq<Request>, from: int, to: int): real
    requires o.Valid()
    decreases |rs|
  {
    if rs == [] then 0.0
    else
      (if from <= rs[0].now <= to then Granted(o, b, rs[0]) else 0.0)
      + GrantedIn(o, Touch(o, b, rs[0]), rs[1..], from, to)
  }

  /** The clock does not go backwards and costs are not negative. */
  predicate Orderly(rs: seq<Request>, start: int) {
    rs == [] || (start <= rs[0].now && (rs[0].TakeAt? ==> rs[0].cost >= 0.0) && Orderly(rs[1..], rs[0].now))
  }

  /** A granted request takes exactly its cost from the level; a refused one or a peek nothing. */
  lemma TouchTakesGrant(o: Options, b: Option<Bucket>, r: Request)
    requires o.Valid() && Sane(o, b) && (r.TakeAt? ==> r.cost >= 0.0)
    ensures Sane(o, Touch(o, b, r))
    ensures Level(o, Touch(o, b, r), r.now) == Level(o, b, r.now) - Granted(o, b, r)
    ensures 0.0 <= Granted(o, b, r) && 0.0 <= Level(o, Touch(o, b, r), r.now)
  {
    TakeKeepsLevel(o, b, r.now, if r.TakeAt? then r.cost else 0.0);
  }

  lemma LevelGrowth(o: Options, b: Option<Bucket>, now: int, t: int, to: int)
    requires o.Valid() && Sane(o, b) && now <= t <= to
    requires b.Some? ==> b.value.ts <= now
    ensures Level(o, b, t) + (to - t) as real * o.PerMs() <= Level(o, b, now) + (to - now) as real * o.PerMs()
  {
    RefillSplits(o, now, t, to);
    LevelLater(o, b, now, t);
  }

  lemma {:induction false} GrantedFromNow(o: Options, b: Option<Bucket>, rs: seq<Request>, now: int, to: int)
    requires o.Valid() && Sane(o, b) && Orderly(rs, now) && now <= to
    requires b.Some? ==> b.value.ts <= now
    ensures 0.0 <= GrantedIn(o, b, rs, now, to) <= Level(o, b, now) + (to - now) as real * o.PerMs()
    decreases |rs|
  {
    if rs == [] {
      TakeKeepsLevel(o, b, now, 0.0);
      RefillSplits(o, now, now, to);
    } else {
      var t := rs[0].now;
      var b' := Touch(o, b, rs[0]);
      TouchTakesGrant(o, b, rs[0]);
      if t <= to {
        GrantedFromNow(o, b', rs[1..], t, to);
        SameWindow(o, b', rs[1..], now, t, to);
        LevelGrowth(o, b, now, t, to);
      } else {
        NothingAfter(o, b', rs[1..], now, to, t);
        TakeKeepsLevel(o, b, now, 0.0);
        RefillSplits(o, now, now, to);
      }
    }
  }

  lemma {:induction false} SameWindow(o: Options, b: Option<Bucket>, rs: seq<Request>, from: int, now: int, to: int)
    requires o.Valid() && Orderly(rs, now) && from <= now
    ensures GrantedIn(o, b, rs, from, to) == GrantedIn(o, b, rs, now, to)
    decreases |rs|
  {
    if rs != [] {
      WeakenOrderly(rs[1..], rs[0].now, now);
      SameWindow(o, Touch(o, b, rs[0]), rs[1..], from, now, to);
    }
  }

  lemma WeakenOrderly(rs: seq<Request>, start: int, earlier: int)
    requires Orderly(rs, start) && earlier <= start
    ensures Orderly(rs, earlier)
  {}

  lemma {:induction false} NothingAfter(o: Options, b: Option<Bucket>, rs: seq<Request>, from: int, to: int, now: int)
    requires o.Valid() && Orderly(rs, now) && to < now
    ensures GrantedIn(o, b, rs, from, to) == 0.0
    decreases |rs|
  {
    if rs != [] {
      NothingAfter(o, Touch(o, b, rs[0]), rs[1..], from, to, rs[0].now);
    }
  }

  /** What a window of `d` milliseconds may cost at most. */
  function Burst(o: Options, d: nat): real {
    o.capacity + d as real * o.PerMs()
  }

  lemma BurstIsPositive(o: Options, d: nat)
    requires o.Valid()
    ensures Burst(o, d) >= 0.0
  {
    RefillSplits(o, 0, 0, d);
  }

  /** Burst plus sustained rate: over any window of length `d`, in any run, from any bucket
      state, the granted cost is at most the capacity plus what refills in `d`. */
  lemma {:induction false} WindowBound(o: Options, b: Option<Bucket>, rs: seq<Request>, start: int, from: int, d: nat)
    requires o.Valid() && Sane(o, b) && Orderly(rs, start)
    requires b.Some? ==> b.value.ts <= start
    ensures 0.0 <= GrantedIn(o, b, rs, from, from + d) <= Burst(o, d)
    decreases |rs|
  {
    if rs == [] {
      BurstIsPositive(o, d);
    } else if rs[0].now < from {
      TouchTakesGrant(o, b, rs[0]);
      WindowBound(o, Touch(o, b, rs[0]), rs[1..], rs[0].now, from, d);
    } else if rs[0].now <= from + d {
      var t := rs[0].now;
      assert 0.0 <= GrantedIn(o, b, rs, from, from + d) <= Burst(o, d) by {
        GrantedFromNow(o, b, rs, t, from + d);
        SameWindow(o, b, rs, from, t, from + d);
        BurstThenRate(o, b, from, t, d);
      }
    } else {
      NothingAfter(o, b, rs, from, from + d, rs[0].now);
      BurstIsPositive(o, d);
    }
  }

  lemma BurstThenRate(o: Options, b: Option<Bucket>, from: int, t: int, d: nat)
    requires o.Valid() && Sane(o, b) && from <= t <= from + d
    ensures Level(o, b, t) + (from + d - t) as real * o.PerMs() <= Burst(o, d)
  {
    RefillSplits(o, from, t, from + d);
    TakeKeepsLevel(o, b, t, 0.0);
    assert (from + d - from) as real == d as real;
  }

  // ---------------------------------------------------------------- retry time

  /** Every request in the sequence is a peek or a refused take. */
  predicate AllRefused(o: Options, b: Option<Bucket>, rs: seq<Request>)
    requires o.Valid()
    decreases |rs|
  {
    rs == [] ||
    ((rs[0].TakeAt? ==> !Take(o, b, rs[0].now, rs[0].cost).0.allowed) && AllRefused(o, Touch(o, b, rs[0]), rs[1..]))
  }

  /** Refused takes and peeks never move the level a later request will find. */
  lemma {:induction false} RefusalsLeaveNoTrace(o: Options, b: Option<Bucket>, rs: seq<Request>, start: int, later: int)
    requires o.Valid() && Sane(o, b) && Orderly(rs, start) && AllRefused(o, b, rs)
    requires b.Some? ==> b.value.ts <= start
    requires start <= later && forall i | 0 <= i < |rs| :: rs[i].now <= later
    ensures Level(o, After(o, b, rs), later) == Level(o, b, later)
    decreases |rs|
  {
    if rs != [] {
      var t := rs[0].now;
      var b' := Touch(o, b, rs[0]);
      if rs[0].TakeAt? {
        TakeKeepsLevel(o, b, t, rs[0].cost);
        LevelLater(o, b, t, later);
        LevelLater(o, b', t, later);
      }
      forall i | 0 <= i < |rs[1..]| ensures rs[1..][i].now <= later {
        assert rs[1..][i] == rs[i + 1];
      }
      RefusalsLeaveNoTrace(o, b', rs[1..], t, later);
    }
  }

  lemma RefusedThenLater(o: Options, b: Option<Bucket>, now: int, cost: real, later: int)
    requires o.Valid() && Sane(o, b) && (b.Some? ==> b.value.ts <= now)
    requires cost >= 0.0 && !Take(o, b, now, cost).0.allowed && now <= later
    ensures Level(o, Some(Take(o, b, now, cost).1), later) >= cost <==>
            cost <= o.capacity && later >= now + Take(o, b, now, cost).0.retryMs
  {
    var (v, b1) := Take(o, b, now, cost);
    TakeKeepsLevel(o, b, now, cost);
    LevelLater(o, Some(b1), now, later);
    assert Level(o, Some(b1), now) == v.tokens;
    QuotientBound(later - now, cost - v.tokens, o.PerMs());
  }

  /** After a refusal the retry time is exact when the cost fits the bucket at all: whatever
      refused takes and peeks come between, the same take at `later` is allowed exactly from
      `retryMs` after the refusal. A cost above the capacity is refused at every instant. */
  lemma RetryIsExact(o: Options, b: Option<Bucket>, now: int, cost: real, between: seq<Request>, later: int)
    requires o.Valid() && Sane(o, b) && (b.Some? ==> b.value.ts <= now)
    requires cost >= 0.0 && !Take(o, b, now, cost).0.allowed
    requires var b1 := Some(Take(o, b, now, cost).1); Orderly(between, now) && AllRefused(o, b1, between)
    requires now <= later && forall i | 0 <= i < |between| :: between[i].now <= later
    ensures var b2 := After(o, Some(Take(o, b, now, cost).1), between);
            Take(o, b2, later, cost).0.allowed <==>
            cost <= o.capacity && later >= now + Take(o, b, now, cost).0.retryMs
  {
    TakeKeepsLevel(o, b, now, cost);
    RefusalsLeaveNoTrace(o, Some(Take(o, b, now, cost).1), between, now, later);
    RefusedThenLater(o, b, now, cost, later);
  }

  // ---------------------------------------------------------------- what the client is told

  /** What a request of this cost must be told: whether the level covers it; the whole tokens left;
      the size of the bucket; when refused, the least wait after which the same take succeeds,
      if the bucket can ever hold the cost, and otherwise no wait; the least wait after which the
      bucket is full; and whether the fallback answered. */
  ghost predicate Tells(o: Options, b: Option<Bucket>, now: int, cost: real, degraded: bool, r: TakeResult) {
    var level := Level(o, b, now);
    var left := if r.allowed then level - cost else level;
    && (r.allowed <==> cost <= level)
    && r.remaining as real <= left < r.remaining as real + 1.0
    && r.limit == o.capacity
    && (r.allowed ==> r.retryAfterMs == 0)
    && (!r.allowed ==> forall later | later >= now ::
          cost <= Level(o, Some(Bucket(left, now)), later) <==> cost <= o.capacity && later >= now + r.retryAfterMs)
    && (forall later | later >= now ::
          Level(o, Some(Bucket(left, now)), later) == o.capacity <==> later >= now + r.resetMs)
    && (r.degraded <==> degraded)
  }

  /** When a bucket left with `left` reaches a level. */
  lemma LevelReached(o: Options, left: real, now: int, target: real, later: int)
    requires o.Valid() && left <= o.capacity && left <= target && now <= later
    ensures target <= Level(o, Some(Bucket(left, now)), later) <==>
            target <= o.capacity && later >= now + Ceil((target - left) / o.PerMs())
  {
    QuotientBound(later - now, target - left, o.PerMs());
    assert 0 as real * o.PerMs() == 0.0;
  }

  lemma ResultTells(o: Options, b: Option<Bucket>, now: int, cost: real, degraded: bool)
    requires o.Valid() && cost >= 0.0
    ensures Tells(o, b, now, cost, degraded, ToResult(o, Take(o, b, now, cost).0, degraded))
  {
    var (v, b1) := Take(o, b, now, cost);
    assert v.tokens.Floor as real <= v.tokens < v.tokens.Floor as real + 1.0;
    forall later | later >= now
      ensures !v.allowed ==>
                (cost <= Level(o, Some(b1), later) <==> cost <= o.capacity && later >= now + v.retryMs)
      ensures Level(o, Some(b1), later) == o.capacity <==> later >= now + Ceil((o.capacity - v.tokens) / o.PerMs())
    {
      if !v.allowed {
        LevelReached(o, v.tokens, now, cost, later);
      }
      LevelReached(o, v.tokens, now, o.capacity, later);
    }
  }

  /** A refused client that waits the whole seconds of Retry-After is let through, if its cost fits
      the bucket at all, whatever refused takes and peeks come between. */
  lemma RetryAfterIsEnough(o: Options, b: Option<Bucket>, now: int, cost: real, degraded: bool, r: TakeResult,
                           between: seq<Request>, later: int)
    requires o.Valid() && Sane(o, b) && Tells(o, b, now, cost, degraded, r)
    requires 0.0 <= cost <= o.capacity && !r.allowed
    requires var b1 := Some(Take(o, b, now, cost).1); Orderly(between, now) && AllRefused(o, b1, between)
    requires forall i | 0 <= i < |between| :: between[i].now <= later
    requires later >= now + 1000 * RetryAfterSeconds(r.retryAfterMs)
    ensures Take(o, After(o, Some(Take(o, b, now, cost).1), between), later, cost).0.allowed
  {
    TakeKeepsLevel(o, b, now, cost);
    RefusalsLeaveNoTrace(o, Some(Take(o, b, now, cost).1), between, now, later);
  }

  /** RateLimit-Reset is exact too: left alone, the bucket is full from `resetMs` on and not before. */
  lemma ResetIsExact(o: Options, b: Option<Bucket>, now: int, cost: real, later: int)
    requires o.Valid() && Sane(o, b) && (b.Some? ==> b.value.ts <= now) && cost >= 0.0 && now <= later
    ensures var (v, b1) := Take(o, b, now, cost);
            Level(o, Some(b1), later) == o.capacity <==> later >= now + ToResult(o, v, false).resetMs
  {
    var (v, b1) := Take(o, b, now, cost);
    TakeKeepsLevel(o, b, now, cost);
    LevelLater(o, Some(b1), now, later);
    QuotientBound(later - now, o.capacity - v.tokens, o.PerMs());
  }

  /** A peek reports whole tokens a take at that instant could spend: a whole cost `n` is
      granted exactly when `n` is at most what the peek says, and peeking changes nothing. */
  lemma PeekPredictsTake(o: Options, b: Option<Bucket>, now: int, n: nat)
    requires o.Valid() && Sane(o, b)
    ensures Take(o, b, now, n as real).0.allowed <==> n <= Peek(o, b, now)
    ensures Touch(o, b, PeekAt(now)) == b
  {
    var level := Level(o, b, now);
    assert level.Floor as real <= level < level.Floor as real + 1.0;
  }
}
