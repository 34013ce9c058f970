/** The bucket stores behind the limiter: Redis, whose keys expire, and the per-process map,
    which is swept. Both forget idle buckets; neither is ever caught forgetting. */
module RateLimiter {
  import opened Common
  import opened TokenBucket

  const LOCAL_SWEEP_THRESHOLD := 10_000

  type Store = map<string, Bucket>

  function Lookup(s: Store, key: string): Option<Bucket> {
    if key in s then Some(s[key]) else None
  }

  datatype Call = TakeCall(key: string, now: int, cost: real) | PeekCall(key: string, now: int)

  datatype Reply = Taken(verdict: Verdict) | Peeked(level: int)

  /** One call against a store. */
  function Serve(o: Options, s: Store, c: Call): (Reply, Store)
    requires o.Valid()
  {
    match c
    case TakeCall(key, now, cost) =>
      var (v, b) := Take(o, Lookup(s, key), now, cost);
      (Taken(v), s[key := b])
    case PeekCall(key, now) => (Peeked(Peek(o, Lookup(s, key), now)), s)
  }

  /** A store that never forgets. */
  function ServeAll(o: Options, s: Store, cs: seq<Call>): seq<Reply>
    requires o.Valid()
    decreases |cs|
  {
    if cs == [] then []
    else
      var (r, s') := Serve(o, s, cs[0]);
      [r] + ServeAll(o, s', cs[1..])
  }

  /** A store that has lost the keys `drops[i]` by the time call `i` arrives. */
  function ServeForgetting(o: Options, s: Store, cs: seq<Call>, drops: seq<set<string>>): seq<Reply>
    requires o.Valid() && |drops| == |cs|
    decreases |cs|
  {
    if cs == [] then []
    else
      var (r, s') := Serve(o, s - drops[0], cs[0]);
      [r] + ServeForgetting(o, s', cs[1..], drops[1..])
  }

  predicate Idle(o: Options, b: Bucket, now: int)
    requires o.Valid()
  {
    now - b.ts >= o.TtlMs()
  }

  /** Only keys idle for the whole TTL are ever lost, whichever mechanism loses them. */
  predicate LegalDrops(o: Options, s: Store, cs: seq<Call>, drops: seq<set<string>>)
    requires o.Valid() && |drops| == |cs|
    decreases |cs|
  {
    cs == [] ||
    ((forall k | k in drops[0] && k in s :: Idle(o, s[k], cs[0].now))
     && LegalDrops(o, Serve(o, s - drops[0], cs[0]).1, cs[1..], drops[1..]))
  }

  predicate Orderly(cs: seq<Call>, start: int) {
    cs == [] || (start <= cs[0].now && (cs[0].TakeCall? ==> cs[0].cost >= 0.0) && Orderly(cs[1..], cs[0].now))
  }

  predicate StoreSane(o: Options, s: Store, now: int) {
    forall k | k in s :: s[k].ts <= now && Sane(o, Some(s[k]))
  }

  /** `kept` is `full` minus buckets that have been idle for the whole TTL. */
  predicate Remembers(o: Options, kept: Store, full: Store, now: int)
    requires o.Valid()
  {
    && (forall k | k in kept :: k in full && kept[k] == full[k])
    && (forall k | k in full && k !in kept :: Idle(o, full[k], now))
  }

  /** A bucket idle for the TTL has had time to refill completely: it reads like a new one. */
  lemma IdleIsFull(o: Options, b: Bucket, now: int, later: int)
    requires o.Valid() && Sane(o, Some(b)) && Idle(o, b, now) && now <= later
    ensures Level(o, Some(b), later) == o.capacity == Level(o, None, later)
  {
    QuotientBound(o.TtlMs() - 1000, o.capacity, o.PerMs());
    CeilIsLeast(o.capacity / o.PerMs(), -1);
    assert o.capacity / o.PerMs() >= 0.0;
    RefillSplits(o, b.ts, b.ts + o.TtlMs() - 1000, later);
  }

  /** A key is seen the same in both stores. */
  lemma LookupAgrees(o: Options, kept: Store, full: Store, now: int, key: string, later: int)
    requires o.Valid() && Remembers(o, kept, full, now) && StoreSane(o, full, now) && now <= later
    ensures Level(o, Lookup(kept, key), later) == Level(o, Lookup(full, key), later)
  {
    if key in full && key !in kept {
      IdleIsFull(o, full[key], now, later);
    }
  }

  lemma ServeAgrees(o: Options, kept: Store, full: Store, now: int, c: Call)
    requires o.Valid() && Remembers(o, kept, full, now) && StoreSane(o, full, now)
    requires now <= c.now && (c.TakeCall? ==> c.cost >= 0.0)
    ensures Serve(o, kept, c).0 == Serve(o, full, c).0
    ensures Remembers(o, Serve(o, kept, c).1, Serve(o, full, c).1, c.now)
    ensures StoreSane(o, Serve(o, full, c).1, c.now)
  {
    LookupAgrees(o, kept, full, now, c.key, c.now);
    if c.TakeCall? {
      TakeKeepsLevel(o, Lookup(full, c.key), c.now, c.cost);
    }
  }

  lemma DropsKeepRemembering(o: Options, kept: Store, full: Store, drops: set<string>, now: int, later: int)
    requires o.Valid() && Remembers(o, kept, full, now) && now <= later
    requires forall k | k in drops && k in kept :: Idle(o, kept[k], later)
    ensures Remembers(o, kept - drops, full, later)
  {}

  lemma {:induction false} ForgettingAgrees(o: Options, kept: Store, full: Store, cs: seq<Call>, drops: seq<set<string>>, now: int)
    requires o.Valid() && |drops| == |cs| && Orderly(cs, now)
    requires Remembers(o, kept, full, now) && StoreSane(o, full, now)
    requires LegalDrops(o, kept, cs, drops)
    ensures ServeForgetting(o, kept, cs, drops) == ServeAll(o, full, cs)
    decreases |cs|
  {
    if cs != [] {
      DropsKeepRemembering(o, kept, full, drops[0], now, cs[0].now);
      assert StoreSane(o, full, cs[0].now);
      ServeAgrees(o, kept - drops[0], full, cs[0].now, cs[0]);
      ForgettingAgrees(o, Serve(o, kept - drops[0], cs[0]).1, Serve(o, full, cs[0]).1, cs[1..], drops[1..], cs[0].now);
    }
  }

  /** Forgetting is invisible: whatever idle keys are lost and whenever, every take and every
      peek, on every key, answers exactly as if nothing had ever been forgotten. */
  lemma ForgettingIsInvisible(o: Options, cs: seq<Call>, drops: seq<set<string>>, start: int)
    requires o.Valid() && |drops| == |cs| && Orderly(cs, start) && LegalDrops(o, map[], cs, drops)
    ensures ServeForgetting(o, map[], cs, drops) == ServeAll(o, map[], cs)
  {
    ForgettingAgrees(o, map[], map[], cs, drops, start);
  }

  /** What one key is granted by the whole store is what its own bucket grants. */
  function RequestsOf(cs: seq<Call>, key: string): seq<Request>
    decreases |cs|
  {
    if cs == [] then []
    else
      var rest := RequestsOf(cs[1..], key);
      if cs[0].key != key then rest
      else if cs[0].TakeCall? then [TakeAt(cs[0].now, cs[0].cost)] + rest
      else [PeekAt(cs[0].now)] + rest
  }

  /** Cost granted to `key` by these replies, for calls made between `from` and `to`. */
  function GrantedTo(cs: seq<Call>, rs: seq<Reply>, key: string, from: int, to: int): real
    requires |rs| == |cs|
    decreases |cs|
  {
    if cs == [] then 0.0
    else
      (if cs[0].key == key && from <= cs[0].now <= to && cs[0].TakeCall? && rs[0].Taken? && rs[0].verdict.allowed
       then cs[0].cost else 0.0)
      + GrantedTo(cs[1..], rs[1..], key, from, to)
  }

  lemma {:induction false} ServeAllLength(o: Options, s: Store, cs: seq<Call>)
    requires o.Valid()
    ensures |ServeAll(o, s, cs)| == |cs|
    decreases |cs|
  {
    if cs != [] {
      ServeAllLength(o, Serve(o, s, cs[0]).1, cs[1..]);
    }
  }

  lemma {:induction false} KeysAreIndependent(o: Options, s: Store, cs: seq<Call>, key: string, from: int, to: int)
    requires o.Valid() && |ServeAll(o, s, cs)| == |cs|
    ensures GrantedTo(cs, ServeAll(o, s, cs), key, from, to) == GrantedIn(o, Lookup(s, key), RequestsOf(cs, key), from, to)
    decreases |cs|
  {
    if cs != [] {
      var s' := Serve(o, s, cs[0]).1;
      ServeAllLength(o, s', cs[1..]);
      assert ServeAll(o, s, cs)[1..] == ServeAll(o, s', cs[1..]);
      KeysAreIndependent(o, s', cs[1..], key, from, to);
      var rest := RequestsOf(cs[1..], key);
      var rs := RequestsOf(cs, key);
      if cs[0].key == key {
        assert rs[1..] == rest;
      }
    }
  }

  lemma {:induction false} RequestsOrderly(cs: seq<Call>, key: string, start: int)
    requires Orderly(cs, start)
    ensures TokenBucket.Orderly(RequestsOf(cs, key), start)
    decreases |cs|
  {
    if cs != [] {
      var rest := RequestsOf(cs[1..], key);
      RequestsOrderly(cs[1..], key, cs[0].now);
      if cs[0].key == key {
        assert RequestsOf(cs, key)[1..] == rest;
      } else {
        WeakenOrderly(rest, cs[0].now, start);
      }
    }
  }

  /** The limit a service enforces: over any window of length `d` in any run of a store that
      forgets idle keys, one key is granted at most the burst plus what refills in `d`. */
  lemma ServiceWindowBound(o: Options, cs: seq<Call>, drops: seq<set<string>>, start: int, key: string, from: int, d: nat)
    requires o.Valid() && |drops| == |cs| && Orderly(cs, start) && LegalDrops(o, map[], cs, drops)
    ensures |ServeForgetting(o, map[], cs, drops)| == |cs|
    ensures 0.0 <= GrantedTo(cs, ServeForgetting(o, map[], cs, drops), key, from, from + d) <= Burst(o, d)
  {
    ForgettingIsInvisible(o, cs, drops, start);
    ServeAllLength(o, map[], cs);
    KeysAreIndependent(o, map[], cs, key, from, from + d);
    RequestsOrderly(cs, key, start);
    WindowBound(o, None, RequestsOf(cs, key), start, from, d);
  }

  // ---------------------------------------------------------------- the limiter object

  lemma DrawIsTake(o: Options, b: Option<Bucket>, now: int, cost: real)
    requires o.Valid()
    ensures var tokens := Level(o, b, now);
            var left := if tokens >= cost then tokens - cost else tokens;
            Take(o, b, now, cost) ==
            (Verdict(tokens >= cost, left, if tokens >= cost then 0 else Ceil((cost - left) / o.PerMs())), Bucket(left, now))
  {}

  /** What one sweep of the local map leaves. */
  function Swept(o: Options, s: Store, now: int): Store
    requires o.Valid()
  {
    map k | k in s && now - s[k].ts <= o.TtlMs() :: s[k]
  }

  /** The shared buckets, as the TAKE script updates them. */
  class RedisBuckets {
    var buckets: Store

    constructor ()
      ensures buckets == map[]
    {
      buckets := map[];
    }

    /** The script answers as the store specification does, so `KeysAreIndependent` and the window
        bound speak of it. For a caller: the take is granted exactly if the level covers it, exactly
        the granted cost leaves the bucket, which stays between empty and full, and no other key's
        bucket changes. */
    method EvalTake(o: Options, key: string, now: int, cost: real) returns (v: Verdict)
      requires o.Valid()
      modifies this
      ensures (Taken(v), buckets) == Serve(o, old(buckets), TakeCall(key, now, cost))
      ensures v.allowed <==> cost <= Level(o, Lookup(old(buckets), key), now)
      ensures forall k | k != key :: Lookup(buckets, k) == Lookup(old(buckets), k)
      ensures cost >= 0.0 && Sane(o, Lookup(old(buckets), key)) ==>
                && 0.0 <= Level(o, Lookup(buckets, key), now) <= o.capacity
                && Level(o, Lookup(buckets, key), now) == Level(o, Lookup(old(buckets), key), now) - (if v.allowed then cost else 0.0)
    {
      if cost >= 0.0 && Sane(o, Lookup(buckets, key)) {
        TouchTakesGrant(o, Lookup(buckets, key), TakeAt(now, cost));
        TakeKeepsLevel(o, Some(Take(o, Lookup(buckets, key), now, cost).1), now, 0.0);
      }
      var (verdict, b) := Take(o, Lookup(buckets, key), now, cost);
      buckets := buckets[key := b];
      v := verdict;
    }
  }

  class TokenBucketRateLimiter {
    const options: Options
    const redis: RedisBuckets
    var local: Store

    /** What the local map would hold had it never been swept, and when it was last used. */
    ghost var memory: Store
    ghost var clock: int

    ghost predicate Valid()
      reads this
    {
      && options.Valid()
      && Remembers(options, local, memory, clock)
      && StoreSane(options, memory, clock)
    }

    constructor (redis: RedisBuckets, options: Options, ghost now: int)
      requires options.Valid()
      ensures Valid() && this.options == options && this.redis == redis
      ensures local == map[] && memory == map[] && clock == now
    {
      this.options := options;
      this.redis := redis;
      local := map[];
      memory := map[];
      clock := now;
    }

    /** Redis answers, or the call times out and the per-process bucket does. A timed-out
        script may still run later; `late` says whether it did. */
    method TakeToken(key: string, cost: real, redisNow: int, timedOut: bool, late: bool, now: int) returns (r: TakeResult)
      requires Valid() && cost >= 0.0 && clock <= now
      modifies this, redis
      ensures Valid()
      ensures !timedOut ==>
                && Tells(options, Lookup(old(redis.buckets), key), redisNow, cost, false, r)
                && redis.buckets == Serve(options, old(redis.buckets), TakeCall(key, redisNow, cost)).1
                && local == old(local) && memory == old(memory)
      ensures timedOut ==>
                && Tells(options, Lookup(old(memory), key), now, cost, true, r)
                && memory == Serve(options, old(memory), TakeCall(key, now, cost)).1
                && redis.buckets == if late then Serve(options, old(redis.buckets), TakeCall(key, redisNow, cost)).1 else old(redis.buckets)
    {
      if !timedOut {
        var v := redis.EvalTake(options, key, redisNow, cost);
        ResultTells(options, Lookup(old(redis.buckets), key), redisNow, cost, false);
        r := ToResult(options, v, false);
      } else {
        if late {
          var _ := redis.EvalTake(options, key, redisNow, cost);
        }
        r := TakeLocal(key, now, cost);
      }
    }

    /** The answer is the one an unswept map would give, and the map keeps exactly the entries
        the sweep spares, with this key's entry rewritten. */
    method TakeLocal(key: string, now: int, cost: real) returns (r: TakeResult)
      requires Valid() && cost >= 0.0 && clock <= now
      modifies this`local, this`memory, this`clock
      ensures Valid() && clock == now
      ensures Tells(options, Lookup(old(memory), key), now, cost, true, r)
      ensures memory == Serve(options, old(memory), TakeCall(key, now, cost)).1
      ensures local == (if |old(local)| > 10_000 then Swept(options, old(local), now) else old(local))
                       [key := Take(options, Lookup(old(memory), key), now, cost).1]
    {
      clock := now;
      if |local| > LOCAL_SWEEP_THRESHOLD {
        Sweep(now);
      }
      r := Draw(key, now, cost);
    }

    /** Refills this key's entry, takes from it if it can, and writes it back. */
    method Draw(key: string, now: int, cost: real) returns (r: TakeResult)
      requires Valid() && cost >= 0.0 && clock == now
      modifies this`local, this`memory
      ensures Valid()
      ensures Tells(options, Lookup(old(memory), key), now, cost, true, r)
      ensures memory == Serve(options, old(memory), TakeCall(key, now, cost)).1
      ensures local == old(local)[key := Take(options, Lookup(old(memory), key), now, cost).1]
    {
      ServeAgrees(options, local, memory, clock, TakeCall(key, now, cost));
      LookupAgrees(options, local, memory, clock, key, now);
      var entry := if key in local then local[key] else Bucket(options.capacity, now);
      var tokens := Refilled(entry, key, now);
      DrawIsTake(options, Lookup(memory, key), now, cost);
      ResultTells(options, Lookup(memory, key), now, cost, true);
      var allowed := tokens >= cost;
      var left := if allowed then tokens - cost else tokens;
      memory := Serve(options, memory, TakeCall(key, now, cost)).1;
      local := local[key := Bucket(left, now)];
      r := ToResult(options, Verdict(allowed, left, if allowed then 0 else Ceil((cost - left) / options.PerMs())), true);
    }

    /** The refill `takeLocal` computes has no guard against time running backwards; on a clock
        that does not, it is the script's. */
    function Refilled(entry: Bucket, key: string, now: int): (tokens: real)
      reads this
      requires Valid() && clock <= now
      requires entry == if key in local then local[key] else Bucket(options.capacity, now)
      ensures tokens == Level(options, Lookup(local, key), now)
    {
      assert (0 as real) * options.PerMs() == 0.0;
      assert key in local ==> key in memory && local[key] == memory[key];
      Min(options.capacity, entry.tokens + (now - entry.ts) as real * options.PerMs())
    }

    /** Deletes the entries idle for longer than the TTL, and no others. */
    method Sweep(now: int)
      requires Valid() && clock == now
      modifies this`local
      ensures local == Swept(options, old(local), now)
      ensures Valid()
    {
      var pending := local.Keys;
      while pending != {}
        invariant forall k :: k in local <==> k in old(local) && (k in pending || now - old(local)[k].ts <= options.TtlMs())
        invariant forall k | k in local :: local[k] == old(local)[k]
        invariant pending <= old(local).Keys
        decreases |pending|
      {
        var k :| k in pending;
        if now - local[k].ts > options.TtlMs() {
          local := local - {k};
        }
        pending := pending - {k};
      }
    }
  }
}
